# Pawstagram backend: a Dafny model

Pawstagram is an Express/Mongoose backend for a pet-owners' social network:
- users register, follow and unfollow each other, and edit their profiles;
- they create posts, like and unlike them, and read a timeline.

This project models the handler logic and the two schemas it rests on:
- `Common`: object ids, the handlers' replies and status codes, and the list filter that unfollow and unlike use.
- `UserModel`: the User schema.
  - Required fields, and the unique `email` and `userName`.
  - The `trim` setter on `email`.
  - The `" "` defaults and the `pets` enum.
  - Creating and inserting a user.
- `PostModel`: the Post schema.
  - The required author and the comment defaults.
  - `Post.find` by author.
- `AuthRoutes`: the registration validation chain.
  - The empty-field check.
  - The unanchored email pattern, characterised exactly.
  - The three-lookahead password pattern, characterised exactly for single-line strings.
- `UserRoutes`: the users collection as the class `UserStore`, with one method per handler: follow, unfollow, delete, profile update, online status, list, friends, get.
  - Each mutating method is proved equal to a function of the collection before the call (`FollowOutcome`, `UnfollowOutcome`, …).
  - The lemmas about those functions state the source's promises: the guard order of follow, unfollow and delete, exact effects, the failing `save()` paths, idempotence, the follow/unfollow round trip, and preservation of the two-sided follow graph and the unique indexes.
- `PostRoutes`: the posts collection as the class `PostStore` (create, update, delete, like, get), and the timeline as a pure function.

The following are inputs of the model, not computed by it:
- the caller's identity;
- the salt;
- whether a file was uploaded;
- fresh ObjectIds;
- the current time.

Each handler runs as one atomic step.

Where the code's evident intent and its text differ, two things are modelled:
- the code as written, which is what the classes do, except for the literal run-time errors listed under "## Left out", where the classes follow the evident intent;
- a corrected definition with the intended property proved about it (see "## Findings").

## Model

| member | source | states |
|---|---|---|
| Common.Without | server/routes/user.routes.js:290-297 | filtering drops every occurrence of the id and keeps exactly the other elements, with their counts; an absent id leaves the list unchanged |
| Common.WithoutConcat | server/routes/user.routes.js:290-297 | filtering distributes over concatenation, so the survivors keep their relative order |
| Common.WithoutAppended | server/routes/post.routes.js:49-53 | pulling an id just pushed onto a list that lacked it gives the list back exactly |
| UserModel.ParsePet | server/models/User.model.js:73-79 | an admitted `pets` value is the name of that pet |
| UserModel.ParsePetName | server/models/User.model.js:73-79 | every enum name is admitted and parses back to its pet |
| UserModel.ParsePets | server/models/User.model.js:73-79 | a `pets` array validates iff every element is in the enum, and then each stored pet carries the given name |
| UserModel.TrimStart | server/models/User.model.js:9 | the result is a suffix of the input; everything cut is whitespace and the result does not start with whitespace |
| UserModel.TrimEnd | server/models/User.model.js:9 | the result is a prefix of the input; everything cut is whitespace and the result does not end with whitespace |
| UserModel.Trim | server/models/User.model.js:9 | the stored email is a substring of the input surrounded only by whitespace, and neither starts nor ends with whitespace |
| UserModel.TrimIdempotent | server/models/User.model.js:9 | trimming a trimmed email changes nothing |
| UserModel.NewUser | server/models/User.model.js:5-79 | creation succeeds iff the trimmed email, password, first name, last name and user name are all non-empty, and every pet is in the enum; a failure is a validation error naming at least one path |
| UserModel.NewUserDefaults | server/models/User.model.js:33-79 | a created user is valid; it keeps the supplied user name, password, first and last name and pets, stores the email trimmed, keeps each supplied text field, `isOnline`, `followers` and `following`, and otherwise defaults the five text fields to `" "`, `isOnline` to false and both follow lists to empty |
| UserModel.NewUserReportsMissing | server/models/User.model.js:5-31 | every missing required field is named in the validation error |
| UserModel.AddKeepsUnique | server/models/User.model.js:5-31 | adding a user whose email and user name nobody has keeps both indexes unique |
| UserModel.InsertUser | server/models/User.model.js:5-31 | saving a new user succeeds iff its fields validate and neither its email nor its user name is taken, and then adds exactly that user; what this keeps is stated in `InsertKeepsUnique` and `InsertRejectsDuplicate` |
| UserModel.InsertKeepsUnique | server/models/User.model.js:5-31 | a successful insert adds exactly the new user, leaves the others unchanged and keeps `email` and `userName` unique |
| UserModel.InsertRejectsDuplicate | server/models/User.model.js:5-31 | a taken email or user name makes the insert fail with a duplicate-key error |
| AuthRoutes.EmailRegexTest | server/routes/auth.routes.js:32-33 | the unanchored test: some substring is `x@y.z` with runs free of `@` and whitespace; its contract is stated in `EmailRegexIffShape` and the email lemmas below |
| AuthRoutes.EmailRegexIffShape | server/routes/auth.routes.js:32-33 | the unanchored email pattern accepts a string iff it contains `x@y.z` with one allowed character before `@`, a run after it and one allowed character after the dot |
| AuthRoutes.EmailAcceptedHasAtAndDot | server/routes/auth.routes.js:32-33 | an accepted email has an `@` that is not first, followed later by a `.` that is not last |
| AuthRoutes.EmailExamples | server/routes/auth.routes.js:32-36 | `a@b.com` and a sentence containing it are accepted; `ab.com`, `a@b`, `@b.com` and `undefined` are rejected |
| AuthRoutes.NoAtRejected | server/routes/auth.routes.js:32-33 | a string without `@` is rejected |
| AuthRoutes.NoLaterAtRejected | server/routes/auth.routes.js:32-33 | a string whose only `@` is in first position is rejected |
| AuthRoutes.ThreeClassesNeedThree | server/routes/auth.routes.js:40 | holding a digit, a lower-case and an upper-case letter forces length at least 3, so `.{3,}` adds nothing |
| AuthRoutes.PasswordRegexTest | server/routes/auth.routes.js:40-41 | the three lookaheads and `.{3,}` from the start of a line; its contract is stated in `PasswordRegexIff` and `PasswordAcceptedHasClasses` |
| AuthRoutes.PasswordRegexIff | server/routes/auth.routes.js:40-41 | on a string without line terminators the password pattern accepts iff the string holds an ASCII digit, a lower-case and an upper-case letter |
| AuthRoutes.PasswordAcceptedHasClasses | server/routes/auth.routes.js:40-41 | whatever the string, an accepted password holds the three classes and has length at least 3 |
| AuthRoutes.MissingClassRejected | server/routes/auth.routes.js:40-48 | a password missing any of the three classes is rejected |
| AuthRoutes.PasswordExamples | server/routes/auth.routes.js:40-48 | `Abc123` is accepted; `abc123`, `ABC123`, `Abcdef` and `undefined` are rejected |
| AuthRoutes.Register | server/routes/auth.routes.js:15-55 | the "missing information" 400 is sent iff some field is exactly `""`; the order of the other checks is stated in `RegisterFirstFailureDecides` and the accepted requests in `RegisterAccepts` |
| AuthRoutes.RegisterUndefinedFields | server/routes/auth.routes.js:20-27 | the 400 "missing information" reply is sent iff some field is exactly `""`; an undefined email fails the email check and an undefined password the password check |
| AuthRoutes.RegisterAccepts | server/routes/auth.routes.js:15-55 | a request gets past every check iff no field is `""`, the email matches and the password holds the three classes; then no response is sent and nothing is stored |
| AuthRoutes.RegisterFirstFailureDecides | server/routes/auth.routes.js:20-48 | for every request the checks run in order empty → email → password and the first failure decides the reply; no reply is sent iff all three pass |
| AuthRoutes.RegisterScenario | server/routes/auth.routes.js:20-48 | `a@b.com` with `Abc123` passes every check; a good email with a weak password gets the weak-password reply; an empty field is reported before a bad email in the same request |
| PostModel.NewPost | server/models/Post.model.js:4-34 | a post is created iff it has an author that is an ObjectId and every comment author casts; it keeps the supplied fields and likes (no likes when none are supplied), and stamps undated comments with the creation time; without an author the error names `user` |
| PostModel.PostsBy | server/routes/user.routes.js:312 | the query result holds exactly the posts by that author, drawn from the collection |
| PostModel.PostsByAppend | server/routes/user.routes.js:312 | a post added last shows up last among its author's posts and nowhere else |
| UserRoutes.Hash | server/routes/user.routes.js:158-161 | the stored password hash differs from the plaintext |
| UserRoutes.ReplaceKeepsWellFormed | server/models/User.model.js:5-31 | replacing a document with one of the same id, email and user name keeps the collection well formed |
| UserRoutes.Followed | server/routes/user.routes.js:244-248 | the two pushes of a successful follow; stated in `FollowEffect` |
| UserRoutes.FollowOutcome | server/routes/user.routes.js:207-256 | a refusal leaves the collection unchanged, except that a target failing its `save()` validation answers 500 with the caller's push already written; once every guard passes, a caller failing its `save()` validation gets 500 and no write; success requires two distinct existing users whose records pass the required checks |
| UserRoutes.FollowGuardOrder | server/routes/user.routes.js:211-238 | an invalid id gets 400, then self-follow 400, then a caller id that does not cast 500 with no write, then a missing user 404; "already following" is answered iff both exist and the target is already followed; then a caller failing `save()` gets 500 with no write and a target failing it 500 with the caller's push written; success iff every guard passes and both records pass the required checks; no other status is sent |
| UserRoutes.FollowEffect | server/routes/user.routes.js:244-248 | a successful follow appends the target to the caller's `following` and the caller to the target's `followers`, and changes nothing else |
| UserRoutes.FollowTwice | server/routes/user.routes.js:234-238 | a second follow of the same user is refused with 400 and leaves the state of the first |
| UserRoutes.SelfFollowRefused | server/routes/user.routes.js:211-220 | following oneself is always refused without change |
| UserRoutes.FollowPreservesGraph | server/routes/user.routes.js:244-248 | follow never creates a self edge, and it keeps `following`/`followers` two-sided exactly when it writes both documents or neither |
| UserRoutes.Unfollowed | server/routes/user.routes.js:289-300 | the two filters of a successful unfollow; stated in `UnfollowedEffect` |
| UserRoutes.UnfollowOutcome | server/routes/user.routes.js:260-305 | as written: a refusal leaves the collection unchanged, except that a target failing its `save()` validation answers 500 with the caller's filter already written; once the guards pass (the caller not following the target), the reply is 200 iff both records pass `save()` validation, and a failing caller record gets 500 with no write; a 200 stores `Unfollowed`, whose effect `UnfollowedEffect` states |
| UserRoutes.IntendedUnfollowOutcome | server/routes/user.routes.js:260-305 | with the guard its message describes: the same refusals and `save()` paths; success requires that the caller follows the target and then stores `Unfollowed` |
| UserRoutes.UnfollowGuardOrder | server/routes/user.routes.js:265-287 | self-unfollow gets 400 before any lookup, an id that does not cast 500, a missing user 404; as written "not following" is answered iff the caller does follow the target, and with the intended guard iff they do not; for both guards, 200 iff the guards pass and both records pass `save()` validation, a failing caller record gets 500 with no write and a failing target record 500 with the caller's filter written |
| UserRoutes.UnfollowedEffect | server/routes/user.routes.js:289-300 | unfollow removes every occurrence of each id from the two lists, keeps the other entries with their counts, and changes nothing else |
| UserRoutes.UnfollowAsWrittenRefusesFollower | server/routes/user.routes.js:283-287 | as written, unfollowing right after a follow answers "You are not following this user" and keeps the follow |
| UserRoutes.UnfollowAsWrittenChangesNothing | server/routes/user.routes.js:283-300 | as written, on a two-sided graph unfollow never changes the collection |
| UserRoutes.UnfollowedUndoesFollowed | server/routes/user.routes.js:244-297 | the filters undo the two pushes exactly |
| UserRoutes.PushThenPull | server/routes/user.routes.js:244-297 | on one record, filtering out an id that was just pushed restores the record |
| UserRoutes.FollowThenUnfollowRestores | server/routes/user.routes.js:207-305 | with the intended guard, unfollow after follow restores the collection exactly |
| UserRoutes.UnfollowedPreservesGraph | server/routes/user.routes.js:289-300 | unfollow keeps the graph two-sided and free of self edges |
| UserRoutes.IntendedUnfollowPreservesGraph | server/routes/user.routes.js:283-300 | the intended unfollow never creates a self edge, and keeps the graph two-sided exactly when it writes both documents or neither |
| UserRoutes.SaveableUsersWriteBothOrNeither | server/routes/user.routes.js:247-248 | while every stored record passes the required checks, a refused follow or unfollow writes nothing |
| UserRoutes.DeleteOutcome | server/routes/user.routes.js:178-204 | a refusal writes nothing; the guard order and the effect of a success are stated in `DeleteEffect` |
| UserRoutes.DeleteEffect | server/routes/user.routes.js:178-204 | deletion succeeds iff the id casts, exists and is the requester's own; another user gets 401; success removes that record alone, and other users keep their references to it |
| UserRoutes.DeletePreservesInvariants | server/routes/user.routes.js:186-199 | deletion keeps the collection well formed and the graph two-sided among the users that remain |
| UserRoutes.UpdateOutcome | server/routes/user.routes.js:130-175 | an id that does not cast gets 500 and a new email or user name taken by another user gets 500, both with no write; an existing user whose update clashes with nobody gets 200 and keeps the set of users |
| UserRoutes.UpdateEffect | server/routes/user.routes.js:136-169 | an unknown id gets 404 with no write; success sets names only from truthy values and the password only as its hash, merges the other fields verbatim (email trimmed), stores the upload URL when there is a file, and changes no other user |
| UserRoutes.UpdatePreservesWellFormed | server/routes/user.routes.js:165-169 | with the unique indexes refusing clashes, the update keeps the collection well formed |
| UserRoutes.UpdateCanStoreEmptyEmail | server/routes/user.routes.js:165-169 | the update runs no validators: a blank email is stored as `""`, leaving a record that a later `save()` refuses |
| UserRoutes.UpdatePreservesGraph | server/routes/user.routes.js:136-169 | an update that carries no `followers`/`following` keeps the graph two-sided |
| UserRoutes.SetStatusOutcome | server/routes/user.routes.js:36-52 | 500 iff the id does not cast, with no change; otherwise 200, and an unknown id still gets 200 with no change |
| UserRoutes.SetStatusIdempotent | server/routes/user.routes.js:36-52 | setting the status changes only that user's `isOnline`, and repeating it changes nothing |
| UserRoutes.UserPosts | server/routes/user.routes.js:309-320 | 200 iff the id casts, with exactly that author's posts |
| UserRoutes.UserStore.constructor | server/models/User.model.js:3-85 | a store starts from a well-formed collection |
| UserRoutes.UserStore.Follow | server/routes/user.routes.js:207-257 | the follow handler computes `FollowOutcome` and keeps the collection well formed |
| UserRoutes.UserStore.Unfollow | server/routes/user.routes.js:260-306 | the unfollow handler as written computes `UnfollowOutcome` and keeps the collection well formed |
| UserRoutes.UserStore.Delete | server/routes/user.routes.js:178-204 | the delete handler computes `DeleteOutcome` |
| UserRoutes.UserStore.Update | server/routes/user.routes.js:130-175 | the update handler builds the update document step by step, computes `UpdateOutcome`, and returns the stored record without its password |
| UserRoutes.UserStore.SetStatus | server/routes/user.routes.js:36-52 | the status handler computes `SetStatusOutcome` and returns the whole updated document, or nothing when no user matched |
| UserRoutes.UserStore.ListUsers | server/routes/user.routes.js:55-65 | every user except the caller, without passwords; 500 when the caller id does not cast |
| UserRoutes.UserStore.Friends | server/routes/user.routes.js:68-82 | a missing `userIds` array gets 400 and an id that does not cast gets 500; when every id casts the reply is 200 with the listed users that exist, without passwords |
| UserRoutes.UserStore.GetUser | server/routes/user.routes.js:99-114 | 200 with the user minus the password iff the id casts and exists; otherwise 500 or 404 |
| PostRoutes.Find | server/routes/post.routes.js:19 | findById: the first index holding the id, or none iff no post has it |
| PostRoutes.FindIndex | server/routes/post.routes.js:19 | in a well-formed collection each post is found at its own position |
| PostRoutes.RemoveAt | server/routes/post.routes.js:32-43 | removing one post keeps the collection well formed and the others in order, and leaves that id unfindable |
| PostRoutes.CreateOutcome | server/routes/post.routes.js:6-14 | creation succeeds iff the post validates; otherwise 500 and no change |
| PostRoutes.CreateThenGet | server/routes/post.routes.js:6-14 | a created post can be fetched under its id and is its author's newest post; earlier posts stay in order and other authors' listings are unchanged |
| PostRoutes.GetOutcome | server/routes/post.routes.js:62-69 | 500 iff the id does not cast; otherwise 200 with the post filed under that id, or with null when there is none |
| PostRoutes.UpdateWith | server/routes/post.routes.js:17-29 | a bad id or a missing post gets 500; a refusal changes nothing, and the collection keeps its size |
| PostRoutes.UpdateOutcome | server/routes/post.routes.js:17-29 | as written: a bad id or a missing post gets 500; for an existing post, 403 with no change iff the body has any `userId`; without one, a `user` that does not cast gets 500; a refusal changes nothing; what a 200 stores is stated in `UpdateAsWrittenIgnoresOwner` |
| PostRoutes.IntendedUpdateOutcome | server/routes/post.routes.js:17-29 | with the owner guard: a bad id or a missing post gets 500; the author's update with a `user` that does not cast gets 500; a 200 only stores a `user` that casts; a refusal changes nothing |
| PostRoutes.UpdateAsWrittenIgnoresOwner | server/routes/post.routes.js:20 | as written, a body without `userId` updates anyone's post, merging the supplied fields into that post and no other, and the author naming themselves is refused with 403 |
| PostRoutes.IntendedUpdateOnlyOwner | server/routes/post.routes.js:20-24 | with the owner guard, a post changes only at its author's request and only in the supplied fields; for an existing post and a castable `user`, the update succeeds iff the body names the author; a non-author gets 403 and no change |
| PostRoutes.DeleteOutcome | server/routes/post.routes.js:32-43 | as written, no branch changes the collection; a bad id or a missing post gets 500; for an existing post the reply is 200 iff the body has no `userId`, and 403 otherwise |
| PostRoutes.IntendedDeleteOutcome | server/routes/post.routes.js:32-43 | a bad id or a missing post gets 500, a non-author 403, both with no change |
| PostRoutes.DeleteAsWrittenKeepsPost | server/routes/post.routes.js:35-36 | as written, after "The post has been deleted" the post can still be fetched, and the reply was only possible without a `userId` |
| PostRoutes.IntendedDeleteRemoves | server/routes/post.routes.js:32-43 | for an existing post the intended delete succeeds iff the body names the author; it then removes exactly that post, which can no longer be fetched, and the rest stay in order |
| PostRoutes.ToggleLike | server/routes/post.routes.js:49-53 | after the toggle the id is liked iff it was not; other ids keep their counts; a new like is appended once at the end |
| PostRoutes.ToggleTwiceFromAbsent | server/routes/post.routes.js:49-53 | like then unlike of an id not yet present restores `likes` exactly |
| PostRoutes.OccursOnce | server/routes/post.routes.js:49-53 | in a list without duplicates each entry occurs once |
| PostRoutes.PutBackLast | server/routes/post.routes.js:49-53 | pulling an entry that occurs once and pushing it again keeps the multiset |
| PostRoutes.ToggleTwiceFromPresent | server/routes/post.routes.js:49-53 | unlike then like on a list without duplicates restores the likes as a multiset, with that id moved last |
| PostRoutes.ToggleTwiceReorders | server/routes/post.routes.js:49-53 | the restoration is up to order only: `["a","b"]` toggled twice on `"a"` becomes `["b","a"]` |
| PostRoutes.LikeOutcome | server/routes/post.routes.js:46-59 | 200 iff the id casts and the post exists; otherwise 500 and no change |
| PostRoutes.LikeEffect | server/routes/post.routes.js:49-53 | a successful like toggles the liker in that post's `likes` and changes no other field and no other post |
| PostRoutes.LikeTwice | server/routes/post.routes.js:46-59 | two likes by the same user on a post they had not liked leave the collection as it was |
| PostRoutes.FollowedPosts | server/routes/post.routes.js:77-81 | every post in the followed users' block is by someone followed |
| PostRoutes.FollowedPostsConcat | server/routes/post.routes.js:77-82 | each followed user's posts form one block, blocks in `following` order, with no interleaving |
| PostRoutes.FollowedPostsComplete | server/routes/post.routes.js:77-81 | every post by a followed user is included |
| PostRoutes.Timeline | server/routes/post.routes.js:73-86 | 200 iff the body names an existing user whose id casts and every id in whose `following` casts; otherwise 500 and an empty result |
| PostRoutes.TimelineContents | server/routes/post.routes.js:76-82 | the timeline starts with the user's own posts and holds exactly the posts by the user or by someone they follow |
| PostRoutes.TimelineWithoutFollowing | server/routes/post.routes.js:76-82 | following nobody, the timeline is exactly the user's own posts |
| PostRoutes.TimelineAfterFollow | server/routes/post.routes.js:76-82 | after a successful follow, the followed user's posts are appended as one block to the caller's timeline |
| PostRoutes.PostStore.constructor | server/models/Post.model.js:4-38 | a store starts from a well-formed collection |
| PostRoutes.PostStore.Create | server/routes/post.routes.js:6-14 | the create handler computes `CreateOutcome` and returns the saved post |
| PostRoutes.PostStore.Update | server/routes/post.routes.js:17-29 | the update handler as written computes `UpdateOutcome` |
| PostRoutes.PostStore.Delete | server/routes/post.routes.js:32-43 | the delete handler computes `DeleteOutcome`, changing nothing |
| PostRoutes.PostStore.Like | server/routes/post.routes.js:46-59 | the like handler computes `LikeOutcome` and says whether it liked or unliked |
| PostRoutes.PostStore.Get | server/routes/post.routes.js:62-69 | the get handler computes `GetOutcome` |

## Left out

- Literal run-time errors of the source. In each case below the literal code throws and the handler answers 500; the model follows the evident intent:
  - `id.toStrng()` in the unfollow filters (server/routes/user.routes.js:291,296) throws on any non-empty array (with both lists empty the literal code answers 200); it is modelled as a string comparison.
  - `post.updatedOne` in the like handler (server/routes/post.routes.js:50,53) is modelled as `updateOne`.
  - `post.likes.includes` (server/routes/post.routes.js:49) would call `includes` on a Mongoose Map. `likes` is modelled as a list of ids, as the handler treats it, not as the schema's Map of booleans.
  - The timeline uses `User` without importing it (server/routes/post.routes.js:75) and reads `followings` (server/routes/post.routes.js:78). It is modelled with the `User` model and the schema's `following`.
- Timeline: the literal code queries `Post.find({ userId: … })` on a path the schema does not declare, so its result depends on the Mongoose `strictQuery` setting. The model queries by author (`user`). A missing user gets 500 here, where the user routes answer 404.
- Validation of a `$set` by Mongoose: only the cast of `user` in a post update is modelled. Patching `likes` or `comments` through the update body is not modelled.
- ObjectId details:
  - `ValidId` accepts 24 hex digits only, not the 12-byte string form.
  - Ids compare as strings, without case normalisation.
- Hash: bcrypt salting and hashing are replaced by a stand-in. The only property used is that the hash differs from the plaintext.
- JWT authentication: the caller id is a trusted input.
- Network and external services:
  - Cloudinary uploads are reduced to a boolean input: whether a file was uploaded.
  - The chat route (an OpenAI call) and app wiring have no logic to state.
- Friends and Comment schemas: no handler reads or writes them.
- Execution:
  - Concurrency and the async interleaving of the two `save()` calls in follow and unfollow are not modelled; each handler is one atomic step. A `save()` failing the required-field validation is modelled; a failing write for any other reason (lost connection, crash) is not.
  - Timestamps, `populate`, `console.log` output, and the error objects echoed in 500 replies are left out.
- Register: the handler never stores a user. Insertion into the collection is modelled separately, as `UserModel.InsertUser`.
- Like handler: a body without `userId` (an undefined liker) is not modelled. The liker is always an id.
- Status handler: an undefined `userId` or `isOnline` is not modelled.
- UserStore.ListUsers: returns a map from id to user, so the order of the source's result array (the query order) is not modelled.
- UserStore.Friends: returns a map from id to user, so the order of the source's `friendsDetails` array is not modelled.
- Update patches of `pets` are not modelled; profile updates leave the stored pets unchanged.
- PostRoutes.PostStore.Create: requires a fresh, valid id. This stands for MongoDB generating a new ObjectId; it is not a demand on the caller.
- AuthRoutes.RegisterAccepts: states the exact condition only for passwords without line terminators. For other passwords, `PasswordAcceptedHasClasses` gives the necessary direction.

## Findings

| source | as written | input that shows it | evidently intended | confidence | as-written member | corrected member |
|---|---|---|---|---|---|---|
| server/routes/user.routes.js:283 | unfollow refuses with "You are not following this user" exactly when the caller does follow the target | follow B as A, then unfollow B as A: 400 and the follow stays | refuse when the caller does not follow the target, so that unfollow undoes follow | high, not executed | UserRoutes.UnfollowAsWrittenRefusesFollower | UserRoutes.FollowThenUnfollowRestores |
| server/routes/post.routes.js:35-36 | the delete handler answers "The post has been deleted" and never removes the post | delete an existing post with a body without `userId`: 200, and a later get still returns it | remove the post when its author asks | high, not executed | PostRoutes.DeleteAsWrittenKeepsPost | PostRoutes.IntendedDeleteRemoves |
| server/routes/post.routes.js:20,35 | the ownership guard compares `post.userId`, a path the schema does not have (the author is `user`), so it passes iff the body has no `userId` | update someone else's post with a body without `userId`: 200; the author sending their own id: 403 | allow only when the body's `userId` is the post's `user` | high, not executed | PostRoutes.UpdateAsWrittenIgnoresOwner | PostRoutes.IntendedUpdateOnlyOwner |
