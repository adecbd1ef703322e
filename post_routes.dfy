/** The post routes (server/routes/post.routes.js): create, the ownership
    gated update and delete, the like toggle, get, and the timeline. The
    posts collection is a sequence in collection order, so that the order
    of `Post.find` results is part of the model. */
module PostRoutes {
  import opened Common
  import opened UserModel
  import opened PostModel
  import UserRoutes

  /** Where the post filed under id sits in the collection, if anywhere. */
  function Find(posts: seq<Post>, id: Id): (r: Option<nat>)
    ensures r.Some? ==> r.value < |posts| && posts[r.value].id == id
    ensures r.Some? ==> forall k | 0 <= k < r.value :: posts[k].id != id
    ensures r.None? <==> forall k | 0 <= k < |posts| :: posts[k].id != id
  {
    if posts == [] then None
    else if posts[0].id == id then Some(0)
    else match Find(posts[1..], id)
      case None => None
      case Some(i) => Some(i + 1)
  }

  /** The collection's invariant: valid ids, each filed once. */
  predicate WellFormed(posts: seq<Post>) {
    (forall i | 0 <= i < |posts| :: ValidId(posts[i].id))
    && forall i, j | 0 <= i < j < |posts| :: posts[i].id != posts[j].id
  }

  /** In a well-formed collection every post is found where it is. */
  lemma FindIndex(posts: seq<Post>, i: nat)
    requires WellFormed(posts) && i < |posts|
    ensures Find(posts, posts[i].id) == Some(i)
  {
    var f := Find(posts, posts[i].id);
    assert f.Some? by {
      assert posts[i].id == posts[i].id;
    }
    var j := f.value;
    assert posts[j].id == posts[i].id;
    assert !(j < i);
    assert !(i < j);
  }

  /** Taking the post at i out of a well-formed collection keeps it well
      formed, leaves the other posts in order and leaves no post with that
      id behind. */
  lemma RemoveAt(posts: seq<Post>, i: nat)
    requires WellFormed(posts) && i < |posts|
    ensures var after := posts[..i] + posts[i + 1..];
      && WellFormed(after)
      && |after| == |posts| - 1
      && (forall k | 0 <= k < i :: after[k] == posts[k])
      && (forall k | i < k < |posts| :: after[k - 1] == posts[k])
      && Find(after, posts[i].id).None?
  {
    var after := posts[..i] + posts[i + 1..];
    assert forall k | 0 <= k < |after| :: after[k] == posts[if k < i then k else k + 1];
  }

  /** A handler's reply together with the collection it leaves behind. */
  datatype PostsOutcome = PostsOutcome(reply: Reply, posts: seq<Post>)

  // ---------------------------------------------------------------------
  // POST /post/create

  /** `new Post(req.body).save()`: a validation error answers 500; otherwise
      the post is stored under a fresh id and returned. */
  function CreateOutcome(posts: seq<Post>, f: PostFields, newId: Id, now: int): (r: PostsOutcome)
    ensures r.reply == Ok <==> NewPost(newId, f, now).Success?
    ensures r.reply != Ok ==> r.reply == ServerError && r.posts == posts
  {
    match NewPost(newId, f, now)
    case Failure(_) => PostsOutcome(ServerError, posts)
    case Success(p) => PostsOutcome(Ok, posts + [p])
  }

  /** Appending a post under an unused valid id keeps the collection well
      formed. */
  lemma AppendKeepsWellFormed(posts: seq<Post>, p: Post)
    requires WellFormed(posts) && ValidId(p.id) && Find(posts, p.id).None?
    ensures WellFormed(posts + [p])
  {
    var after := posts + [p];
    forall i | 0 <= i < |after|
      ensures ValidId(after[i].id)
    {
      if i < |posts| {
        assert after[i] == posts[i];
      }
    }
    forall i, j | 0 <= i < j < |after|
      ensures after[i].id != after[j].id
    {
      assert after[i] == posts[i];
      if j == |posts| {
        assert posts[i].id != p.id;
      } else {
        assert after[j] == posts[j];
      }
    }
  }

  /** A post appended under an unused id is found at the end. */
  lemma AppendFound(posts: seq<Post>, p: Post)
    requires Find(posts, p.id).None?
    ensures Find(posts + [p], p.id) == Some(|posts|)
  {
    var after := posts + [p];
    var r := Find(after, p.id);
    assert r.Some? by {
      assert after[|posts|].id == p.id;
    }
    assert !(r.value < |posts|);
  }

  /** What appending a post under an unused valid id does to lookups and
      to every author's listing. */
  lemma AppendThenGet(posts: seq<Post>, p: Post)
    requires WellFormed(posts) && ValidId(p.id) && Find(posts, p.id).None?
    ensures var after := posts + [p];
      && WellFormed(after)
      && after[..|posts|] == posts
      && GetOutcome(after, p.id) == (Ok, Some(p))
      && PostsBy(after, p.user) == PostsBy(posts, p.user) + [p]
      && forall a | a != p.user :: PostsBy(after, a) == PostsBy(posts, a)
  {
    var after := posts + [p];
    AppendKeepsWellFormed(posts, p);
    AppendFound(posts, p);
    assert after[|posts|] == p;
    assert after[..|posts|] == posts;
    PostsByAppend(posts, p, p.user);
    forall a | a != p.user
      ensures PostsBy(after, a) == PostsBy(posts, a)
    {
      PostsByAppend(posts, p, a);
    }
  }

  /** A created post can be fetched back under its id, is its author's last
      post, and every post that was there before is still there, in order. */
  lemma CreateThenGet(posts: seq<Post>, f: PostFields, newId: Id, now: int)
    requires WellFormed(posts) && ValidId(newId) && Find(posts, newId).None?
    requires CreateOutcome(posts, f, newId, now).reply == Ok
    ensures var after := CreateOutcome(posts, f, newId, now).posts;
      var p := NewPost(newId, f, now).value;
      && WellFormed(after)
      && after[..|posts|] == posts
      && GetOutcome(after, newId) == (Ok, Some(p))
      && PostsBy(after, p.user) == PostsBy(posts, p.user) + [p]
      && forall a | a != p.user :: PostsBy(after, a) == PostsBy(posts, a)
  {
    var p := NewPost(newId, f, now).value;
    assert p.id == newId;
    assert CreateOutcome(posts, f, newId, now).posts == posts + [p];
    AppendThenGet(posts, p);
  }

  // ---------------------------------------------------------------------
  // GET /post/:id

  /** findById: 500 when the id does not cast, 200 with the post or with
      null. */
  function GetOutcome(posts: seq<Post>, id: Id): (r: (Reply, Option<Post>))
    ensures r.0 == ServerError <==> !ValidId(id)
    ensures r.0 != ServerError ==> r.0 == Ok
    ensures r.1.Some? <==> ValidId(id) && exists k | 0 <= k < |posts| :: posts[k].id == id
    ensures r.1.Some? ==> r.1.value in posts && r.1.value.id == id
  {
    if !ValidId(id) then (ServerError, None)
    else match Find(posts, id)
      case None => (Ok, None)
      case Some(i) => (Ok, Some(posts[i]))
  }

  // ---------------------------------------------------------------------
  // PUT /post/:id and DELETE /post/:id: the ownership guard

  /** The guard as written compares `post.userId`, a path the schema does
      not have (the author is stored under `user`), with the body's
      `userId`; `undefined === x` holds exactly when the body has no userId. */
  predicate OwnerCheckAsWritten(p: Post, claimed: Option<Id>) {
    claimed.None?
  }

  /** The guard the 403 messages describe: the body names the post's author. */
  predicate IsOwner(p: Post, claimed: Option<Id>) {
    claimed == Some(p.user)
  }

  /** The schema paths a `$set: req.body` can carry; paths outside the
      schema, `userId` among them, are dropped. */
  datatype PostPatch = PostPatch(
    user: Option<Id>,
    location: Option<string>,
    description: Option<string>,
    picturePath: Option<string>)

  function ApplyPatch(p: Post, patch: PostPatch): Post {
    p.(user := if patch.user.Some? then patch.user.value else p.user,
       location := if patch.location.Some? then patch.location else p.location,
       description := if patch.description.Some? then patch.description else p.description,
       picturePath := if patch.picturePath.Some? then patch.picturePath else p.picturePath)
  }

  /** The update handler for a given guard: the cast in findById (500), a
      missing post (`null.userId` throws, 500), the guard (403), the cast of
      `user` in `$set` (500), then the merge. */
  function UpdateWith(posts: seq<Post>, id: Id, claimed: Option<Id>, patch: PostPatch, asWritten: bool)
    : (r: PostsOutcome)
    ensures r.reply != Ok ==> r.posts == posts
    ensures |r.posts| == |posts|
    ensures !ValidId(id) || Find(posts, id).None? ==> r == PostsOutcome(ServerError, posts)
  {
    if !ValidId(id) then PostsOutcome(ServerError, posts)
    else match Find(posts, id)
      case None => PostsOutcome(ServerError, posts)
      case Some(i) =>
        var allowed := if asWritten then OwnerCheckAsWritten(posts[i], claimed)
                       else IsOwner(posts[i], claimed);
        if !allowed then PostsOutcome(NotPostOwner, posts)
        else if !CastsToId(patch.user) then PostsOutcome(ServerError, posts)
        else PostsOutcome(Ok, posts[i := ApplyPatch(posts[i], patch)])
  }

  function UpdateOutcome(posts: seq<Post>, id: Id, claimed: Option<Id>, patch: PostPatch): (r: PostsOutcome)
    ensures r.reply != Ok ==> r.posts == posts
    ensures !ValidId(id) || Find(posts, id).None? ==> r == PostsOutcome(ServerError, posts)
    ensures ValidId(id) && Find(posts, id).Some?
            ==> (r == PostsOutcome(NotPostOwner, posts) <==> claimed.Some?)
    ensures ValidId(id) && Find(posts, id).Some? && claimed.None? && !CastsToId(patch.user)
            ==> r == PostsOutcome(ServerError, posts)
    ensures r.reply == Ok ==> ValidId(id) && Find(posts, id).Some? && claimed.None? && CastsToId(patch.user)
  {
    UpdateWith(posts, id, claimed, patch, true)
  }

  function IntendedUpdateOutcome(posts: seq<Post>, id: Id, claimed: Option<Id>, patch: PostPatch)
    : (r: PostsOutcome)
    ensures r.reply != Ok ==> r.posts == posts
    ensures !ValidId(id) || Find(posts, id).None? ==> r == PostsOutcome(ServerError, posts)
    ensures ValidId(id) && Find(posts, id).Some? && IsOwner(posts[Find(posts, id).value], claimed)
            && !CastsToId(patch.user)
            ==> r == PostsOutcome(ServerError, posts)
    ensures r.reply == Ok ==> CastsToId(patch.user)
  {
    UpdateWith(posts, id, claimed, patch, false)
  }

  /** As written, the guard ignores who owns the post: a body without
      `userId` updates anyone's post, merging the supplied fields into that
      post alone, and the author naming themselves is refused with 403. */
  lemma UpdateAsWrittenIgnoresOwner(posts: seq<Post>, i: nat, patch: PostPatch)
    requires WellFormed(posts) && i < |posts| && CastsToId(patch.user)
    ensures UpdateOutcome(posts, posts[i].id, None, patch).reply == Ok
    ensures UpdateOutcome(posts, posts[i].id, None, patch).posts == posts[i := ApplyPatch(posts[i], patch)]
    ensures UpdateOutcome(posts, posts[i].id, Some(posts[i].user), patch)
            == PostsOutcome(NotPostOwner, posts)
  {
    FindIndex(posts, i);
  }

  /** With the intended guard, a post changes only at its author's request,
      and then only in the supplied fields; a non-author gets 403 and no
      change. */
  lemma IntendedUpdateOnlyOwner(posts: seq<Post>, id: Id, claimed: Option<Id>, patch: PostPatch)
    ensures var r := IntendedUpdateOutcome(posts, id, claimed, patch);
      r.reply == Ok ==>
        var i := Find(posts, id).value;
        && Find(posts, id).Some?
        && claimed == Some(posts[i].user)
        && r.posts == posts[i := ApplyPatch(posts[i], patch)]
        && r.posts[i].id == id && r.posts[i].likes == posts[i].likes
        && r.posts[i].comments == posts[i].comments
    ensures ValidId(id) && Find(posts, id).Some? && claimed != Some(posts[Find(posts, id).value].user)
            ==> IntendedUpdateOutcome(posts, id, claimed, patch) == PostsOutcome(NotPostOwner, posts)
    ensures ValidId(id) && Find(posts, id).Some? && CastsToId(patch.user)
            ==> (IntendedUpdateOutcome(posts, id, claimed, patch).reply == Ok
                 <==> claimed == Some(posts[Find(posts, id).value].user))
  {
  }

  /** The delete handler as written: the same casts and guard, then 200 or
      403, and no branch removes anything. */
  function DeleteOutcome(posts: seq<Post>, id: Id, claimed: Option<Id>): (r: PostsOutcome)
    ensures r.posts == posts
    ensures !ValidId(id) || Find(posts, id).None? ==> r.reply == ServerError
    ensures ValidId(id) && Find(posts, id).Some? ==> (r.reply == Ok <==> claimed.None?)
    ensures ValidId(id) && Find(posts, id).Some? && claimed.Some? ==> r.reply == NotPostOwner
  {
    if !ValidId(id) then PostsOutcome(ServerError, posts)
    else match Find(posts, id)
      case None => PostsOutcome(ServerError, posts)
      case Some(i) =>
        if OwnerCheckAsWritten(posts[i], claimed) then PostsOutcome(Ok, posts)
        else PostsOutcome(NotPostOwner, posts)
  }

  /** The delete handler as its success message describes it: the author's
      request removes the post. */
  function IntendedDeleteOutcome(posts: seq<Post>, id: Id, claimed: Option<Id>): (r: PostsOutcome)
    ensures r.reply != Ok ==> r.posts == posts
    ensures !ValidId(id) || Find(posts, id).None? ==> r == PostsOutcome(ServerError, posts)
    ensures ValidId(id) && Find(posts, id).Some? && !IsOwner(posts[Find(posts, id).value], claimed)
            ==> r == PostsOutcome(NotPostOwner, posts)
  {
    if !ValidId(id) then PostsOutcome(ServerError, posts)
    else match Find(posts, id)
      case None => PostsOutcome(ServerError, posts)
      case Some(i) =>
        if IsOwner(posts[i], claimed) then PostsOutcome(Ok, posts[..i] + posts[i + 1..])
        else PostsOutcome(NotPostOwner, posts)
  }

  /** As written, "The post has been deleted" is answered and the post can
      still be fetched. */
  lemma DeleteAsWrittenKeepsPost(posts: seq<Post>, id: Id, claimed: Option<Id>)
    requires DeleteOutcome(posts, id, claimed).reply == Ok
    ensures claimed.None?
    ensures GetOutcome(DeleteOutcome(posts, id, claimed).posts, id).1.Some?
  {
    var k := Find(posts, id).value;
    assert posts[k].id == id;
  }

  /** The intended delete removes exactly the author's post: it can no longer
      be fetched, and the other posts stay, in order. */
  lemma IntendedDeleteRemoves(posts: seq<Post>, id: Id, claimed: Option<Id>)
    requires WellFormed(posts)
    ensures var r := IntendedDeleteOutcome(posts, id, claimed);
      r.reply == Ok ==>
        var i := Find(posts, id).value;
        && Find(posts, id).Some? && claimed == Some(posts[i].user)
        && WellFormed(r.posts)
        && |r.posts| == |posts| - 1
        && GetOutcome(r.posts, id) == (Ok, None)
        && (forall k | 0 <= k < i :: r.posts[k] == posts[k])
        && (forall k | i < k < |posts| :: r.posts[k - 1] == posts[k])
    ensures ValidId(id) && Find(posts, id).Some? ==>
      (IntendedDeleteOutcome(posts, id, claimed).reply == Ok <==> claimed == Some(posts[Find(posts, id).value].user))
  {
    var r := IntendedDeleteOutcome(posts, id, claimed);
    if r.reply == Ok {
      RemoveAt(posts, Find(posts, id).value);
    }
  }

  // ---------------------------------------------------------------------
  // PUT /post/:id/like

  /** `likes.includes(userId)` then `$push` or `$pull`. */
  function ToggleLike(likes: seq<Id>, liker: Id): (r: seq<Id>)
    ensures liker in r <==> liker !in likes
    ensures forall y | y != liker :: multiset(r)[y] == multiset(likes)[y]
    ensures liker !in likes ==> |r| == |likes| + 1 && r[..|likes|] == likes && multiset(r)[liker] == 1
  {
    if liker !in likes then likes + [liker] else Without(likes, liker)
  }

  /** Liking and unliking an id that was not there gives the list back
      exactly. */
  lemma ToggleTwiceFromAbsent(likes: seq<Id>, liker: Id)
    requires liker !in likes
    ensures ToggleLike(ToggleLike(likes, liker), liker) == likes
  {
    WithoutAppended(likes, liker);
  }

  /** In a list without duplicates each element occurs once. */
  lemma {:induction false} OccursOnce(s: seq<Id>, i: nat)
    requires NoDuplicates(s) && i < |s|
    ensures multiset(s)[s[i]] == 1
  {
    assert s == [s[0]] + s[1..];
    assert NoDuplicates(s[1..]) by {
      forall a, b | 0 <= a < b < |s[1..]| ensures s[1..][a] != s[1..][b] {
        assert s[1..][a] == s[a + 1] && s[1..][b] == s[b + 1];
      }
    }
    if i == 0 {
      assert s[0] !in s[1..] by {
        forall k | 0 <= k < |s[1..]| ensures s[1..][k] != s[0] {
          assert s[1..][k] == s[k + 1];
        }
      }
    } else {
      assert s[i] == s[1..][i - 1];
      assert s[i] != s[0];
      OccursOnce(s[1..], i - 1);
    }
  }

  /** Filtering out an element that occurred once and appending it keeps
      the multiset. */
  lemma PutBackLast(s: seq<Id>, x: Id)
    requires multiset(s)[x] == 1
    ensures multiset(Without(s, x) + [x]) == multiset(s)
  {
    var m := multiset(s);
    assert multiset(Without(s, x) + [x]) == m[x := 0] + multiset{x};
    assert m[x := 0] + multiset{x} == m;
  }

  /** Unliking and liking again an id that was there once, in a list without
      duplicates, gives back the same likes, with that id moved last. */
  lemma ToggleTwiceFromPresent(likes: seq<Id>, liker: Id)
    requires liker in likes && NoDuplicates(likes)
    ensures ToggleLike(ToggleLike(likes, liker), liker) == Without(likes, liker) + [liker]
    ensures multiset(ToggleLike(ToggleLike(likes, liker), liker)) == multiset(likes)
  {
    var i :| 0 <= i < |likes| && likes[i] == liker;
    OccursOnce(likes, i);
    var w := Without(likes, liker);
    assert ToggleLike(likes, liker) == w;
    assert ToggleLike(w, liker) == w + [liker];
    PutBackLast(likes, liker);
  }

  /** The restoration is up to order only: the id moves to the end. */
  lemma ToggleTwiceReorders()
    ensures ToggleLike(ToggleLike(["a", "b"], "a"), "a") == ["b", "a"]
  {
    assert "a" != "b" by {
      assert "a"[0] != "b"[0];
    }
    assert Without(["a", "b"], "a") == ["b"] by {
      assert ["a", "b"][1..] == ["b"];
      assert ["b"][1..] == [];
    }
  }

  /** The like handler: the cast in findById (500), a missing post (500),
      then the toggle; `liked` says which of the two 200 messages is sent. */
  function LikeOutcome(posts: seq<Post>, id: Id, liker: Id): (r: PostsOutcome)
    ensures r.reply != Ok ==> r.reply == ServerError && r.posts == posts
    ensures r.reply == Ok <==> ValidId(id) && Find(posts, id).Some?
    ensures |r.posts| == |posts|
  {
    if !ValidId(id) then PostsOutcome(ServerError, posts)
    else match Find(posts, id)
      case None => PostsOutcome(ServerError, posts)
      case Some(i) => PostsOutcome(Ok, posts[i := posts[i].(likes := ToggleLike(posts[i].likes, liker))])
  }

  /** A successful like toggles the liker in that post's `likes` and
      changes no other field and no other post. */
  lemma LikeEffect(posts: seq<Post>, id: Id, liker: Id)
    requires LikeOutcome(posts, id, liker).reply == Ok
    ensures var r := LikeOutcome(posts, id, liker);
      var i := Find(posts, id).value;
      && r.posts[i].likes == ToggleLike(posts[i].likes, liker)
      && r.posts[i] == posts[i].(likes := r.posts[i].likes)
      && forall k | 0 <= k < |posts| && k != i :: r.posts[k] == posts[k]
  {
  }

  /** Two likes by the same user on a post they had not liked leave the
      collection as it was. */
  lemma LikeTwice(posts: seq<Post>, id: Id, liker: Id)
    requires LikeOutcome(posts, id, liker).reply == Ok
    requires liker !in posts[Find(posts, id).value].likes
    ensures LikeOutcome(LikeOutcome(posts, id, liker).posts, id, liker) == PostsOutcome(Ok, posts)
  {
    var i := Find(posts, id).value;
    var p := posts[i];
    var p1 := p.(likes := ToggleLike(p.likes, liker));
    var once := posts[i := p1];
    assert LikeOutcome(posts, id, liker).posts == once;
    FindSameIds(posts, i, p1, id);
    ToggleTwiceFromAbsent(p.likes, liker);
    assert p1.(likes := ToggleLike(p1.likes, liker)) == p;
    assert once[i := p] == posts;
  }

  /** Replacing a post by one with the same id leaves every lookup alone. */
  lemma FindSameIds(posts: seq<Post>, i: nat, q: Post, id: Id)
    requires i < |posts| && q.id == posts[i].id
    ensures Find(posts[i := q], id) == Find(posts, id)
  {
    var after := posts[i := q];
    assert forall k | 0 <= k < |posts| :: after[k].id == posts[k].id;
  }

  // ---------------------------------------------------------------------
  // GET /post/timeline/all

  /** The posts of each followed user in turn, in `following` order. */
  function FollowedPosts(posts: seq<Post>, following: seq<Id>): (r: seq<Post>)
    ensures forall p | p in r :: p in posts && p.user in following
  {
    if following == [] then []
    else PostsBy(posts, following[0]) + FollowedPosts(posts, following[1..])
  }

  /** Each followed user's posts form one block, blocks in list order. */
  lemma {:induction false} FollowedPostsConcat(posts: seq<Post>, a: seq<Id>, b: seq<Id>)
    ensures FollowedPosts(posts, a + b) == FollowedPosts(posts, a) + FollowedPosts(posts, b)
  {
    if a != [] {
      assert (a + b)[0] == a[0];
      assert (a + b)[1..] == a[1..] + b;
      FollowedPostsConcat(posts, a[1..], b);
    } else {
      assert a + b == b;
    }
  }

  /** Every post of every followed user is in the list. */
  lemma {:induction false} FollowedPostsComplete(posts: seq<Post>, following: seq<Id>, p: Post)
    requires p in posts && p.user in following
    ensures p in FollowedPosts(posts, following)
  {
    if following[0] != p.user {
      FollowedPostsComplete(posts, following[1..], p);
    }
  }

  /** The timeline handler: the user named in the body (absent, not castable
      or unknown: 500), then their own posts followed by the posts of each
      user they follow. Each per-friend query casts the followed id, and one
      that does not cast rejects the whole `Promise.all` (500). */
  function Timeline(users: map<Id, User>, posts: seq<Post>, userId: Option<Id>): (r: (Reply, seq<Post>))
    ensures r.0 == Ok <==> userId.Some? && ValidId(userId.value) && userId.value in users
                           && forall f | f in users[userId.value].following :: ValidId(f)
    ensures r.0 != Ok ==> r.0 == ServerError && r.1 == []
  {
    if userId.None? || !ValidId(userId.value) || userId.value !in users then (ServerError, [])
    else
      var currentUser := users[userId.value];
      if exists f | f in currentUser.following :: !ValidId(f) then (ServerError, [])
      else (Ok, PostsBy(posts, userId.value) + FollowedPosts(posts, currentUser.following))
  }

  /** A successful timeline holds exactly the posts by the user or by
      someone they follow, the user's own first. */
  lemma TimelineContents(users: map<Id, User>, posts: seq<Post>, u: Id)
    ensures var t := Timeline(users, posts, Some(u));
      t.0 == Ok ==>
        && t.1[..|PostsBy(posts, u)|] == PostsBy(posts, u)
        && forall p | p in posts :: p in t.1 <==> p.user == u || p.user in users[u].following
  {
    var t := Timeline(users, posts, Some(u));
    if t.0 == Ok {
      forall p | p in posts && p.user in users[u].following
        ensures p in t.1
      {
        FollowedPostsComplete(posts, users[u].following, p);
      }
    }
  }

  /** Following nobody, the timeline is exactly the user's own posts. */
  lemma TimelineWithoutFollowing(users: map<Id, User>, posts: seq<Post>, u: Id)
    requires ValidId(u) && u in users && users[u].following == []
    ensures Timeline(users, posts, Some(u)) == (Ok, PostsBy(posts, u))
  {
    assert PostsBy(posts, u) + [] == PostsBy(posts, u);
  }

  /** A successful follow keeps the caller's timeline answering as before
      (the followed id casts), and a successful timeline gains the followed
      user's posts as one block at its end. */
  lemma TimelineAfterFollow(users: map<Id, User>, posts: seq<Post>, caller: Id, target: Id)
    requires UserRoutes.FollowOutcome(users, caller, target).reply == Ok
    ensures var after := UserRoutes.FollowOutcome(users, caller, target).users;
      Timeline(after, posts, Some(caller)).0 == Timeline(users, posts, Some(caller)).0
    ensures var after := UserRoutes.FollowOutcome(users, caller, target).users;
      Timeline(users, posts, Some(caller)).0 == Ok ==>
        Timeline(after, posts, Some(caller)).1
          == Timeline(users, posts, Some(caller)).1 + PostsBy(posts, target)
  {
    var after := UserRoutes.FollowOutcome(users, caller, target).users;
    UserRoutes.FollowEffect(users, caller, target);
    TimelineAppendFollowing(users, after, posts, caller, target);
  }

  /** Appending one castable id to a user's `following` keeps whether the
      timeline answers 200, and appends that user's posts to it. */
  lemma TimelineAppendFollowing(users: map<Id, User>, after: map<Id, User>, posts: seq<Post>, u: Id, target: Id)
    requires u in users && u in after && ValidId(target)
    requires after[u].following == users[u].following + [target]
    ensures Timeline(after, posts, Some(u)).0 == Timeline(users, posts, Some(u)).0
    ensures Timeline(users, posts, Some(u)).0 == Ok ==>
      Timeline(after, posts, Some(u)).1 == Timeline(users, posts, Some(u)).1 + PostsBy(posts, target)
  {
    CastsAppend(users[u].following, target);
    if Timeline(users, posts, Some(u)).0 == Ok {
      TimelineAppendedPosts(posts, u, users[u].following, target);
    }
  }

  /** The posts part of `TimelineAppendFollowing`: own posts, then the old
      blocks, then the new one. */
  lemma TimelineAppendedPosts(posts: seq<Post>, u: Id, before: seq<Id>, target: Id)
    ensures PostsBy(posts, u) + FollowedPosts(posts, before + [target])
            == (PostsBy(posts, u) + FollowedPosts(posts, before)) + PostsBy(posts, target)
  {
    FollowedPostsConcat(posts, before, [target]);
    FollowedSingle(posts, target);
  }

  /** An appended id that casts leaves "every id casts" as it was. */
  lemma CastsAppend(ids: seq<Id>, t: Id)
    requires ValidId(t)
    ensures (forall f | f in ids + [t] :: ValidId(f)) <==> (forall f | f in ids :: ValidId(f))
  {
    assert forall f | f in ids + [t] :: f in ids || f == t;
    assert forall f | f in ids :: f in ids + [t];
  }

  /** Following one user gives exactly that user's posts. */
  lemma FollowedSingle(posts: seq<Post>, t: Id)
    ensures FollowedPosts(posts, [t]) == PostsBy(posts, t)
  {
    assert [t][1..] == [];
    assert PostsBy(posts, t) + [] == PostsBy(posts, t);
  }

  // ---------------------------------------------------------------------
  // The collection and its handlers

  class PostStore {
    var posts: seq<Post>

    ghost predicate Valid()
      reads this
    {
      WellFormed(posts)
    }

    constructor(initial: seq<Post>)
      requires WellFormed(initial)
      ensures Valid() && posts == initial
    {
      posts := initial;
    }

    /** POST /post/create; `newId` is the ObjectId Mongoose generates and
      `now` the creation time. */
    method Create(f: PostFields, newId: Id, now: int) returns (reply: Reply, saved: Option<Post>)
      requires Valid() && ValidId(newId) && Find(posts, newId).None?
      modifies this
      ensures Valid()
      ensures PostsOutcome(reply, posts) == CreateOutcome(old(posts), f, newId, now)
      ensures reply == Ok ==> saved == Some(posts[|posts| - 1])
      ensures reply != Ok ==> saved == None
    {
      var newPost := NewPost(newId, f, now);
      if newPost.Failure? {
        return ServerError, None;
      }
      posts := posts + [newPost.value];
      reply, saved := Ok, Some(newPost.value);
    }

    /** PUT /post/:id, with its guard as written. */
    method Update(id: Id, claimed: Option<Id>, patch: PostPatch) returns (reply: Reply)
      requires Valid()
      modifies this
      ensures Valid()
      ensures PostsOutcome(reply, posts) == UpdateOutcome(old(posts), id, claimed, patch)
    {
      if !ValidId(id) {
        return ServerError;
      }
      var found := Find(posts, id);
      if found.None? {
        return ServerError;
      }
      var i := found.value;
      if !OwnerCheckAsWritten(posts[i], claimed) {
        return NotPostOwner;
      }
      if !CastsToId(patch.user) {
        return ServerError;
      }
      posts := posts[i := ApplyPatch(posts[i], patch)];
      reply := Ok;
    }

    /** DELETE /post/:id, as written: it answers and removes nothing. */
    method Delete(id: Id, claimed: Option<Id>) returns (reply: Reply)
      requires Valid()
      ensures PostsOutcome(reply, posts) == DeleteOutcome(posts, id, claimed)
    {
      if !ValidId(id) {
        return ServerError;
      }
      var found := Find(posts, id);
      if found.None? {
        return ServerError;
      }
      if OwnerCheckAsWritten(posts[found.value], claimed) {
        reply := Ok;
      } else {
        reply := NotPostOwner;
      }
    }

    /** PUT /post/:id/like; `liked` is true for "You liked the post!" and
      false for "You disliked the post!". */
    method Like(id: Id, liker: Id) returns (reply: Reply, liked: bool)
      requires Valid()
      modifies this
      ensures Valid()
      ensures PostsOutcome(reply, posts) == LikeOutcome(old(posts), id, liker)
      ensures reply == Ok ==> liked == (liker !in old(posts)[Find(old(posts), id).value].likes)
    {
      liked := false;
      if !ValidId(id) {
        return ServerError, liked;
      }
      var found := Find(posts, id);
      if found.None? {
        return ServerError, liked;
      }
      var i := found.value;
      var post := posts[i];
      if liker !in post.likes {
        post := post.(likes := post.likes + [liker]);
        liked := true;
      } else {
        post := post.(likes := Without(post.likes, liker));
      }
      posts := posts[i := post];
      reply := Ok;
    }

    /** GET /post/:id */
    method Get(id: Id) returns (reply: Reply, post: Option<Post>)
      ensures (reply, post) == GetOutcome(posts, id)
    {
      if !ValidId(id) {
        return ServerError, None;
      }
      var found := Find(posts, id);
      if found.None? {
        return Ok, None;
      }
      reply, post := Ok, Some(posts[found.value]);
    }
  }
}
