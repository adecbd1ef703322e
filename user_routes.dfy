/** The user routes (server/routes/user.routes.js): follow, unfollow, delete,
    profile update, online status and the read handlers. Each handler is one
    atomic method of UserStore, the users collection; the caller identity
    (`req.auth._id`) and the request fields are plain inputs. What each
    handler does is stated once, as a function of the collection before the
    call, and the lemmas below are about those functions. */
module UserRoutes {
  import opened Common
  import opened UserModel
  import opened PostModel

  /** The URL the update handler stores when a picture file was uploaded. */
  const ProfilePicUrl: string := "https://api.cloudinary.com/v1_1/dl7j7kjhq/upload"

  /** bcrypt.hash(password, salt) after bcrypt.genSalt(10). The hashing
      service is outside the model; this stand-in keeps the one property
      the handler relies on: what is stored is not the plaintext. */
  function Hash(salt: string, password: string): (h: string)
    ensures h != password
    ensures |h| >= 7 && h[..7] == "$2b$10$"
  {
    "$2b$10$" + salt + password
  }

  /** A handler's reply together with the collection it leaves behind. */
  datatype UsersOutcome = UsersOutcome(reply: Reply, users: map<Id, User>)

  /** The collection's own invariant: documents are filed under their own
      valid id, and the unique indexes hold. */
  predicate WellFormed(users: map<Id, User>) {
    (forall k | k in users :: ValidId(k) && users[k].id == k) && UniqueKeys(users)
  }

  /** The follow graph is two-sided: b is in a's `following` exactly when a
      is in b's `followers` (for users that both exist). */
  ghost predicate Consistent(users: map<Id, User>) {
    forall a, b | a in users && b in users ::
      b in users[a].following <==> a in users[b].followers
  }

  /** Nobody follows or is followed by themselves. */
  ghost predicate NoSelfEdges(users: map<Id, User>) {
    forall a | a in users :: a !in users[a].following && a !in users[a].followers
  }

  /** Replacing one document by one with the same id, email and user name
      keeps the collection well formed. */
  lemma ReplaceKeepsWellFormed(users: map<Id, User>, k: Id, u: User)
    requires WellFormed(users) && k in users
    requires u.id == k && u.email == users[k].email && u.userName == users[k].userName
    ensures WellFormed(users[k := u])
  {
  }

  // ---------------------------------------------------------------------
  // PUT /user/:id/follow

  /** Both pushes of a successful follow. */
  function Followed(users: map<Id, User>, caller: Id, target: Id): map<Id, User>
    requires caller in users && target in users && caller != target
  {
    var user := users[caller];
    var userToFollow := users[target];
    users[caller := user.(following := user.following + [target])]
         [target := userToFollow.(followers := userToFollow.followers + [caller])]
  }

  /** The caller's push alone: what `user.save()` has written when the
      target's `save()` then fails. */
  function FollowPushed(users: map<Id, User>, caller: Id, target: Id): map<Id, User>
    requires caller in users
  {
    users[caller := users[caller].(following := users[caller].following + [target])]
  }

  /** The follow handler: id validity (400), self-follow (400), the cast in
      findById (500), both users present (404), not yet following (400),
      then the two saves in turn. `save()` re-validates the required paths
      of the whole document, which an earlier update may have left empty:
      a caller that fails them answers 500 with nothing written, a target
      that fails them answers 500 after the caller's push was written. */
  function FollowOutcome(users: map<Id, User>, caller: Id, target: Id): (r: UsersOutcome)
    ensures r.reply != Ok ==> r.users == users
                              || (r.reply == ServerError && caller in users
                                  && r.users == FollowPushed(users, caller, target))
    ensures r.reply == Ok ==> caller != target && caller in users && target in users
                              && Saveable(users[caller]) && Saveable(users[target])
    ensures ValidId(target) && ValidId(caller) && caller != target
            && caller in users && target in users && target !in users[caller].following
            && !Saveable(users[caller])
            ==> r == UsersOutcome(ServerError, users)
  {
    if !ValidId(target) then UsersOutcome(InvalidUserId, users)
    else if caller == target then UsersOutcome(SelfReference, users)
    else if !ValidId(caller) then UsersOutcome(ServerError, users)
    else if caller !in users || target !in users then UsersOutcome(UserNotFound, users)
    else if target in users[caller].following then UsersOutcome(AlreadyFollowing, users)
    else if !Saveable(users[caller]) then UsersOutcome(ServerError, users)
    else if !Saveable(users[target]) then UsersOutcome(ServerError, FollowPushed(users, caller, target))
    else UsersOutcome(Ok, Followed(users, caller, target))
  }

  /** The guards decide in order: an invalid id is refused before a
      self-follow, a self-follow before any lookup, a missing user before
      the duplicate check, the duplicate check before either save; a
      failing second save leaves the first one written. */
  lemma FollowGuardOrder(users: map<Id, User>, caller: Id, target: Id)
    ensures !ValidId(target) ==> FollowOutcome(users, caller, target).reply == InvalidUserId
    ensures ValidId(target) && caller == target
            ==> FollowOutcome(users, caller, target).reply == SelfReference
    ensures ValidId(target) && caller != target && !ValidId(caller)
            ==> FollowOutcome(users, caller, target) == UsersOutcome(ServerError, users)
    ensures ValidId(target) && ValidId(caller) && caller != target
            && (caller !in users || target !in users)
            ==> FollowOutcome(users, caller, target).reply == UserNotFound
    ensures FollowOutcome(users, caller, target).reply == AlreadyFollowing
            <==> ValidId(target) && ValidId(caller) && caller != target
                 && caller in users && target in users && target in users[caller].following
    ensures FollowOutcome(users, caller, target).reply == Ok
            <==> ValidId(target) && ValidId(caller) && caller != target
                 && caller in users && target in users && target !in users[caller].following
                 && Saveable(users[caller]) && Saveable(users[target])
    ensures ValidId(target) && ValidId(caller) && caller != target
            && caller in users && target in users && target !in users[caller].following
            && !Saveable(users[caller])
            ==> FollowOutcome(users, caller, target) == UsersOutcome(ServerError, users)
    ensures ValidId(target) && ValidId(caller) && caller != target
            && caller in users && target in users && target !in users[caller].following
            && Saveable(users[caller]) && !Saveable(users[target])
            ==> FollowOutcome(users, caller, target)
                == UsersOutcome(ServerError, FollowPushed(users, caller, target))
    ensures FollowOutcome(users, caller, target).users == users
            <==> FollowOutcome(users, caller, target).reply != Ok
                 && !(ValidId(target) && ValidId(caller) && caller != target
                      && caller in users && target in users && target !in users[caller].following
                      && Saveable(users[caller]))
    ensures StatusCode(FollowOutcome(users, caller, target).reply) in {200, 400, 404, 500}
  {
    if ValidId(target) && ValidId(caller) && caller != target && caller in users && target in users
       && target !in users[caller].following && Saveable(users[caller])
    {
      var after := FollowOutcome(users, caller, target).users;
      assert target in after[caller].following;
    }
  }

  /** A successful follow appends the target to the end of the caller's
      `following` and the caller to the end of the target's `followers`;
      no other field and no other user changes. */
  lemma FollowEffect(users: map<Id, User>, caller: Id, target: Id)
    requires FollowOutcome(users, caller, target).reply == Ok
    ensures var after := FollowOutcome(users, caller, target).users;
      && after.Keys == users.Keys
      && after[caller] == users[caller].(following := users[caller].following + [target])
      && after[target] == users[target].(followers := users[target].followers + [caller])
      && forall k | k in users && k != caller && k != target :: after[k] == users[k]
  {
  }

  /** Following the same user again is refused with 400 and changes
      nothing, so two calls leave what the first one left. */
  lemma FollowTwice(users: map<Id, User>, caller: Id, target: Id)
    requires FollowOutcome(users, caller, target).reply == Ok
    ensures var once := FollowOutcome(users, caller, target).users;
      FollowOutcome(once, caller, target) == UsersOutcome(AlreadyFollowing, once)
  {
    var once := FollowOutcome(users, caller, target).users;
    assert target in once[caller].following;
  }

  /** Self-follow is always refused, whatever the collection holds. */
  lemma SelfFollowRefused(users: map<Id, User>, a: Id)
    ensures FollowOutcome(users, a, a).reply in {InvalidUserId, SelfReference}
    ensures FollowOutcome(users, a, a).users == users
  {
  }

  /** Follow never creates a self edge, and it keeps the graph two-sided
      exactly when it writes both documents or neither: the caller's push
      written alone leaves a one-sided edge. */
  lemma FollowPreservesGraph(users: map<Id, User>, caller: Id, target: Id)
    requires Consistent(users) && NoSelfEdges(users)
    ensures NoSelfEdges(FollowOutcome(users, caller, target).users)
    ensures var r := FollowOutcome(users, caller, target);
      Consistent(r.users) <==> r.reply == Ok || r.users == users
  {
    var r := FollowOutcome(users, caller, target);
    if r.reply == Ok {
      var after := r.users;
      assert caller !in users[target].followers;
      forall a, b | a in after && b in after
        ensures b in after[a].following <==> a in after[b].followers
      {
        var fa := users[a].following + (if a == caller then [target] else []);
        var fb := users[b].followers + (if b == target then [caller] else []);
        assert after[a].following == fa;
        assert after[b].followers == fb;
        assert b in users[a].following <==> a in users[b].followers;
      }
      forall a | a in after
        ensures a !in after[a].following && a !in after[a].followers
      {
        assert a !in users[a].following && a !in users[a].followers;
      }
    } else if r.users != users {
      var after := r.users;
      assert after == FollowPushed(users, caller, target);
      assert caller != target && target in users;
      assert caller !in users[target].followers;
      assert target in after[caller].following && caller !in after[target].followers;
      forall a | a in after
        ensures a !in after[a].following && a !in after[a].followers
      {
        assert a !in users[a].following && a !in users[a].followers;
      }
    }
  }

  // ---------------------------------------------------------------------
  // POST /user/:id/unfollow

  /** Both filters of a successful unfollow: every occurrence of the target
      leaves the caller's `following` and every occurrence of the caller
      leaves the target's `followers`. (As written the filter callbacks call
      `id.toStrng()`, a typo that throws on any non-empty array and makes the
      handler answer 500; this is the evident `toString()` comparison.) */
  function Unfollowed(users: map<Id, User>, caller: Id, target: Id): map<Id, User>
    requires caller in users && target in users && caller != target
  {
    var user := users[caller];
    var userToUnfollow := users[target];
    users[caller := user.(following := Without(user.following, target))]
         [target := userToUnfollow.(followers := Without(userToUnfollow.followers, caller))]
  }

  /** The caller's filter alone: what `user.save()` has written when the
      target's `save()` then fails. */
  function UnfollowPulled(users: map<Id, User>, caller: Id, target: Id): map<Id, User>
    requires caller in users
  {
    users[caller := users[caller].(following := Without(users[caller].following, target))]
  }

  /** The unfollow handler as written: self (400), the casts in findById
      (500), both users present (404), and then a guard that refuses with
      "You are not following this user" exactly when the caller DOES follow
      the target. There is no id validity check before the lookups. The two
      saves then re-validate as in follow. */
  function UnfollowOutcome(users: map<Id, User>, caller: Id, target: Id): (r: UsersOutcome)
    ensures r.reply != Ok ==> r.users == users
                              || (r.reply == ServerError && caller in users
                                  && r.users == UnfollowPulled(users, caller, target))
    ensures r.reply == Ok ==> caller != target && caller in users && target in users
                              && target !in users[caller].following
                              && Saveable(users[caller]) && Saveable(users[target])
                              && r.users == Unfollowed(users, caller, target)
    ensures caller != target && ValidId(caller) && ValidId(target)
            && caller in users && target in users && target !in users[caller].following
            ==> (r.reply == Ok <==> Saveable(users[caller]) && Saveable(users[target]))
    ensures caller != target && ValidId(caller) && ValidId(target)
            && caller in users && target in users && target !in users[caller].following
            && !Saveable(users[caller])
            ==> r == UsersOutcome(ServerError, users)
  {
    if caller == target then UsersOutcome(SelfReference, users)
    else if !ValidId(caller) || !ValidId(target) then UsersOutcome(ServerError, users)
    else if caller !in users || target !in users then UsersOutcome(UserNotFound, users)
    else if target in users[caller].following then UsersOutcome(NotFollowing, users)
    else if !Saveable(users[caller]) then UsersOutcome(ServerError, users)
    else if !Saveable(users[target]) then UsersOutcome(ServerError, UnfollowPulled(users, caller, target))
    else UsersOutcome(Ok, Unfollowed(users, caller, target))
  }

  /** The unfollow handler with the guard its message describes: refuse
      when the caller does NOT follow the target. */
  function IntendedUnfollowOutcome(users: map<Id, User>, caller: Id, target: Id): (r: UsersOutcome)
    ensures r.reply != Ok ==> r.users == users
                              || (r.reply == ServerError && caller in users
                                  && r.users == UnfollowPulled(users, caller, target))
    ensures r.reply == Ok ==> caller != target && caller in users && target in users
                              && target in users[caller].following
                              && Saveable(users[caller]) && Saveable(users[target])
                              && r.users == Unfollowed(users, caller, target)
  {
    if caller == target then UsersOutcome(SelfReference, users)
    else if !ValidId(caller) || !ValidId(target) then UsersOutcome(ServerError, users)
    else if caller !in users || target !in users then UsersOutcome(UserNotFound, users)
    else if target !in users[caller].following then UsersOutcome(NotFollowing, users)
    else if !Saveable(users[caller]) then UsersOutcome(ServerError, users)
    else if !Saveable(users[target]) then UsersOutcome(ServerError, UnfollowPulled(users, caller, target))
    else UsersOutcome(Ok, Unfollowed(users, caller, target))
  }

  /** The unfollow guards decide in order: self (400) before any lookup, a
      cast failure (500) before a missing user (404), and the as-written
      guard refuses exactly the callers that do follow the target, while the
      intended one refuses exactly those that do not. */
  lemma UnfollowGuardOrder(users: map<Id, User>, caller: Id, target: Id)
    ensures caller == target ==> UnfollowOutcome(users, caller, target).reply == SelfReference
    ensures caller != target && (!ValidId(caller) || !ValidId(target))
            ==> UnfollowOutcome(users, caller, target).reply == ServerError
    ensures caller != target && ValidId(caller) && ValidId(target)
            && (caller !in users || target !in users)
            ==> UnfollowOutcome(users, caller, target).reply == UserNotFound
    ensures UnfollowOutcome(users, caller, target).reply == NotFollowing
            <==> caller != target && ValidId(caller) && ValidId(target)
                 && caller in users && target in users && target in users[caller].following
    ensures IntendedUnfollowOutcome(users, caller, target).reply == NotFollowing
            <==> caller != target && ValidId(caller) && ValidId(target)
                 && caller in users && target in users && target !in users[caller].following
    ensures UnfollowOutcome(users, caller, target).reply == Ok
            <==> caller != target && ValidId(caller) && ValidId(target)
                 && caller in users && target in users && target !in users[caller].following
                 && Saveable(users[caller]) && Saveable(users[target])
    ensures IntendedUnfollowOutcome(users, caller, target).reply == Ok
            <==> caller != target && ValidId(caller) && ValidId(target)
                 && caller in users && target in users && target in users[caller].following
                 && Saveable(users[caller]) && Saveable(users[target])
    ensures caller != target && ValidId(caller) && ValidId(target)
            && caller in users && target in users && target !in users[caller].following
            && !Saveable(users[caller])
            ==> UnfollowOutcome(users, caller, target) == UsersOutcome(ServerError, users)
    ensures caller != target && ValidId(caller) && ValidId(target)
            && caller in users && target in users && target in users[caller].following
            && !Saveable(users[caller])
            ==> IntendedUnfollowOutcome(users, caller, target) == UsersOutcome(ServerError, users)
    ensures caller != target && ValidId(caller) && ValidId(target)
            && caller in users && target in users && target !in users[caller].following
            && Saveable(users[caller]) && !Saveable(users[target])
            ==> UnfollowOutcome(users, caller, target)
                == UsersOutcome(ServerError, UnfollowPulled(users, caller, target))
    ensures caller != target && ValidId(caller) && ValidId(target)
            && caller in users && target in users && target in users[caller].following
            && Saveable(users[caller]) && !Saveable(users[target])
            ==> IntendedUnfollowOutcome(users, caller, target)
                == UsersOutcome(ServerError, UnfollowPulled(users, caller, target))
    ensures StatusCode(UnfollowOutcome(users, caller, target).reply) in {200, 400, 404, 500}
  {
  }

  /** The filters drop the two ids, keep the rest of both lists in order,
      and change no other field and no other user. */
  lemma UnfollowedEffect(users: map<Id, User>, caller: Id, target: Id)
    requires caller in users && target in users && caller != target
    ensures var after := Unfollowed(users, caller, target);
      && after.Keys == users.Keys
      && target !in after[caller].following && caller !in after[target].followers
      && multiset(after[caller].following) == multiset(users[caller].following)[target := 0]
      && multiset(after[target].followers) == multiset(users[target].followers)[caller := 0]
      && after[caller] == users[caller].(following := after[caller].following)
      && after[target] == users[target].(followers := after[target].followers)
      && forall k | k in users && k != caller && k != target :: after[k] == users[k]
  {
  }

  /** As written, unfollowing right after a successful follow is refused
      with "You are not following this user" and the follow stays. */
  lemma UnfollowAsWrittenRefusesFollower(users: map<Id, User>, caller: Id, target: Id)
    requires FollowOutcome(users, caller, target).reply == Ok
    ensures var once := FollowOutcome(users, caller, target).users;
      UnfollowOutcome(once, caller, target) == UsersOutcome(NotFollowing, once)
  {
    var once := FollowOutcome(users, caller, target).users;
    assert target in once[caller].following;
  }

  /** As written, on a two-sided graph unfollow never changes anything:
      it either refuses, or it filters ids that are not there. */
  lemma UnfollowAsWrittenChangesNothing(users: map<Id, User>, caller: Id, target: Id)
    requires Consistent(users)
    ensures UnfollowOutcome(users, caller, target).users == users
  {
    var r := UnfollowOutcome(users, caller, target);
    if r.reply == Ok {
      assert target !in users[caller].following;
      assert caller !in users[target].followers;
      assert r.users == users[caller := users[caller]][target := users[target]];
      UpdateSame(users, caller, target);
    }
  }

  /** Filtering out both ids that a follow appended gives both records back. */
  lemma UnfollowedUndoesFollowed(users: map<Id, User>, caller: Id, target: Id)
    requires caller in users && target in users && caller != target
    requires target !in users[caller].following && caller !in users[target].followers
    ensures Unfollowed(Followed(users, caller, target), caller, target) == users
  {
    var u, w := users[caller], users[target];
    var u1 := u.(following := u.following + [target]);
    var w1 := w.(followers := w.followers + [caller]);
    var once := users[caller := u1][target := w1];
    PushThenPull(u, w, caller, target);
    calc {
      Unfollowed(once, caller, target);
      once[caller := u][target := w];
      { UpdateTwice(users, caller, target, u1, w1, u, w); }
      users[caller := u][target := w];
      { UpdateSame(users, caller, target); }
      users;
    }
  }

  /** Writing the same two keys twice keeps the second writes. */
  lemma UpdateTwice(m: map<Id, User>, a: Id, b: Id, x1: User, y1: User, x2: User, y2: User)
    requires a != b
    ensures m[a := x1][b := y1][a := x2][b := y2] == m[a := x2][b := y2]
  {
  }

  /** Writing back what two keys already hold changes nothing. */
  lemma UpdateSame(m: map<Id, User>, a: Id, b: Id)
    requires a in m && b in m
    ensures m[a := m[a]][b := m[b]] == m
  {
  }

  /** The record-level half of the round trip. */
  lemma PushThenPull(u: User, w: User, caller: Id, target: Id)
    requires target !in u.following && caller !in w.followers
    ensures var u1 := u.(following := u.following + [target]);
      u1.(following := Without(u1.following, target)) == u
    ensures var w1 := w.(followers := w.followers + [caller]);
      w1.(followers := Without(w1.followers, caller)) == w
  {
    WithoutAppended(u.following, target);
    WithoutAppended(w.followers, caller);
  }

  /** With the intended guard, unfollow undoes follow exactly. */
  lemma FollowThenUnfollowRestores(users: map<Id, User>, caller: Id, target: Id)
    requires Consistent(users)
    requires FollowOutcome(users, caller, target).reply == Ok
    ensures var once := FollowOutcome(users, caller, target).users;
      IntendedUnfollowOutcome(once, caller, target) == UsersOutcome(Ok, users)
  {
    assert target !in users[caller].following;
    assert caller !in users[target].followers;
    UnfollowedUndoesFollowed(users, caller, target);
  }

  /** Unfollow, as written or as intended, keeps the graph two-sided and free
      of self edges. */
  lemma UnfollowedPreservesGraph(users: map<Id, User>, caller: Id, target: Id)
    requires caller in users && target in users && caller != target
    requires Consistent(users) && NoSelfEdges(users)
    ensures Consistent(Unfollowed(users, caller, target))
    ensures NoSelfEdges(Unfollowed(users, caller, target))
  {
    var after := Unfollowed(users, caller, target);
    forall a, b | a in after && b in after
      ensures b in after[a].following <==> a in after[b].followers
    {
      assert b in users[a].following <==> a in users[b].followers;
      if a == caller && b == target {
        assert b !in after[a].following && a !in after[b].followers;
      }
    }
  }

  /** With the intended guard, unfollow never creates a self edge, and it
      keeps the graph two-sided exactly when it writes both documents or
      neither: the caller's filter written alone leaves the caller in the
      target's `followers`. */
  lemma IntendedUnfollowPreservesGraph(users: map<Id, User>, caller: Id, target: Id)
    requires Consistent(users) && NoSelfEdges(users)
    ensures NoSelfEdges(IntendedUnfollowOutcome(users, caller, target).users)
    ensures var r := IntendedUnfollowOutcome(users, caller, target);
      Consistent(r.users) <==> r.reply == Ok || r.users == users
  {
    var r := IntendedUnfollowOutcome(users, caller, target);
    if r.reply == Ok {
      UnfollowedPreservesGraph(users, caller, target);
    } else if r.users != users {
      var after := r.users;
      assert after == UnfollowPulled(users, caller, target);
      assert caller != target && target in users && target in users[caller].following;
      assert caller in users[target].followers;
      assert target !in after[caller].following && caller in after[target].followers;
      forall a | a in after
        ensures a !in after[a].following && a !in after[a].followers
      {
        assert a !in users[a].following && a !in users[a].followers;
      }
    }
  }

  /** While every stored document passes the schema's required checks, a
      follow or unfollow writes both documents or neither. */
  lemma SaveableUsersWriteBothOrNeither(users: map<Id, User>, caller: Id, target: Id)
    requires forall k | k in users :: Saveable(users[k])
    ensures FollowOutcome(users, caller, target).reply != Ok
            ==> FollowOutcome(users, caller, target).users == users
    ensures UnfollowOutcome(users, caller, target).reply != Ok
            ==> UnfollowOutcome(users, caller, target).users == users
    ensures IntendedUnfollowOutcome(users, caller, target).reply != Ok
            ==> IntendedUnfollowOutcome(users, caller, target).users == users
  {
  }

  // ---------------------------------------------------------------------
  // DELETE /user/:id/delete

  /** The delete handler: the cast in findById (500), the user present
      (404), the requester is that user (401), then the one document is
      removed. Other users' `followers` and `following` are not touched. */
  function DeleteOutcome(users: map<Id, User>, caller: Id, id: Id): (r: UsersOutcome)
    ensures r.reply != Ok ==> r.users == users
  {
    if !ValidId(id) then UsersOutcome(ServerError, users)
    else if id !in users then UsersOutcome(UserNotFound, users)
    else if caller != id then UsersOutcome(Unauthorized, users)
    else UsersOutcome(Ok, users - {id})
  }

  /** An id that does not cast answers 500 and an unknown one 404, before
      the ownership check; only the user themselves can delete their
      account; the deletion removes that record alone and leaves the
      references other users hold to it in place. */
  lemma DeleteEffect(users: map<Id, User>, caller: Id, id: Id)
    ensures !ValidId(id) ==> DeleteOutcome(users, caller, id).reply == ServerError
    ensures ValidId(id) && id !in users ==> DeleteOutcome(users, caller, id).reply == UserNotFound
    ensures DeleteOutcome(users, caller, id).reply == Ok
            <==> ValidId(id) && id in users && caller == id
    ensures ValidId(id) && id in users && caller != id
            ==> DeleteOutcome(users, caller, id).reply == Unauthorized
    ensures var after := DeleteOutcome(users, caller, id).users;
      DeleteOutcome(users, caller, id).reply == Ok ==>
        && after.Keys == users.Keys - {id}
        && (forall k | k in after :: after[k] == users[k])
        && (forall k | k in after && id in users[k].following :: id in after[k].following)
  {
  }

  /** Deleting keeps the collection well formed and the graph two-sided
      among the users that remain. */
  lemma DeletePreservesInvariants(users: map<Id, User>, caller: Id, id: Id)
    requires WellFormed(users) && Consistent(users) && NoSelfEdges(users)
    ensures WellFormed(DeleteOutcome(users, caller, id).users)
    ensures Consistent(DeleteOutcome(users, caller, id).users)
    ensures NoSelfEdges(DeleteOutcome(users, caller, id).users)
  {
  }

  // ---------------------------------------------------------------------
  // PATCH /user/:id/update

  /** The request body: the four fields the handler destructures, and the
      rest (`...otherUpdates`) that it merges verbatim. */
  datatype ProfilePatch = ProfilePatch(
    userName: Option<string>,
    firstName: Option<string>,
    lastName: Option<string>,
    password: Option<string>,
    email: Option<string>,
    profilepic: Option<string>,
    coverpic: Option<string>,
    bio: Option<string>,
    city: Option<string>,
    country: Option<string>,
    isOnline: Option<bool>,
    followers: Option<seq<Id>>,
    following: Option<seq<Id>>)

  /** The `$set` document the handler builds; None leaves a path alone. */
  datatype SetDoc = SetDoc(
    email: Option<string>,
    password: Option<string>,
    firstName: Option<string>,
    lastName: Option<string>,
    userName: Option<string>,
    profilepic: Option<string>,
    coverpic: Option<string>,
    bio: Option<string>,
    city: Option<string>,
    country: Option<string>,
    isOnline: Option<bool>,
    followers: Option<seq<Id>>,
    following: Option<seq<Id>>)

  function Pick<T>(v: Option<T>, old_: T): T {
    if v.Some? then v.value else old_
  }

  /** `$set` on a stored user; the `trim` setter applies to `email`, no
      validator runs (findByIdAndUpdate does not run them by default). */
  function ApplySet(u: User, d: SetDoc): User {
    u.(email := if d.email.Some? then Trim(d.email.value) else u.email,
       password := Pick(d.password, u.password),
       firstName := Pick(d.firstName, u.firstName),
       lastName := Pick(d.lastName, u.lastName),
       userName := Pick(d.userName, u.userName),
       profilepic := Pick(d.profilepic, u.profilepic),
       coverpic := Pick(d.coverpic, u.coverpic),
       bio := Pick(d.bio, u.bio),
       city := Pick(d.city, u.city),
       country := Pick(d.country, u.country),
       isOnline := Pick(d.isOnline, u.isOnline),
       followers := Pick(d.followers, u.followers),
       following := Pick(d.following, u.following))
  }

  /** The update document: the other fields verbatim, the uploaded picture's
      URL over any `profilepic`, each name only when truthy, the password
      only when truthy and then hashed. */
  function UpdateDoc(p: ProfilePatch, hasFile: bool, salt: string): SetDoc {
    SetDoc(p.email,
           if Truthy(p.password) then Some(Hash(salt, p.password.value)) else None,
           if Truthy(p.firstName) then p.firstName else None,
           if Truthy(p.lastName) then p.lastName else None,
           if Truthy(p.userName) then p.userName else None,
           if hasFile then Some(ProfilePicUrl) else p.profilepic,
           p.coverpic, p.bio, p.city, p.country, p.isOnline, p.followers, p.following)
  }

  /** The update handler: the cast in findById (500), the user present (404),
      then `$set`, which the unique indexes refuse (500) when the new email
      or user name belongs to another user. There is no ownership check. */
  function UpdateOutcome(users: map<Id, User>, id: Id, p: ProfilePatch, hasFile: bool, salt: string)
    : (r: UsersOutcome)
    ensures r.reply != Ok ==> r.users == users
    ensures r.reply == Ok ==> id in users && r.users.Keys == users.Keys
    ensures !ValidId(id) ==> r == UsersOutcome(ServerError, users)
    ensures ValidId(id) && id in users
            && Clashes(users - {id}, ApplySet(users[id], UpdateDoc(p, hasFile, salt)))
            ==> r == UsersOutcome(ServerError, users)
    ensures ValidId(id) && id in users
            && !Clashes(users - {id}, ApplySet(users[id], UpdateDoc(p, hasFile, salt)))
            ==> r.reply == Ok
  {
    if !ValidId(id) then UsersOutcome(ServerError, users)
    else if id !in users then UsersOutcome(UserNotFound, users)
    else
      var updated := ApplySet(users[id], UpdateDoc(p, hasFile, salt));
      if Clashes(users - {id}, updated) then UsersOutcome(ServerError, users)
      else UsersOutcome(Ok, users[id := updated])
  }

  /** What a successful update stores: names only when the supplied value is
      truthy, the password only as its hash, the other supplied fields as
      given (the email trimmed), the uploaded picture's URL when there is a
      file; no other user changes. An unknown id answers 404 and writes
      nothing. */
  lemma UpdateEffect(users: map<Id, User>, id: Id, p: ProfilePatch, hasFile: bool, salt: string)
    ensures ValidId(id) && id !in users
            ==> UpdateOutcome(users, id, p, hasFile, salt) == UsersOutcome(UserNotFound, users)
    ensures var r := UpdateOutcome(users, id, p, hasFile, salt);
      r.reply == Ok ==>
        var u, v := users[id], r.users[id];
        && v.id == u.id
        && v.userName == (if Truthy(p.userName) then p.userName.value else u.userName)
        && v.firstName == (if Truthy(p.firstName) then p.firstName.value else u.firstName)
        && v.lastName == (if Truthy(p.lastName) then p.lastName.value else u.lastName)
        && (Truthy(p.password) ==> v.password == Hash(salt, p.password.value)
                                   && v.password != p.password.value)
        && (!Truthy(p.password) ==> v.password == u.password)
        && v.email == (if p.email.Some? then Trim(p.email.value) else u.email)
        && v.profilepic == (if hasFile then ProfilePicUrl else Pick(p.profilepic, u.profilepic))
        && v.bio == Pick(p.bio, u.bio) && v.city == Pick(p.city, u.city)
        && v.country == Pick(p.country, u.country) && v.coverpic == Pick(p.coverpic, u.coverpic)
        && v.isOnline == Pick(p.isOnline, u.isOnline)
        && v.followers == Pick(p.followers, u.followers)
        && v.following == Pick(p.following, u.following)
        && v.pets == u.pets
        && forall k | k in users && k != id :: r.users[k] == users[k]
  {
  }

  /** The profile body that sets `email` to blanks and nothing else. */
  const BlankEmailPatch: ProfilePatch :=
    ProfilePatch(None, None, None, None, Some("   "), None, None, None, None, None, None, None, None)

  /** No validator guards the update: a blank email is trimmed to the empty
      string and stored, leaving a document that its next `save()` refuses. */
  lemma UpdateCanStoreEmptyEmail(users: map<Id, User>, id: Id, salt: string)
    requires ValidId(id) && id in users
    requires forall k | k in users && k != id :: users[k].email != "" && users[k].userName != users[id].userName
    ensures var r := UpdateOutcome(users, id, BlankEmailPatch, false, salt);
      r.reply == Ok && r.users[id].email == "" && !Saveable(r.users[id])
  {
    assert Trim("   ") == "";
  }

  /** The unique indexes make the update keep the collection well formed. */
  lemma UpdatePreservesWellFormed(users: map<Id, User>, id: Id, p: ProfilePatch, hasFile: bool, salt: string)
    requires WellFormed(users)
    ensures WellFormed(UpdateOutcome(users, id, p, hasFile, salt).users)
  {
    var r := UpdateOutcome(users, id, p, hasFile, salt);
    if r.reply == Ok {
      var updated := r.users[id];
      assert !Clashes(users - {id}, updated);
      forall a, b | a in r.users && b in r.users && a != b
        ensures r.users[a].email != r.users[b].email && r.users[a].userName != r.users[b].userName
      {
        if a == id {
          assert b in users - {id};
        } else if b == id {
          assert a in users - {id};
        }
      }
    }
  }

  /** The graph stays two-sided under an update that does not carry
      `followers` or `following`; the handler merges those verbatim. */
  lemma UpdatePreservesGraph(users: map<Id, User>, id: Id, p: ProfilePatch, hasFile: bool, salt: string)
    requires Consistent(users) && NoSelfEdges(users)
    requires p.followers.None? && p.following.None?
    ensures Consistent(UpdateOutcome(users, id, p, hasFile, salt).users)
    ensures NoSelfEdges(UpdateOutcome(users, id, p, hasFile, salt).users)
  {
    var r := UpdateOutcome(users, id, p, hasFile, salt);
    if r.reply == Ok {
      forall k | k in r.users
        ensures r.users[k].following == users[k].following
        ensures r.users[k].followers == users[k].followers
      {
      }
    }
  }

  // ---------------------------------------------------------------------
  // POST /user/status

  /** findByIdAndUpdate(userId, { isOnline }): the cast (500); an unknown id
      matches nothing and still answers 200. */
  function SetStatusOutcome(users: map<Id, User>, userId: Id, isOnline: bool): (r: UsersOutcome)
    ensures r.reply == ServerError <==> !ValidId(userId)
    ensures r.reply != ServerError ==> r.reply == Ok
    ensures r.reply != Ok ==> r.users == users
    ensures ValidId(userId) && userId !in users ==> r == UsersOutcome(Ok, users)
  {
    if !ValidId(userId) then UsersOutcome(ServerError, users)
    else if userId !in users then UsersOutcome(Ok, users)
    else UsersOutcome(Ok, users[userId := users[userId].(isOnline := isOnline)])
  }

  /** Setting the status changes that flag alone, and setting it again to
      the same value changes nothing. */
  lemma SetStatusIdempotent(users: map<Id, User>, userId: Id, isOnline: bool)
    ensures var once := SetStatusOutcome(users, userId, isOnline);
      SetStatusOutcome(once.users, userId, isOnline) == once
    ensures var once := SetStatusOutcome(users, userId, isOnline).users;
      && once.Keys == users.Keys
      && (ValidId(userId) && userId in users ==> once[userId].isOnline == isOnline)
      && forall k | k in users ::
           once[k] == users[k].(isOnline := once[k].isOnline)
           && (k != userId ==> once[k] == users[k])
  {
    var once := SetStatusOutcome(users, userId, isOnline);
    if ValidId(userId) && userId in users {
      assert once.users[userId := once.users[userId].(isOnline := isOnline)] == once.users;
    }
  }

  // ---------------------------------------------------------------------
  // GET /user/:id/posts

  /** `Post.find({ user: id })`: the cast (500), else that author's posts in
      collection order, possibly none. */
  function UserPosts(posts: seq<Post>, id: Id): (r: (Reply, seq<Post>))
    ensures r.0 == Ok <==> ValidId(id)
    ensures r.0 == Ok ==> forall p | p in posts :: p in r.1 <==> p.user == id
    ensures r.0 != Ok ==> r.1 == []
  {
    if !ValidId(id) then (ServerError, []) else (Ok, PostsBy(posts, id))
  }

  // ---------------------------------------------------------------------
  // The collection and its handlers

  class UserStore {
    var users: map<Id, User>

    ghost predicate Valid()
      reads this
    {
      WellFormed(users)
    }

    constructor(initial: map<Id, User>)
      requires WellFormed(initial)
      ensures Valid() && users == initial
    {
      users := initial;
    }

    /** PUT /user/:id/follow */
    method Follow(caller: Id, target: Id) returns (reply: Reply)
      requires Valid()
      modifies this
      ensures Valid()
      ensures UsersOutcome(reply, users) == FollowOutcome(old(users), caller, target)
    {
      if !ValidId(target) {
        return InvalidUserId;
      }
      if caller == target {
        return SelfReference;
      }
      if !ValidId(caller) {
        return ServerError;
      }
      if caller !in users || target !in users {
        return UserNotFound;
      }
      var user := users[caller];
      var userToFollow := users[target];
      if target in user.following {
        return AlreadyFollowing;
      }
      user := user.(following := user.following + [target]);
      userToFollow := userToFollow.(followers := userToFollow.followers + [caller]);
      if !Saveable(user) {
        return ServerError;
      }
      ReplaceKeepsWellFormed(users, caller, user);
      users := users[caller := user];
      if !Saveable(userToFollow) {
        return ServerError;
      }
      ReplaceKeepsWellFormed(users, target, userToFollow);
      users := users[target := userToFollow];
      reply := Ok;
    }

    /** POST /user/:id/unfollow, with its guard as written. */
    method Unfollow(caller: Id, target: Id) returns (reply: Reply)
      requires Valid()
      modifies this
      ensures Valid()
      ensures UsersOutcome(reply, users) == UnfollowOutcome(old(users), caller, target)
    {
      if caller == target {
        return SelfReference;
      }
      if !ValidId(caller) || !ValidId(target) {
        return ServerError;
      }
      if caller !in users || target !in users {
        return UserNotFound;
      }
      var user := users[caller];
      var userToUnfollow := users[target];
      if target in user.following {
        return NotFollowing;
      }
      user := user.(following := Without(user.following, target));
      userToUnfollow := userToUnfollow.(followers := Without(userToUnfollow.followers, caller));
      if !Saveable(user) {
        return ServerError;
      }
      ReplaceKeepsWellFormed(users, caller, user);
      users := users[caller := user];
      if !Saveable(userToUnfollow) {
        return ServerError;
      }
      ReplaceKeepsWellFormed(users, target, userToUnfollow);
      users := users[target := userToUnfollow];
      reply := Ok;
    }

    /** DELETE /user/:id/delete */
    method Delete(caller: Id, id: Id) returns (reply: Reply)
      requires Valid()
      modifies this
      ensures Valid()
      ensures UsersOutcome(reply, users) == DeleteOutcome(old(users), caller, id)
    {
      if !ValidId(id) {
        return ServerError;
      }
      if id !in users {
        return UserNotFound;
      }
      if caller != id {
        return Unauthorized;
      }
      users := users - {id};
      reply := Ok;
    }

    /** PATCH /user/:id/update; `hasFile` says whether a picture was
      uploaded, `salt` is what bcrypt.genSalt(10) produced. */
    method Update(id: Id, p: ProfilePatch, hasFile: bool, salt: string)
      returns (reply: Reply, body: Option<PublicUser>)
      requires Valid()
      modifies this
      ensures Valid()
      ensures UsersOutcome(reply, users) == UpdateOutcome(old(users), id, p, hasFile, salt)
      ensures reply == Ok ==> body == Some(Strip(users[id]))
      ensures reply != Ok ==> body == None
    {
      var updateData := SetDoc(p.email, None, None, None, None, p.profilepic, p.coverpic,
                               p.bio, p.city, p.country, p.isOnline, p.followers, p.following);
      if hasFile {
        updateData := updateData.(profilepic := Some(ProfilePicUrl));
      }
      if !ValidId(id) {
        return ServerError, None;
      }
      if id !in users {
        return UserNotFound, None;
      }
      if Truthy(p.userName) {
        updateData := updateData.(userName := p.userName);
      }
      if Truthy(p.firstName) {
        updateData := updateData.(firstName := p.firstName);
      }
      if Truthy(p.lastName) {
        updateData := updateData.(lastName := p.lastName);
      }
      if Truthy(p.password) {
        var hashedPassword := Hash(salt, p.password.value);
        updateData := updateData.(password := Some(hashedPassword));
      }
      assert updateData == UpdateDoc(p, hasFile, salt);
      var updated := ApplySet(users[id], updateData);
      if Clashes(users - {id}, updated) {
        return ServerError, None;
      }
      UpdatePreservesWellFormed(users, id, p, hasFile, salt);
      users := users[id := updated];
      reply, body := Ok, Some(Strip(updated));
    }

    /** POST /user/status; the reply carries the whole updated document,
      password included, or nothing when no user matched. */
    method SetStatus(userId: Id, isOnline: bool) returns (reply: Reply, body: Option<User>)
      requires Valid()
      modifies this
      ensures Valid()
      ensures UsersOutcome(reply, users) == SetStatusOutcome(old(users), userId, isOnline)
      ensures reply == Ok && userId in users ==> body == Some(users[userId])
      ensures reply != Ok || userId !in users ==> body == None
    {
      if !ValidId(userId) {
        return ServerError, None;
      }
      if userId !in users {
        return Ok, None;
      }
      var updatedUser := users[userId].(isOnline := isOnline);
      ReplaceKeepsWellFormed(users, userId, updatedUser);
      users := users[userId := updatedUser];
      reply, body := Ok, Some(updatedUser);
    }

    /** GET /user/users: every user but the caller, without passwords. */
    method ListUsers(caller: Id) returns (reply: Reply, result: map<Id, PublicUser>)
      ensures !ValidId(caller) ==> reply == ServerError && result == map[]
      ensures ValidId(caller) ==> reply == Ok
      ensures ValidId(caller) ==> result.Keys == users.Keys - {caller}
      ensures forall k | k in result :: k in users && result[k] == Strip(users[k])
    {
      if !ValidId(caller) {
        return ServerError, map[];
      }
      result := map k | k in users && k != caller :: Strip(users[k]);
      reply := Ok;
    }

    /** POST /user/friends: the users whose ids are listed, without
      passwords; ids that match nobody are left out silently. A missing or
      non-array `userIds` (None) answers 400; an id that does not cast, 500. */
    method Friends(userIds: Option<seq<Id>>) returns (reply: Reply, result: map<Id, PublicUser>)
      ensures userIds.None? ==> reply == InvalidUserIds && result == map[]
      ensures userIds.Some? && (exists i | 0 <= i < |userIds.value| :: !ValidId(userIds.value[i]))
              ==> reply == ServerError && result == map[]
      ensures userIds.Some? && (forall i | 0 <= i < |userIds.value| :: ValidId(userIds.value[i]))
              ==> reply == Ok
      ensures reply == Ok ==> userIds.Some? && result.Keys == users.Keys * set i | i in userIds.value
      ensures forall k | k in result :: k in users && result[k] == Strip(users[k])
    {
      if userIds.None? {
        return InvalidUserIds, map[];
      }
      var ids := userIds.value;
      if exists i | 0 <= i < |ids| :: !ValidId(ids[i]) {
        return ServerError, map[];
      }
      result := map k | k in users && k in ids :: Strip(users[k]);
      reply := Ok;
    }

    /** GET /user/:id: the user without the password, or 404. */
    method GetUser(id: Id) returns (reply: Reply, result: Option<PublicUser>)
      ensures !ValidId(id) ==> reply == ServerError && result == None
      ensures ValidId(id) && id !in users ==> reply == UserNotFound && result == None
      ensures reply == Ok <==> ValidId(id) && id in users
      ensures reply == Ok ==> result == Some(Strip(users[id]))
    {
      if !ValidId(id) {
        return ServerError, None;
      }
      if id !in users {
        return UserNotFound, None;
      }
      reply, result := Ok, Some(Strip(users[id]));
    }
  }
}
