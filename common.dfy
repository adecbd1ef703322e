/** Identifiers, handler replies and the list operations the route handlers
    share: Array.prototype.filter, and MongoDB's $pull. */
module Common {

  datatype Option<T> = None | Some(value: T)

  datatype Result<T, E> = Success(value: T) | Failure(error: E)

  /** A MongoDB document identifier (ObjectId) in the string form the
      handlers receive from route parameters, bodies and the token. */
  type Id = string

  predicate IsHexDigit(c: char) {
    ('0' <= c <= '9') || ('a' <= c <= 'f') || ('A' <= c <= 'F')
  }

  /** mongoose.Types.ObjectId.isValid, which is also the test that decides
      whether findById can cast its argument or throws a CastError. */
  predicate ValidId(s: string) {
    |s| == 24 && forall i | 0 <= i < |s| :: IsHexDigit(s[i])
  }

  /** Why a schema rejected a document: a validation error naming the failing
      paths, or a violation of a unique index (MongoDB error E11000). */
  datatype SchemaError = ValidationFailed(paths: set<string>) | DuplicateKey

  /** Every response a user or post handler sends, one constructor per
      message; StatusCode gives the HTTP status it is sent with. */
  datatype Reply =
    | Ok                  // 200
    | InvalidUserId       // 400 "Invalid user ID."
    | SelfReference       // 400 "you cannot follow / unfollow yourself"
    | AlreadyFollowing    // 400 "You are already following this user"
    | NotFollowing        // 400 "You are not following this user"
    | InvalidUserIds      // 400 "Invalid user IDs"
    | Unauthorized        // 401 "Request denied, you are unauthorized ..."
    | NotPostOwner        // 403 "You can only update / delete your post"
    | UserNotFound        // 404
    | ServerError         // 500: a thrown CastError, TypeError or database error

  function StatusCode(r: Reply): int {
    match r
    case Ok => 200
    case InvalidUserId => 400
    case SelfReference => 400
    case AlreadyFollowing => 400
    case NotFollowing => 400
    case InvalidUserIds => 400
    case Unauthorized => 401
    case NotPostOwner => 403
    case UserNotFound => 404
    case ServerError => 500
  }

  /** A JavaScript string used as a condition: undefined and "" are falsy. */
  predicate Truthy(v: Option<string>) {
    v.Some? && v.value != ""
  }

  predicate NoDuplicates<T(==)>(s: seq<T>) {
    forall i, j | 0 <= i < j < |s| :: s[i] != s[j]
  }

  /** `s.filter(e => e !== x)`, and `$pull: x` on a stored array: every
      occurrence of x is dropped, the other elements stay in their order. */
  function Without(s: seq<Id>, x: Id): (r: seq<Id>)
    ensures x !in r
    ensures forall y :: y in r <==> y in s && y != x
    ensures multiset(r) == multiset(s)[x := 0]
    ensures x !in s ==> r == s
  {
    if s == [] then []
    else
      assert s == [s[0]] + s[1..];
      if s[0] == x then Without(s[1..], x) else [s[0]] + Without(s[1..], x)
  }

  /** Filtering distributes over concatenation, so it keeps relative order. */
  lemma {:induction false} WithoutConcat(a: seq<Id>, b: seq<Id>, x: Id)
    ensures Without(a + b, x) == Without(a, x) + Without(b, x)
  {
    if a == [] {
      assert a + b == b;
    } else {
      assert (a + b)[0] == a[0];
      assert (a + b)[1..] == a[1..] + b;
      WithoutConcat(a[1..], b, x);
    }
  }

  /** Removing an element that was just appended to a list that did not hold
      it gives the list back exactly. */
  lemma WithoutAppended(s: seq<Id>, x: Id)
    requires x !in s
    ensures Without(s + [x], x) == s
  {
    WithoutConcat(s, [x], x);
    assert Without([x], x) == [];
  }
}
