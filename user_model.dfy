/** The User schema (server/models/User.model.js): the record, the fields
    Mongoose requires, the unique indexes, the defaults, the `pets` enum and
    the `trim` setter on `email`. */
module UserModel {
  import opened Common

  /** The values the `pets` enum admits. */
  datatype Pet = Dog | Cat | Fish | Rabbit | Bird | Star | Heart

  function PetName(p: Pet): string {
    match p
    case Dog => "dog"
    case Cat => "cat"
    case Fish => "fish"
    case Rabbit => "rabbit"
    case Bird => "bird"
    case Star => "star"
    case Heart => "heart"
  }

  /** The enum validator: a string is admitted exactly when it names a pet. */
  function ParsePet(s: string): (r: Option<Pet>)
    ensures r.Some? ==> PetName(r.value) == s
  {
    if s == "dog" then Some(Dog)
    else if s == "cat" then Some(Cat)
    else if s == "fish" then Some(Fish)
    else if s == "rabbit" then Some(Rabbit)
    else if s == "bird" then Some(Bird)
    else if s == "star" then Some(Star)
    else if s == "heart" then Some(Heart)
    else None
  }

  lemma ParsePetName(p: Pet)
    ensures ParsePet(PetName(p)) == Some(p)
  {
  }

  /** Validates every element of a `pets` array against the enum. */
  function ParsePets(ss: seq<string>): (r: Option<seq<Pet>>)
    ensures r.Some? ==> |r.value| == |ss| && forall i | 0 <= i < |ss| :: PetName(r.value[i]) == ss[i]
    ensures r.None? ==> exists i | 0 <= i < |ss| :: ParsePet(ss[i]).None?
  {
    if ss == [] then Some([])
    else match (ParsePet(ss[0]), ParsePets(ss[1..]))
      case (Some(p), Some(ps)) => Some([p] + ps)
      case (None, _) => None
      case (_, None) =>
        assert exists i | 0 <= i < |ss[1..]| :: ParsePet(ss[1..][i]).None?;
        var i :| 0 <= i < |ss[1..]| && ParsePet(ss[1..][i]).None?;
        assert ParsePet(ss[i + 1]).None?;
        None
  }

  /** The characters String.prototype.trim removes (ECMAScript WhiteSpace
      and LineTerminator). */
  predicate IsJsWhitespace(c: char) {
    c == '\t' || c == '\n' || c == '\U{000B}' || c == '\U{000C}' || c == '\r' || c == ' '
    || c == '\U{00A0}' || c == '\U{1680}' || ('\U{2000}' <= c <= '\U{200A}')
    || c == '\U{2028}' || c == '\U{2029}' || c == '\U{202F}' || c == '\U{205F}'
    || c == '\U{3000}' || c == '\U{FEFF}'
  }

  function TrimStart(s: string): (r: string)
    ensures |r| <= |s| && r == s[|s| - |r|..]
    ensures forall k | 0 <= k < |s| - |r| :: IsJsWhitespace(s[k])
    ensures r == [] || !IsJsWhitespace(r[0])
  {
    if s != [] && IsJsWhitespace(s[0]) then TrimStart(s[1..]) else s
  }

  function TrimEnd(s: string): (r: string)
    ensures |r| <= |s| && r == s[..|r|]
    ensures forall k | |r| <= k < |s| :: IsJsWhitespace(s[k])
    ensures r == [] || !IsJsWhitespace(r[|r| - 1])
  {
    if s != [] && IsJsWhitespace(s[|s| - 1]) then TrimEnd(s[..|s| - 1]) else s
  }

  /** s[i..i + |r|] is r and everything around it is whitespace. */
  predicate TrimmedAt(s: string, i: int, r: string) {
    0 <= i <= |s| - |r| && s[i..i + |r|] == r
    && (forall k | 0 <= k < i :: IsJsWhitespace(s[k]))
    && (forall k | i + |r| <= k < |s| :: IsJsWhitespace(s[k]))
  }

  /** The `trim: true` setter of `email`: s with its leading and trailing
      whitespace cut off. */
  function Trim(s: string): (r: string)
    ensures r == [] || (!IsJsWhitespace(r[0]) && !IsJsWhitespace(r[|r| - 1]))
    ensures exists i :: TrimmedAt(s, i, r)
  {
    var t := TrimStart(s);
    var r := TrimEnd(t);
    assert TrimmedAt(s, |s| - |t|, r);
    r
  }

  /** Trimming is idempotent: a stored email is already in trimmed form. */
  lemma TrimIdempotent(s: string)
    ensures Trim(Trim(s)) == Trim(s)
  {
    var t := Trim(s);
    assert TrimStart(t) == t;
    assert TrimEnd(t) == t;
  }

  /** A stored user document. `password` holds what was saved, which the
      profile update makes a bcrypt hash. */
  datatype User = User(
    id: Id,
    email: string,
    password: string,
    firstName: string,
    lastName: string,
    userName: string,
    profilepic: string,
    coverpic: string,
    bio: string,
    city: string,
    country: string,
    isOnline: bool,
    followers: seq<Id>,
    following: seq<Id>,
    pets: seq<Pet>)

  /** A user as the read handlers send it: every field but `password`. */
  datatype PublicUser = PublicUser(
    id: Id,
    email: string,
    firstName: string,
    lastName: string,
    userName: string,
    profilepic: string,
    coverpic: string,
    bio: string,
    city: string,
    country: string,
    isOnline: bool,
    followers: seq<Id>,
    following: seq<Id>,
    pets: seq<Pet>)

  /** `const { password, ...otherDetails } = user._doc` and `.select("-password")`. */
  function Strip(u: User): PublicUser {
    PublicUser(u.id, u.email, u.firstName, u.lastName, u.userName, u.profilepic,
               u.coverpic, u.bio, u.city, u.country, u.isOnline, u.followers,
               u.following, u.pets)
  }

  /** The default of `profilepic`, `coverpic`, `bio`, `city` and `country`. */
  const DefaultText: string := " "

  /** The fields a new user document is created from; None is a field the
      creator left undefined. */
  datatype UserFields = UserFields(
    email: Option<string>,
    password: Option<string>,
    firstName: Option<string>,
    lastName: Option<string>,
    userName: Option<string>,
    profilepic: Option<string>,
    coverpic: Option<string>,
    bio: Option<string>,
    city: Option<string>,
    country: Option<string>,
    isOnline: Option<bool>,
    followers: Option<seq<Id>>,
    following: Option<seq<Id>>,
    pets: seq<string>)

  /** A supplied `followers` or `following` array, or the schema's default
      `[]`. Both paths are untyped arrays, so their elements are kept as
      given. */
  function IdsOrEmpty(v: Option<seq<Id>>): seq<Id> {
    if v.Some? then v.value else []
  }

  function TrimmedEmail(f: UserFields): Option<string> {
    if f.email.Some? then Some(Trim(f.email.value)) else None
  }

  function OrDefault(v: Option<string>): string {
    if v.Some? then v.value else DefaultText
  }

  /** The paths whose `required` validator fails: for a String path Mongoose
      rejects both undefined and the empty string. */
  function MissingPaths(f: UserFields): set<string> {
    (if Truthy(TrimmedEmail(f)) then {} else {"email"})
    + (if Truthy(f.password) then {} else {"password"})
    + (if Truthy(f.firstName) then {} else {"firstName"})
    + (if Truthy(f.lastName) then {} else {"lastName"})
    + (if Truthy(f.userName) then {} else {"userName"})
  }

  /** Casting and validating a new document: the email is trimmed first,
      then every failing path is reported together; defaults fill the rest.
      Supplied `followers` and `following` arrays are kept as given. */
  function NewUser(id: Id, f: UserFields): (r: Result<User, SchemaError>)
    ensures r.Failure? ==> r.error.ValidationFailed? && r.error.paths != {}
    ensures r.Success? <==>
      Truthy(TrimmedEmail(f)) && Truthy(f.password) && Truthy(f.firstName)
      && Truthy(f.lastName) && Truthy(f.userName) && ParsePets(f.pets).Some?
  {
    var missing := MissingPaths(f);
    var pets := ParsePets(f.pets);
    var failing := missing + (if pets.Some? then {} else {"pets"});
    if failing != {} then
      Failure(ValidationFailed(failing))
    else
      assert "email" !in missing && "password" !in missing && "firstName" !in missing;
      assert "lastName" !in missing && "userName" !in missing;
      Success(User(id, TrimmedEmail(f).value, f.password.value, f.firstName.value,
                   f.lastName.value, f.userName.value, OrDefault(f.profilepic),
                   OrDefault(f.coverpic), OrDefault(f.bio), OrDefault(f.city),
                   OrDefault(f.country),
                   if f.isOnline.Some? then f.isOnline.value else false,
                   IdsOrEmpty(f.followers), IdsOrEmpty(f.following), pets.value))
  }

  /** What `save()` re-validates on a stored document: the `required`
      validators, which refuse the empty string. (The `pets` enum holds by
      the type of `pets`.) Updates through findByIdAndUpdate skip these
      validators, so a stored document can fail them. */
  predicate Saveable(u: User) {
    u.email != "" && u.password != "" && u.firstName != "" && u.lastName != "" && u.userName != ""
  }

  /** What every created user satisfies: it passes the validators and the
      email is in trimmed form. */
  predicate ValidUser(u: User) {
    Saveable(u) && Trim(u.email) == u.email
  }

  /** A created user is valid, keeps what was supplied and takes the
      schema's defaults for the rest. */
  lemma NewUserDefaults(id: Id, f: UserFields)
    requires NewUser(id, f).Success?
    ensures var u := NewUser(id, f).value;
      && ValidUser(u) && u.id == id
      && u.email == Trim(f.email.value) && u.userName == f.userName.value
      && u.password == f.password.value
      && u.firstName == f.firstName.value && u.lastName == f.lastName.value
      && u.profilepic == (if f.profilepic.Some? then f.profilepic.value else DefaultText)
      && u.coverpic == (if f.coverpic.Some? then f.coverpic.value else DefaultText)
      && u.bio == (if f.bio.Some? then f.bio.value else DefaultText)
      && u.city == (if f.city.Some? then f.city.value else DefaultText)
      && u.country == (if f.country.Some? then f.country.value else DefaultText)
      && u.isOnline == (f.isOnline.Some? && f.isOnline.value)
      && u.followers == (if f.followers.Some? then f.followers.value else [])
      && u.following == (if f.following.Some? then f.following.value else [])
      && |u.pets| == |f.pets| && forall i | 0 <= i < |f.pets| :: PetName(u.pets[i]) == f.pets[i]
  {
    var u := NewUser(id, f).value;
    TrimIdempotent(f.email.value);
  }

  /** Each missing required field is named in the validation error. */
  lemma NewUserReportsMissing(id: Id, f: UserFields, path: string)
    requires path in MissingPaths(f)
    ensures NewUser(id, f) == Failure(ValidationFailed(NewUser(id, f).error.paths))
    ensures path in NewUser(id, f).error.paths
  {
  }

  /** The unique indexes on `email` and `userName`. */
  predicate UniqueKeys(users: map<Id, User>) {
    forall a, b | a in users && b in users && a != b ::
      users[a].email != users[b].email && users[a].userName != users[b].userName
  }

  /** Whether saving u would violate a unique index of the collection. */
  predicate Clashes(users: map<Id, User>, u: User) {
    exists k | k in users :: users[k].email == u.email || users[k].userName == u.userName
  }

  /** Saving a new user: schema validation first, then the unique indexes.
      The id is a freshly generated ObjectId. */
  function InsertUser(users: map<Id, User>, id: Id, f: UserFields): (r: Result<map<Id, User>, SchemaError>)
    requires id !in users
    ensures r.Success? <==> NewUser(id, f).Success? && !Clashes(users, NewUser(id, f).value)
    ensures r.Success? ==> r.value == users[id := NewUser(id, f).value]
  {
    match NewUser(id, f)
    case Failure(e) => Failure(e)
    case Success(u) => if Clashes(users, u) then Failure(DuplicateKey) else Success(users[id := u])
  }

  /** Adding a user that clashes with nobody keeps the indexes unique. */
  lemma AddKeepsUnique(users: map<Id, User>, id: Id, u: User)
    requires id !in users && UniqueKeys(users) && !Clashes(users, u)
    ensures UniqueKeys(users[id := u])
    ensures users[id := u].Keys == users.Keys + {id}
    ensures forall k | k in users :: users[id := u][k] == users[k]
  {
    var after := users[id := u];
    forall a, b | a in after && b in after && a != b
      ensures after[a].email != after[b].email && after[a].userName != after[b].userName
    {
      if a == id {
        assert !(users[b].email == u.email || users[b].userName == u.userName);
      } else if b == id {
        assert !(users[a].email == u.email || users[a].userName == u.userName);
      }
    }
  }

  /** A successful insert adds exactly the new user and keeps emails and
      user names unique. */
  lemma InsertKeepsUnique(users: map<Id, User>, id: Id, f: UserFields)
    requires id !in users && UniqueKeys(users)
    requires InsertUser(users, id, f).Success?
    ensures var after := InsertUser(users, id, f).value;
      && UniqueKeys(after) && after.Keys == users.Keys + {id}
      && after[id] == NewUser(id, f).value
      && forall k | k in users :: after[k] == users[k]
  {
    var u := NewUser(id, f).value;
    assert InsertUser(users, id, f).value == users[id := u] && !Clashes(users, u);
    AddKeepsUnique(users, id, u);
  }

  /** A user name or email already taken makes the insert fail with E11000. */
  lemma InsertRejectsDuplicate(users: map<Id, User>, id: Id, f: UserFields, other: Id)
    requires id !in users && other in users && NewUser(id, f).Success?
    requires users[other].userName == NewUser(id, f).value.userName
      || users[other].email == NewUser(id, f).value.email
    ensures InsertUser(users, id, f) == Failure(DuplicateKey)
  {
    assert Clashes(users, NewUser(id, f).value);
  }
}
