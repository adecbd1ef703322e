/** The validation chain of POST /auth/register
    (server/routes/auth.routes.js): an empty-field check, an unanchored email
    pattern and a password pattern made of three lookaheads. The handler
    reads and writes no store, so it is a function of the request. */
module AuthRoutes {
  import opened Common

  /** The five body fields the handler destructures; None is undefined. */
  datatype RegisterRequest = RegisterRequest(
    email: Option<string>,
    userName: Option<string>,
    firstName: Option<string>,
    lastName: Option<string>,
    password: Option<string>)

  /** The three 400 responses, and the case where every check passes and the
      handler returns without sending anything. */
  datatype RegisterReply = MissingInformation | InvalidEmail | WeakPassword | NoResponse

  /** `RegExp.prototype.test` converts its argument with String(v). */
  function JsString(v: Option<string>): string {
    if v.Some? then v.value else "undefined"
  }

  // ---------------------------------------------------------------------
  // The email pattern /[^@ \t\r\n]+@[^@ \t\r\n]+\.[^@ \t\r\n]+/

  /** The class [^@ \t\r\n]. */
  predicate EmailChar(c: char) {
    c != '@' && c != ' ' && c != '\t' && c != '\r' && c != '\n'
  }

  /** s[i..j] is a non-empty run of EmailChar. */
  predicate EmailRun(s: string, i: int, j: int) {
    0 <= i < j <= |s| && forall k | i <= k < j :: EmailChar(s[k])
  }

  /** The pattern matches s[a..e] with its '@' at `at` and its '.' at `dot`. */
  predicate EmailMatchAt(s: string, a: int, at: int, dot: int, e: int) {
    0 <= a < at < dot < e <= |s|
    && EmailRun(s, a, at) && s[at] == '@' && EmailRun(s, at + 1, dot)
    && s[dot] == '.' && EmailRun(s, dot + 1, e)
  }

  /** `emailRegex.test(s)`: the pattern is not anchored, so a match anywhere
      in s will do. */
  predicate EmailRegexTest(s: string) {
    exists a, at, dot, e | 0 <= a < |s| && a < at < |s| && at < dot < |s| && dot < e <= |s| ::
      EmailMatchAt(s, a, at, dot, e)
  }

  /** The smallest match: one allowed character, '@', a run of allowed
      characters, '.', one allowed character. */
  predicate EmailShape(s: string, at: int, dot: int) {
    0 < at && at + 1 < dot && dot + 1 < |s|
    && EmailChar(s[at - 1]) && s[at] == '@' && EmailRun(s, at + 1, dot)
    && s[dot] == '.' && EmailChar(s[dot + 1])
  }

  /** The pattern accepts s exactly when s contains the smallest match
      somewhere: the runs before '@' and after '.' may as well be one
      character long. */
  lemma EmailRegexIffShape(s: string)
    ensures EmailRegexTest(s) <==> exists at, dot :: EmailShape(s, at, dot)
  {
    if EmailRegexTest(s) {
      var a, at, dot, e :| EmailMatchAt(s, a, at, dot, e);
      assert EmailMatchAt(s, a, at, dot, e);
      assert EmailRun(s, a, at) && EmailRun(s, dot + 1, e);
      assert EmailChar(s[at - 1]) && EmailChar(s[dot + 1]);
      assert EmailShape(s, at, dot);
    }
    if exists at, dot :: EmailShape(s, at, dot) {
      var at, dot :| EmailShape(s, at, dot);
      assert EmailMatchAt(s, at - 1, at, dot, dot + 2);
    }
  }

  /** An accepted email has an '@' that is neither first nor last, with a
      '.' later on that is not last either. */
  lemma EmailAcceptedHasAtAndDot(s: string)
    requires EmailRegexTest(s)
    ensures exists at, dot | 0 < at < dot < |s| - 1 :: s[at] == '@' && s[dot] == '.'
  {
    EmailRegexIffShape(s);
    var at, dot :| EmailShape(s, at, dot);
    assert 0 < at < dot < |s| - 1 && s[at] == '@' && s[dot] == '.';
  }

  lemma EmailExamples()
    ensures EmailRegexTest("a@b.com")
    ensures EmailRegexTest("mail me at a@b.com, thanks")
    ensures !EmailRegexTest("ab.com")
    ensures !EmailRegexTest("a@b")
    ensures !EmailRegexTest("@b.com")
    ensures !EmailRegexTest("undefined")
  {
    assert EmailMatchAt("a@b.com", 0, 1, 3, 7);
    var s := "mail me at a@b.com, thanks";
    assert EmailMatchAt(s, 11, 12, 14, 19);
    NoAtRejected("ab.com");
    NoAtRejected("undefined");
    NoLaterAtRejected("@b.com");
    if EmailRegexTest("a@b") {
      EmailRegexIffShape("a@b");
    }
  }

  /** Without an '@' nothing matches. */
  lemma NoAtRejected(s: string)
    requires forall i | 0 <= i < |s| :: s[i] != '@'
    ensures !EmailRegexTest(s)
  {
  }

  /** An '@' in first position has nothing before it, so it cannot be the
      pattern's '@'. */
  lemma NoLaterAtRejected(s: string)
    requires forall i | 1 <= i < |s| :: s[i] != '@'
    ensures !EmailRegexTest(s)
  {
  }

  // ---------------------------------------------------------------------
  // The password pattern /(?=.*\d)(?=.*[a-z])(?=.*[A-Z]).{3,}/

  /** What `.` matches without the `s` flag: anything but a line terminator. */
  predicate LineChar(c: char) {
    c != '\n' && c != '\r' && c != '\U{2028}' && c != '\U{2029}'
  }

  predicate IsDigit(c: char) { '0' <= c <= '9' }
  predicate IsLower(c: char) { 'a' <= c <= 'z' }
  predicate IsUpper(c: char) { 'A' <= c <= 'Z' }

  /** s[i..j] holds no line terminator, so `.*` can step over it. */
  predicate SameLine(s: string, i: int, j: int) {
    0 <= i <= j <= |s| && forall k | i <= k < j :: LineChar(s[k])
  }

  /** The lookahead (?=.*[cls]) succeeds at position p. */
  predicate Ahead(s: string, p: int, cls: char -> bool) {
    exists q | 0 <= p <= q < |s| :: cls(s[q]) && SameLine(s, p, q)
  }

  /** The whole pattern matches starting at position p. */
  predicate PasswordMatchAt(s: string, p: int) {
    0 <= p && p + 3 <= |s| && SameLine(s, p, p + 3)
    && Ahead(s, p, IsDigit) && Ahead(s, p, IsLower) && Ahead(s, p, IsUpper)
  }

  /** `passwordRegex.test(s)`: a match may start anywhere. */
  predicate PasswordRegexTest(s: string) {
    exists p | 0 <= p <= |s| :: PasswordMatchAt(s, p)
  }

  predicate Has(s: string, cls: char -> bool) {
    exists i | 0 <= i < |s| :: cls(s[i])
  }

  predicate SingleLine(s: string) {
    forall k | 0 <= k < |s| :: LineChar(s[k])
  }

  /** Three positions holding a digit, a lower-case and an upper-case letter
      are distinct, so the string is at least three long. */
  lemma ThreeClassesNeedThree(s: string, i: int, j: int, k: int)
    requires 0 <= i < |s| && 0 <= j < |s| && 0 <= k < |s|
    requires IsDigit(s[i]) && IsLower(s[j]) && IsUpper(s[k])
    ensures |s| >= 3
  {
    assert i != j && j != k && i != k;
  }

  /** On a single line the pattern accepts exactly the strings holding an
      ASCII digit, a lower-case and an upper-case ASCII letter. */
  lemma PasswordRegexIff(s: string)
    requires SingleLine(s)
    ensures PasswordRegexTest(s) <==> Has(s, IsDigit) && Has(s, IsLower) && Has(s, IsUpper)
  {
    if Has(s, IsDigit) && Has(s, IsLower) && Has(s, IsUpper) {
      var i :| 0 <= i < |s| && IsDigit(s[i]);
      var j :| 0 <= j < |s| && IsLower(s[j]);
      var k :| 0 <= k < |s| && IsUpper(s[k]);
      ThreeClassesNeedThree(s, i, j, k);
      assert SameLine(s, 0, i) && SameLine(s, 0, j) && SameLine(s, 0, k);
      assert PasswordMatchAt(s, 0);
    }
    if PasswordRegexTest(s) {
      PasswordAcceptedHasClasses(s);
    }
  }

  /** Whatever the string, an accepted password holds the three classes and
      is at least three characters long. */
  lemma PasswordAcceptedHasClasses(s: string)
    requires PasswordRegexTest(s)
    ensures Has(s, IsDigit) && Has(s, IsLower) && Has(s, IsUpper) && |s| >= 3
  {
    var p :| 0 <= p <= |s| && PasswordMatchAt(s, p);
    var i :| 0 <= p <= i < |s| && IsDigit(s[i]) && SameLine(s, p, i);
    var j :| 0 <= p <= j < |s| && IsLower(s[j]) && SameLine(s, p, j);
    var k :| 0 <= p <= k < |s| && IsUpper(s[k]) && SameLine(s, p, k);
  }

  /** A string missing one of the three classes is rejected. */
  lemma MissingClassRejected(s: string, cls: char -> bool)
    requires cls == IsDigit || cls == IsLower || cls == IsUpper
    requires forall i | 0 <= i < |s| :: !cls(s[i])
    ensures !PasswordRegexTest(s)
  {
    if PasswordRegexTest(s) {
      PasswordAcceptedHasClasses(s);
    }
  }

  lemma PasswordExamples()
    ensures PasswordRegexTest("Abc123")
    ensures !PasswordRegexTest("abc123")
    ensures !PasswordRegexTest("ABC123")
    ensures !PasswordRegexTest("Abcdef")
    ensures !PasswordRegexTest("undefined")
  {
    var good := "Abc123";
    assert SameLine(good, 0, 3) && IsUpper(good[0]) && IsLower(good[1]) && IsDigit(good[3]);
    assert PasswordMatchAt(good, 0);
    MissingClassRejected("abc123", IsUpper);
    MissingClassRejected("ABC123", IsLower);
    MissingClassRejected("Abcdef", IsDigit);
    MissingClassRejected("undefined", IsDigit);
  }

  // ---------------------------------------------------------------------
  // The handler

  /** POST /auth/register: the first failing check decides the 400 response;
      when all pass the handler ends without a response and without a write. */
  function Register(req: RegisterRequest): (r: RegisterReply)
    ensures r == MissingInformation <==> AnyEmpty(req)
  {
    if req.email == Some("") || req.userName == Some("") || req.firstName == Some("")
       || req.lastName == Some("") || req.password == Some("")
    then MissingInformation
    else if !EmailRegexTest(JsString(req.email)) then InvalidEmail
    else if !PasswordRegexTest(JsString(req.password)) then WeakPassword
    else NoResponse
  }

  predicate AnyEmpty(req: RegisterRequest) {
    req.email == Some("") || req.userName == Some("") || req.firstName == Some("")
    || req.lastName == Some("") || req.password == Some("")
  }

  /** The empty-field check fires on "" only: an undefined field passes it.
      An undefined email or password is then caught by the pattern it
      meets, since both are tested as the string "undefined". */
  lemma RegisterUndefinedFields(req: RegisterRequest)
    ensures Register(req) == MissingInformation <==> AnyEmpty(req)
    ensures !AnyEmpty(req) && req.email.None? ==> Register(req) == InvalidEmail
    ensures !AnyEmpty(req) && req.password.None? && EmailRegexTest(JsString(req.email))
            ==> Register(req) == WeakPassword
  {
    EmailExamples();
    PasswordExamples();
  }

  /** A request gets past every check exactly when its email matches the
      email pattern and its password (present, at least three long) holds a
      digit, a lower-case and an upper-case letter on one line; user name
      and names may be left undefined. */
  lemma RegisterAccepts(req: RegisterRequest)
    requires req.password.Some? ==> SingleLine(req.password.value)
    ensures Register(req) == NoResponse <==>
      && !AnyEmpty(req)
      && req.email.Some? && EmailRegexTest(req.email.value)
      && req.password.Some? && |req.password.value| >= 3
      && Has(req.password.value, IsDigit) && Has(req.password.value, IsLower)
      && Has(req.password.value, IsUpper)
  {
    EmailExamples();
    PasswordExamples();
    if req.password.Some? {
      PasswordRegexIff(req.password.value);
      if PasswordRegexTest(req.password.value) {
        PasswordAcceptedHasClasses(req.password.value);
      }
    }
  }

  /** The checks run in order and the first one that fails decides the
      reply, for every request: an empty field is reported whatever the
      email and password, a bad email whatever the password, and a weak
      password only once the email has passed. */
  lemma RegisterFirstFailureDecides(req: RegisterRequest)
    ensures AnyEmpty(req) ==> Register(req) == MissingInformation
    ensures !AnyEmpty(req) && !EmailRegexTest(JsString(req.email)) ==> Register(req) == InvalidEmail
    ensures !AnyEmpty(req) && EmailRegexTest(JsString(req.email)) && !PasswordRegexTest(JsString(req.password))
            ==> Register(req) == WeakPassword
    ensures Register(req) == NoResponse
            <==> !AnyEmpty(req) && EmailRegexTest(JsString(req.email)) && PasswordRegexTest(JsString(req.password))
  {
  }

  /** The registration scenario: "a@b.com" with "Abc123" gets past every
      check, so the handler sends nothing back; a good email with a weak
      password is refused as weak; an empty field is refused before the bad
      email of the same request is looked at. */
  lemma RegisterScenario()
    ensures Register(RegisterRequest(Some("a@b.com"), Some("ann"), Some("Ann"), Some("Lee"), Some("Abc123")))
            == NoResponse
    ensures Register(RegisterRequest(Some("a@b.com"), None, None, None, Some("abc123")))
            == WeakPassword
    ensures Register(RegisterRequest(Some("ab.com"), Some(""), None, None, Some("Abc123")))
            == MissingInformation
  {
    EmailExamples();
    PasswordExamples();
  }
}
