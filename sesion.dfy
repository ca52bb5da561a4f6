/**
 * The login page: field validation with a fixed error order, the demo
 * authentication stub, and the submit handler that stores the token in
 * the persistent or the per-tab store depending on "remember me".
 */
module Sesion {
  import opened Wrappers
  import opened Text

  const MissingFieldsMessage: string := "Completa todos los campos."
  const InvalidEmailMessage: string := "Ingresa un correo válido."
  const BadCredentialsMessage: string := "Email o contraseña incorrectos"

  /** The only password the demo stub accepts, and what it hands back. */
  const DemoPassword: string := "123456"
  const DemoToken: string := "fake-jwt-token"
  const DemoName: string := "Usuario Demo"

  /** Page the form redirects to after signing in. */
  const ProfilePath: string := "/perfil"

  // ---- The e-mail pattern ^[^\s@]+@[^\s@]+\.[^\s@]+$ ----

  /** A non-empty run of `[^\s@]`. */
  ghost predicate Segment(x: string)
  {
    |x| > 0 && forall k :: 0 <= k < |x| ==> !IsSpace(x[k]) && x[k] != '@'
  }

  /** The pattern matches `s` with its `@` at `i` and its `\.` at `j`. */
  ghost predicate PatternSplit(s: string, i: int, j: int)
  {
    && 0 <= i < j < |s|
    && s[i] == '@' && s[j] == '.'
    && Segment(s[..i]) && Segment(s[i + 1..j]) && Segment(s[j + 1..])
  }

  /** The regular expression, read as "some way of cutting `s` into its
      three runs exists" (the regex engine's backtracking tries them all). */
  ghost predicate MatchesEmailPattern(s: string)
  {
    exists i, j :: PatternSplit(s, i, j)
  }

  /** Index of the first `c` in `s`. */
  function IndexOf(s: string, c: char): (r: Option<nat>)
    ensures r.Some? ==> r.value < |s| && s[r.value] == c && c !in s[..r.value]
    ensures r.None? ==> c !in s
  {
    if s == [] then None
    else if s[0] == c then Some(0)
    else match IndexOf(s[1..], c)
      case Some(k) =>
        assert s[..k + 1] == [s[0]] + s[1..][..k];
        Some(k + 1)
      case None => None
  }

  /** A `c` with no `c` before it is the first one. */
  lemma {:induction false} IndexOfFirst(s: string, c: char, i: nat)
    requires i < |s| && s[i] == c && c !in s[..i]
    ensures IndexOf(s, c) == Some(i)
  {
    if i > 0 {
      assert s[0] in s[..i];
      assert s[1..][..i - 1] == s[1..i];
      assert forall x :: x in s[1..i] ==> x in s[..i];
      IndexOfFirst(s[1..], c, i - 1);
    }
  }

  /** The anatomy of an accepted address: no white space, an `@` that is
      not the first character and is the only one, and a domain that has a
      `.` with text on both sides. */
  predicate EmailShape(s: string)
  {
    && NoSpace(s)
    && match IndexOf(s, '@')
       case None => false
       case Some(at) =>
         var domain := s[at + 1..];
         && at > 0
         && '@' !in domain
         && |domain| >= 3 && '.' in domain[1..|domain| - 1]
  }

  /** The structural check and the regular expression accept the same
      strings. */
  lemma EmailShapeIsPattern(s: string)
    ensures EmailShape(s) <==> MatchesEmailPattern(s)
  {
    if EmailShape(s) {
      ShapeGivesSplit(s);
    }
    if MatchesEmailPattern(s) {
      var i, j :| PatternSplit(s, i, j);
      SplitGivesShape(s, i, j);
    }
  }

  lemma ShapeGivesSplit(s: string)
    requires EmailShape(s)
    ensures MatchesEmailPattern(s)
  {
    var at := IndexOf(s, '@').value;
    var domain := s[at + 1..];
    assert '.' in domain[1..|domain| - 1];
    var k :| 0 <= k < |domain[1..|domain| - 1]| && domain[1..|domain| - 1][k] == '.';
    var j := at + 2 + k;
    assert s[j] == '.';
    assert Segment(s[..at]) by {
      forall m | 0 <= m < at ensures !IsSpace(s[..at][m]) && s[..at][m] != '@' {
        assert s[..at][m] == s[m];
        assert s[m] in s[..at];
      }
    }
    forall m | at + 1 <= m < |s| ensures !IsSpace(s[m]) && s[m] != '@' {
      assert s[m] == domain[m - at - 1];
      assert domain[m - at - 1] in domain;
    }
    assert Segment(s[at + 1..j]);
    assert Segment(s[j + 1..]);
    assert PatternSplit(s, at, j);
  }

  lemma SplitGivesShape(s: string, i: int, j: int)
    requires PatternSplit(s, i, j)
    ensures EmailShape(s)
  {
    assert NoSpace(s) by {
      forall m | 0 <= m < |s| ensures !IsSpace(s[m]) {
        if m < i { assert s[m] == s[..i][m]; }
        else if i < m < j { assert s[m] == s[i + 1..j][m - i - 1]; }
        else if m > j { assert s[m] == s[j + 1..][m - j - 1]; }
      }
    }
    assert '@' !in s[..i] by {
      forall m | 0 <= m < i ensures s[..i][m] != '@' {
      }
    }
    IndexOfFirst(s, '@', i);
    var domain := s[i + 1..];
    assert '@' !in domain by {
      forall m | 0 <= m < |domain| ensures domain[m] != '@' {
        if m < j - i - 1 { assert domain[m] == s[i + 1..j][m]; }
        else if m > j - i - 1 { assert domain[m] == s[j + 1..][m - (j - i)]; }
      }
    }
    assert domain[1..|domain| - 1][j - i - 2] == '.';
  }

  /** Number of occurrences of `c` in `s`. */
  function Count(s: string, c: char): nat
  {
    if s == [] then 0 else (if s[0] == c then 1 else 0) + Count(s[1..], c)
  }

  lemma {:induction false} CountAppend(a: string, b: string, c: char)
    ensures Count(a + b, c) == Count(a, c) + Count(b, c)
  {
    if a == [] {
      assert a + b == b;
    } else {
      assert (a + b)[1..] == a[1..] + b;
      CountAppend(a[1..], b, c);
    }
  }

  lemma {:induction false} CountAbsent(s: string, c: char)
    requires c !in s
    ensures Count(s, c) == 0
  {
    if s != [] {
      CountAbsent(s[1..], c);
    }
  }

  /** An accepted address has exactly one `@`, no white space, a
      non-empty local part, and a domain with a `.` between two non-empty
      parts. */
  lemma AcceptedEmailAnatomy(s: string)
    requires MatchesEmailPattern(s)
    ensures Count(s, '@') == 1
    ensures NoSpace(s)
    ensures EmailShape(s)
  {
    EmailShapeIsPattern(s);
    var at := IndexOf(s, '@').value;
    assert s == s[..at] + [s[at]] + s[at + 1..];
    CountAppend(s[..at] + [s[at]], s[at + 1..], '@');
    CountAppend(s[..at], [s[at]], '@');
    CountAbsent(s[..at], '@');
    CountAbsent(s[at + 1..], '@');
  }

  // ---- Validation ----

  /** Outcome of `validate`: pass, or the message it shows. */
  datatype Check = Pass | Fail(message: string)

  /** `validate`: the presence check (trimmed e-mail, raw password) comes
      first; the pattern is then tested on the e-mail as typed. */
  function Validate(email: string, password: string): (r: Check)
    ensures r == Fail(MissingFieldsMessage) <==> AllSpace(email) || password == []
    ensures r == Fail(InvalidEmailMessage) <==>
      !AllSpace(email) && password != [] && !MatchesEmailPattern(email)
    ensures r == Pass <==>
      !AllSpace(email) && password != [] && MatchesEmailPattern(email)
  {
    EmailShapeIsPattern(email);
    if Trim(email) == [] || password == [] then Fail(MissingFieldsMessage)
    else if !EmailShape(email) then Fail(InvalidEmailMessage)
    else Pass
  }

  /** Because the pattern is tested on the untrimmed e-mail, a valid
      address typed with a surrounding space passes the presence check and
      then fails the format check. */
  lemma SurroundingSpaceRejected(email: string, password: string)
    requires password != [] && !AllSpace(email)
    requires IsSpace(email[0]) || IsSpace(email[|email| - 1])
    ensures Validate(email, password) == Fail(InvalidEmailMessage)
  {
    if MatchesEmailPattern(email) {
      AcceptedEmailAnatomy(email);
      assert false;
    }
  }

  /** The signed-in user, as the stub returns it. */
  datatype User = User(email: string, name: string)

  datatype AuthResult = AuthResult(token: string, user: User)

  /** The demo `authenticate`: any e-mail with the demo password is
      accepted; everything else is rejected with one fixed message. */
  function Authenticate(email: string, password: string): (r: Result<AuthResult, string>)
    ensures r.Ok? <==> password == DemoPassword
    ensures r.Ok? ==> r.value == AuthResult(DemoToken, User(email, DemoName))
    ensures r.Err? ==> r.error == BadCredentialsMessage
  {
    if password == DemoPassword then Ok(AuthResult(DemoToken, User(email, DemoName)))
    else Err(BadCredentialsMessage)
  }

  /** What the browser stores hold: the token text or the user record. */
  datatype Stored = TokenEntry(token: string) | UserEntry(user: User)

  /** The part of the page a submission changes: the error banner, the
      busy flag, the persistent and per-tab stores, and the route. */
  datatype FormState = FormState(
    error: string,
    loading: bool,
    localStore: map<string, Stored>,
    sessionStore: map<string, Stored>,
    path: string)

  /** The state `handleSubmit` leaves behind, from the form event to the
      end of its `finally`. */
  function SubmitOutcome(email: string, password: string, remember: bool, before: FormState): (after: FormState)
    ensures after.error == [] <==> Validate(email, password) == Pass && password == DemoPassword
    ensures after.path != before.path ==> after.path == ProfilePath
    ensures after.path != before.path ==> Validate(email, password) == Pass && password == DemoPassword
    ensures after.loading ==> before.loading
    ensures after.localStore.Keys <= before.localStore.Keys + {"token", "user"}
    ensures after.sessionStore.Keys <= before.sessionStore.Keys + {"token"}
  {
    match Validate(email, password)
    case Fail(message) => before.(error := message)
    case Pass =>
      match Authenticate(email, password)
      case Err(message) => before.(error := message, loading := false)
      case Ok(result) =>
        var local := if remember then before.localStore["token" := TokenEntry(result.token)]
                     else before.localStore;
        var session := if remember then before.sessionStore
                       else before.sessionStore["token" := TokenEntry(result.token)];
        FormState([], false, local["user" := UserEntry(result.user)], session, ProfilePath)
  }

  /** An invalid form shows its validation message and stops: the stub is
      never called, nothing is stored, nothing navigates. */
  lemma InvalidFormNeverAuthenticates(email: string, password: string, remember: bool, before: FormState)
    requires Validate(email, password).Fail?
    ensures var after := SubmitOutcome(email, password, remember, before);
      && after.error == Validate(email, password).message
      && after.loading == before.loading
      && after.localStore == before.localStore && after.sessionStore == before.sessionStore
      && after.path == before.path
  {
  }

  /** A wrong password on a valid form shows the stub's message, stores
      nothing, stays on the page and clears the busy flag. */
  lemma WrongPasswordShowsMessage(email: string, password: string, remember: bool, before: FormState)
    requires Validate(email, password) == Pass && password != DemoPassword
    ensures var after := SubmitOutcome(email, password, remember, before);
      && after.error == BadCredentialsMessage && !after.loading
      && after.localStore == before.localStore && after.sessionStore == before.sessionStore
      && after.path == before.path
  {
  }

  /** Signing in: the token lands in the persistent store exactly when
      "remember me" is ticked and in the per-tab store otherwise; the user
      record always lands in the persistent store; the banner is cleared,
      the busy flag is off and the page moves to the profile. */
  lemma SignInStoresToken(email: string, password: string, remember: bool, before: FormState)
    requires Validate(email, password) == Pass && password == DemoPassword
    ensures var after := SubmitOutcome(email, password, remember, before);
      && after.error == [] && !after.loading && after.path == ProfilePath
      && after.localStore["user"] == UserEntry(User(email, DemoName))
      && (remember ==> "token" in after.localStore && after.localStore["token"] == TokenEntry(DemoToken))
      && (!remember ==> ("token" in after.localStore <==> "token" in before.localStore))
      && (!remember && "token" in before.localStore ==>
            after.localStore["token"] == before.localStore["token"])
      && (remember ==> after.sessionStore == before.sessionStore)
      && (!remember ==> after.sessionStore == before.sessionStore["token" := TokenEntry(DemoToken)])
      && (forall key :: key in before.localStore && key != "token" && key != "user" ==>
            key in after.localStore && after.localStore[key] == before.localStore[key])
  {
  }

  /** The login form with the two browser stores and the current route. */
  class LoginForm {
    var email: string
    var password: string
    var remember: bool
    var state: FormState

    constructor (local: map<string, Stored>, session: map<string, Stored>, at: string)
      ensures email == [] && password == [] && !remember
      ensures state == FormState([], false, local, session, at)
    {
      email, password, remember := [], [], false;
      state := FormState([], false, local, session, at);
    }

    method SetEmail(value: string)
      modifies this`email
      ensures email == value
    {
      email := value;
    }

    method SetPassword(value: string)
      modifies this`password
      ensures password == value
    {
      password := value;
    }

    method SetRemember(checked: bool)
      modifies this`remember
      ensures remember == checked
    {
      remember := checked;
    }

    /** `handleSubmit`: validate, then authenticate, store and redirect,
        or show the message; the busy flag is raised while waiting and
        lowered in `finally`. */
    method Submit()
      modifies this`state
      ensures state == SubmitOutcome(email, password, remember, old(state))
    {
      state := state.(error := []);
      var check := Validate(email, password);
      if check.Fail? {
        state := state.(error := check.message);
        return;
      }
      state := state.(loading := true, error := []);
      var auth := Authenticate(email, password);
      match auth {
        case Ok(result) =>
          if remember {
            state := state.(localStore := state.localStore["token" := TokenEntry(result.token)]);
          } else {
            state := state.(sessionStore := state.sessionStore["token" := TokenEntry(result.token)]);
          }
          state := state.(localStore := state.localStore["user" := UserEntry(result.user)]);
          state := state.(path := ProfilePath);
        case Err(message) =>
          state := state.(error := message);
      }
      state := state.(loading := false);
    }
  }
}
