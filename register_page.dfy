/** The registration page (src/pages/Register.tsx): the check chain run before calling
    `register`, including the e-mail pattern `^[^\s@]+@[^\s@]+\.[^\s@]+$`, and the
    navigation to /login after a successful registration. */
module RegisterPage {
  import opened Wrappers
  import opened Types
  import opened Text

  // ---- The e-mail pattern ----

  /** A character that `[^\s@]` matches. */
  predicate Allowed(c: char) {
    !IsSpace(c) && c != '@'
  }

  predicate AllowedRange(s: string, lo: int, hi: int)
    requires 0 <= lo && hi <= |s|
  {
    forall m :: lo <= m < hi ==> Allowed(s[m])
  }

  /** The pattern read as one split: `s[..i]` is the local part, `s[i]` the '@', `s[j]` the
      '.' before the last group, and every other character is neither '@' nor white space. */
  predicate EmailSplit(s: string, i: int, j: int) {
    0 < i && i + 1 < j && j + 1 < |s| && s[i] == '@' && s[j] == '.'
    && AllowedRange(s, 0, i) && AllowedRange(s, i + 1, |s|)
  }

  /** What `emailRegex.test(email)` decides. */
  ghost predicate MatchesEmailPattern(s: string) {
    exists i, j :: EmailSplit(s, i, j)
  }

  /** The states of a left-to-right scan that decides the pattern: the local part, the '@',
      the domain, a '.' that has a domain character before it, and a complete address. */
  datatype ScanState = Start | Local | AfterAt | Domain | AfterDot | Done | Fail

  function Step(q: ScanState, c: char): ScanState {
    if !Allowed(c) && !(c == '@' && q == Local) then Fail
    else match q
      case Start => Local
      case Local => if c == '@' then AfterAt else Local
      case AfterAt => Domain
      case Domain => if c == '.' then AfterDot else Domain
      case AfterDot => Done
      case Done => Done
      case Fail => Fail
  }

  function Scan(q: ScanState, s: string, k: nat): ScanState
    requires k <= |s|
    decreases |s| - k
  {
    if k == |s| then q else Scan(Step(q, s[k]), s, k + 1)
  }

  /** The scan's verdict on a whole address: it accepts exactly the addresses the pattern
      matches. */
  function EmailValid(s: string): (b: bool)
    ensures b <==> MatchesEmailPattern(s)
  {
    ScanIffPattern(s);
    Scan(Start, s, 0) == Done
  }

  /** A '.' at `j`, not before `lo`, with at least one character after it. */
  predicate DotAt(s: string, j: int, lo: int) {
    0 <= lo <= j && j + 1 < |s| && s[j] == '.'
  }

  ghost predicate HasDot(s: string, lo: int) {
    exists j :: DotAt(s, j, lo)
  }

  /** An '@' at `i`, not before `lo`, followed by a domain that the pattern accepts. */
  ghost predicate AtAt(s: string, i: int, lo: int) {
    0 <= lo <= i < |s| && s[i] == '@' && AllowedRange(s, lo, i) && AllowedRange(s, i + 1, |s|)
    && HasDot(s, i + 2)
  }

  ghost predicate HasAt(s: string, lo: int) {
    exists i :: AtAt(s, i, lo)
  }

  lemma {:induction false} ScanFail(s: string, k: nat)
    requires k <= |s|
    ensures Scan(Fail, s, k) == Fail
    decreases |s| - k
  {
    if k < |s| {
      ScanFail(s, k + 1);
    }
  }

  lemma {:induction false} ScanDone(s: string, k: nat)
    requires k <= |s|
    ensures Scan(Done, s, k) == Done <==> AllowedRange(s, k, |s|)
    decreases |s| - k
  {
    if k < |s| {
      if Allowed(s[k]) {
        ScanDone(s, k + 1);
      } else {
        ScanFail(s, k + 1);
      }
    }
  }

  lemma ScanAfterDot(s: string, k: nat)
    requires k <= |s|
    ensures Scan(AfterDot, s, k) == Done <==> k < |s| && AllowedRange(s, k, |s|)
  {
    if k < |s| {
      if Allowed(s[k]) {
        ScanDone(s, k + 1);
      } else {
        ScanFail(s, k + 1);
      }
    }
  }

  lemma {:induction false} ScanDomain(s: string, k: nat)
    requires k <= |s|
    ensures Scan(Domain, s, k) == Done <==> AllowedRange(s, k, |s|) && HasDot(s, k)
    decreases |s| - k
  {
    if k < |s| {
      if !Allowed(s[k]) {
        ScanFail(s, k + 1);
      } else if s[k] == '.' {
        ScanAfterDot(s, k + 1);
        if k + 1 < |s| {
          assert DotAt(s, k, k);
        }
      } else {
        ScanDomain(s, k + 1);
        if HasDot(s, k) {
          var j :| DotAt(s, j, k);
          assert DotAt(s, j, k + 1);
        }
        if HasDot(s, k + 1) {
          var j :| DotAt(s, j, k + 1);
          assert DotAt(s, j, k);
        }
      }
    }
  }

  lemma ScanAfterAt(s: string, k: nat)
    requires k <= |s|
    ensures Scan(AfterAt, s, k) == Done <==> AllowedRange(s, k, |s|) && HasDot(s, k + 1)
  {
    if k < |s| {
      if !Allowed(s[k]) {
        ScanFail(s, k + 1);
      } else {
        ScanDomain(s, k + 1);
      }
    }
  }

  lemma {:induction false} ScanLocal(s: string, k: nat)
    requires k <= |s|
    ensures Scan(Local, s, k) == Done <==> HasAt(s, k)
    decreases |s| - k
  {
    if k < |s| {
      forall i | k < i < |s| && !Allowed(s[k])
        ensures !AtAt(s, i, k)
      {
        assert !Allowed(s[k]);
      }
      if s[k] == '@' {
        ScanAfterAt(s, k + 1);
        if Scan(Local, s, k) == Done {
          assert AtAt(s, k, k);
        }
      } else if !Allowed(s[k]) {
        ScanFail(s, k + 1);
      } else {
        ScanLocal(s, k + 1);
        if HasAt(s, k) {
          var i :| AtAt(s, i, k);
          assert i != k;
          assert AtAt(s, i, k + 1);
        }
        if HasAt(s, k + 1) {
          var i :| AtAt(s, i, k + 1);
          assert AtAt(s, i, k);
        }
      }
    }
  }

  /** The scan from the start state ends in `Done` exactly on the addresses the pattern
      matches. */
  lemma ScanIffPattern(s: string)
    ensures Scan(Start, s, 0) == Done <==> MatchesEmailPattern(s)
  {
    if s != [] {
      if MatchesEmailPattern(s) {
        var i, j :| EmailSplit(s, i, j);
        assert Allowed(s[0]);
        ScanLocal(s, 1);
        assert DotAt(s, j, i + 2);
        assert AtAt(s, i, 1);
      }
      if Scan(Start, s, 0) == Done {
        if Allowed(s[0]) {
          ScanLocal(s, 1);
          var i :| AtAt(s, i, 1);
          var j :| DotAt(s, j, i + 2);
          assert EmailSplit(s, i, j);
        } else {
          ScanFail(s, 1);
        }
      }
    }
  }

  /** Examples of the pattern's verdicts. */
  lemma EmailExamples()
    ensures EmailValid("muser@example.com")
    ensures !EmailValid("muser@example")
    ensures !EmailValid("@example.com")
  {
    var good := "muser@example.com";
    assert EmailSplit(good, 5, 13);
    var noDot := "muser@example";
    assert forall k :: 0 <= k < |noDot| ==> noDot[k] != '.';
  }

  // ---- The check chain ----

  const AllFieldsRequired := "All fields are required"
  const PasswordsDiffer := "Passwords do not match"
  const InvalidEmail := "Please enter a valid email address"
  const PasswordTooShort := "Password must be at least 6 characters"

  /** The first failing check, in source order: an empty field, differing passwords, an
      address the pattern rejects, a password under six characters. */
  function RegisterError(username: string, email: string, password: string, confirmPassword: string): (r: Option<string>)
    ensures (username == "" || email == "" || password == "" || confirmPassword == "") ==>
      r == Some(AllFieldsRequired)
    ensures r.None? <==>
      username != "" && email != "" && password != "" && confirmPassword != ""
      && password == confirmPassword && MatchesEmailPattern(email) && |password| >= 6
  {
    if username == "" || email == "" || password == "" || confirmPassword == "" then Some(AllFieldsRequired)
    else if password != confirmPassword then Some(PasswordsDiffer)
    else if !EmailValid(email) then Some(InvalidEmail)
    else if |password| < 6 then Some(PasswordTooShort)
    else None
  }

  /** The first failure wins: each message appears exactly when every earlier check passed
      and its own check failed. */
  lemma FirstFailureWins(username: string, email: string, password: string, confirmPassword: string)
    ensures var filled := username != "" && email != "" && password != "" && confirmPassword != "";
      (RegisterError(username, email, password, confirmPassword) == Some(PasswordsDiffer) <==>
         filled && password != confirmPassword)
      && (RegisterError(username, email, password, confirmPassword) == Some(InvalidEmail) <==>
         filled && password == confirmPassword && !MatchesEmailPattern(email))
      && (RegisterError(username, email, password, confirmPassword) == Some(PasswordTooShort) <==>
         filled && password == confirmPassword && MatchesEmailPattern(email) && |password| < 6)
  {
  }

  /** Six characters is long enough; five is not. */
  lemma PasswordLengthBoundary()
    ensures RegisterError("muser", "muser@example.com", "abcdef", "abcdef").None?
    ensures RegisterError("muser", "muser@example.com", "abcde", "abcde") == Some(PasswordTooShort)
  {
    EmailExamples();
  }

  /** The arguments `register` receives. */
  datatype RegisterCall = RegisterCall(username: string, email: string, password: string, userType: Role)

  class RegisterForm {
    var username: string
    var email: string
    var password: string
    var confirmPassword: string
    var userType: Role
    var error: string

    /** Empty fields, the seeker role preselected, no error. */
    constructor ()
      ensures username == "" && email == "" && password == "" && confirmPassword == ""
      ensures userType == Seeker && error == ""
    {
      username, email, password, confirmPassword := "", "", "", "";
      userType, error := Seeker, "";
    }

    /** `handleSubmit`. The error is cleared, then the first failing check sets its message
        and stops. Only when every check passes is `register` called (the result says with
        what); `registered` is what that call resolves to, and /login follows only when it is
        true. */
    method Submit(registered: bool) returns (call: Option<RegisterCall>, navigateToLogin: bool)
      modifies this
      ensures var e := RegisterError(username, email, password, confirmPassword);
        (call.Some? <==> e.None?) && (e.Some? ==> error == e.value) && (e.None? ==> error == "")
      ensures call.Some? ==> call.value == RegisterCall(username, email, password, userType)
      ensures navigateToLogin <==> call.Some? && registered
      ensures username == old(username) && email == old(email) && password == old(password)
      ensures confirmPassword == old(confirmPassword) && userType == old(userType)
    {
      error := "";
      var e := RegisterError(username, email, password, confirmPassword);
      if e.Some? {
        error := e.value;
        return None, false;
      }
      call := Some(RegisterCall(username, email, password, userType));
      navigateToLogin := registered;
    }
  }
}
