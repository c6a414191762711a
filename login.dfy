/**
 * The login form (billing-ui `app/login.tsx`): the e-mail pattern, the rule
 * that enables the submit button, and the state changes of one submit.
 *
 * The call to the server is not modelled; its outcome is a parameter.
 */
module Login {
  import opened Text

  // ---------------------------------------------------------------------------
  // The e-mail pattern

  /** A character of the class `[^@\s]`. */
  predicate IsPlain(c: char) {
    c != '@' && !IsJsSpace(c)
  }

  /** A non-empty run of `[^@\s]`, that is `[^@\s]+`. */
  predicate PlainRun(s: string) {
    |s| > 0 && forall i :: 0 <= i < |s| ==> IsPlain(s[i])
  }

  /** `/^[^@\s]+@[^@\s]+\.[^@\s]+$/.test(s)`: the string splits as the pattern's three runs around `@` and `.`. */
  ghost predicate MatchesPattern(s: string) {
    exists a: string, b: string, c: string ::
      s == a + "@" + b + "." + c && PlainRun(a) && PlainRun(b) && PlainRun(c)
  }

  /** `d` has a `.` that is neither its first nor its last character. */
  predicate HasInnerDot(d: string) {
    exists j :: 1 <= j < |d| - 1 && d[j] == '.'
  }

  /**
   * The pattern as a rule: exactly one `@`, with a non-empty part before
   * it, a part after it with a `.` that is neither its first nor its last
   * character, and no white space anywhere.
   */
  predicate EmailValid(s: string) {
    var k := IndexOf(s, '@');
    && k > 0
    && PlainRun(s[..k])
    && (forall i :: k < i < |s| ==> IsPlain(s[i]))
    && HasInnerDot(s[k + 1..])
  }

  /** The rule holds exactly when the pattern matches. */
  lemma EmailValidMatchesPattern(s: string)
    ensures EmailValid(s) <==> MatchesPattern(s)
  {
    if EmailValid(s) {
      ValidSplit(s);
    }
    if MatchesPattern(s) {
      var a: string, b: string, c: string :| s == a + "@" + b + "." + c && PlainRun(a) && PlainRun(b) && PlainRun(c);
      PatternSplit(s, a, b, c);
    }
  }

  /** A valid address splits at its `@` and at an inner `.` of the domain into the pattern's three runs. */
  lemma ValidSplit(s: string)
    requires EmailValid(s)
    ensures MatchesPattern(s)
  {
    var k := IndexOf(s, '@');
    var d := s[k + 1..];
    var j :| 1 <= j < |d| - 1 && d[j] == '.';
    Reassemble(s, k, j);
    DomainPlain(s, k, d);
    PlainPieces(d, j);
    PatternWitness(s, s[..k], d[..j], d[j + 1..]);
  }

  /** Three runs around `@` and `.` that make up `s` witness the pattern. */
  lemma PatternWitness(s: string, a: string, b: string, c: string)
    requires s == a + "@" + b + "." + c && PlainRun(a) && PlainRun(b) && PlainRun(c)
    ensures MatchesPattern(s)
  {
  }

  /** `s` is the part before index `k`, the `@` there, and the domain after it cut at its `.` at `j`. */
  lemma Reassemble(s: string, k: nat, j: nat)
    requires k < |s| && s[k] == '@' && j < |s| - k - 1 && s[k + 1..][j] == '.'
    ensures s == s[..k] + "@" + s[k + 1..][..j] + "." + s[k + 1..][j + 1..]
  {
    var d := s[k + 1..];
    assert s == s[..k] + [s[k]] + d;
    assert d == d[..j] + [d[j]] + d[j + 1..];
  }

  /** Every character of `d`, the part after the `@` at `k`, is plain. */
  lemma DomainPlain(s: string, k: nat, d: string)
    requires k < |s| && d == s[k + 1..] && forall i :: k < i < |s| ==> IsPlain(s[i])
    ensures forall i :: 0 <= i < |d| ==> IsPlain(d[i])
  {
    forall i | 0 <= i < |d|
      ensures IsPlain(d[i])
    {
      assert d[i] == s[k + 1 + i];
    }
  }

  /** Cutting a plain string at an inner position `j` leaves two plain runs. */
  lemma PlainPieces(d: string, j: nat)
    requires 1 <= j < |d| - 1 && forall i :: 0 <= i < |d| ==> IsPlain(d[i])
    ensures PlainRun(d[..j]) && PlainRun(d[j + 1..])
  {
    var c := d[j + 1..];
    forall i | 0 <= i < |c|
      ensures IsPlain(c[i])
    {
      assert c[i] == d[j + 1 + i];
    }
  }

  /** For a match, the `@` is the first one and the rest follows from the three runs. */
  lemma PatternSplit(s: string, a: string, b: string, c: string)
    requires s == a + "@" + b + "." + c && PlainRun(a) && PlainRun(b) && PlainRun(c)
    ensures EmailValid(s)
  {
    var k := |a|;
    assert s[k] == '@';
    assert forall i :: 0 <= i < k ==> s[i] == a[i];
    assert IndexOf(s, '@') == k by {
      IndexOfFirst(s, '@', k);
    }
    assert s[..k] == a;
    var d := s[k + 1..];
    assert d == b + "." + c;
    assert d[|b|] == '.';
    forall i | k < i < |s|
      ensures IsPlain(s[i])
    {
      var t := i - k - 1;
      assert s[i] == d[t];
      if t < |b| {
        assert d[t] == b[t];
      } else if t > |b| {
        assert d[t] == c[t - |b| - 1];
      }
    }
  }

  /** An index holding `c` with no `c` before it is the one `IndexOf` finds. */
  lemma IndexOfFirst(s: string, c: char, k: nat)
    requires k < |s| && s[k] == c
    requires forall i :: 0 <= i < k ==> s[i] != c
    ensures IndexOf(s, c) == k
  {
    if k > 0 {
      IndexOfFirst(s[1..], c, k - 1);
    }
  }

  /** A valid address has exactly one `@`. */
  lemma ValidHasOneAt(s: string)
    requires EmailValid(s)
    ensures exists k :: 0 < k < |s| && s[k] == '@' && forall i :: 0 <= i < |s| && i != k ==> s[i] != '@'
  {
    var k := IndexOf(s, '@');
    assert forall i :: 0 <= i < k ==> IsPlain(s[..k][i]);
  }

  // ---------------------------------------------------------------------------
  // Button rule

  /** `emailInvalid`: a non-empty e-mail that fails the pattern. */
  predicate EmailInvalid(email: string) {
    email != "" && !EmailValid(email)
  }

  /** `canSubmit`: not flagged, an e-mail and a password typed, and no submit under way. */
  predicate CanSubmit(email: string, password: string, loading: bool) {
    !EmailInvalid(email) && email != "" && password != "" && !loading
  }

  /** An empty e-mail field is never flagged. */
  lemma EmptyEmailNotFlagged()
    ensures !EmailInvalid("")
  {
  }

  /** The button is enabled exactly for a non-empty matching e-mail, a non-empty password and no submit under way. */
  lemma CanSubmitIff(email: string, password: string, loading: bool)
    ensures CanSubmit(email, password, loading)
            <==> email != "" && MatchesPattern(email) && password != "" && !loading
  {
    EmailValidMatchesPattern(email);
  }

  // ---------------------------------------------------------------------------
  // One submit

  /** What `login(email, password)` did: it succeeded, or it threw with the server's message, if any. */
  datatype LoginOutcome = Succeeded | Failed(message: Option<string>)

  const DefaultError := "Invalid email or password."

  /** `e?.response?.data?.message || 'Invalid email or password.'`. */
  function ErrorMessage(message: Option<string>): (m: string)
    ensures message.Some? && message.value != "" ==> m == message.value
    ensures message.None? || message.value == "" ==> m == DefaultError
    ensures m != ""
  {
    if message.Some? && message.value != "" then message.value else DefaultError
  }

  /** The state of the screen: its fields and whether it has gone to `/`. */
  class LoginForm {
    var email: string
    var password: string
    var loading: bool
    var err: Option<string>
    var navigatedHome: bool

    constructor ()
      ensures email == "" && password == "" && !loading && err.None? && !navigatedHome
    {
      email := "";
      password := "";
      loading := false;
      err := None;
      navigatedHome := false;
    }

    /** `canSubmit` on the current fields. */
    predicate Enabled()
      reads this
    {
      CanSubmit(email, password, loading)
    }

    /**
     * The synchronous part of `onSubmit`: nothing when the button rule
     * fails, otherwise the submit starts with `loading` set and `err`
     * cleared.
     */
    method Start() returns (started: bool)
      modifies this
      ensures started == old(Enabled())
      ensures !started ==> loading == old(loading) && err == old(err)
      ensures started ==> loading && err.None?
      ensures email == old(email) && password == old(password) && navigatedHome == old(navigatedHome)
    {
      if !CanSubmit(email, password, loading) {
        return false;
      }
      loading := true;
      err := None;
      started := true;
    }

    /**
     * The rest of `onSubmit` once `login` settles: success goes to `/`,
     * failure shows the message, and `loading` is cleared either way.
     */
    method Settle(outcome: LoginOutcome)
      modifies this
      ensures !loading
      ensures outcome.Succeeded? ==> navigatedHome && err == old(err)
      ensures outcome.Failed? ==> err == Some(ErrorMessage(outcome.message)) && navigatedHome == old(navigatedHome)
      ensures email == old(email) && password == old(password)
    {
      match outcome {
        case Succeeded =>
          navigatedHome := true;
        case Failed(message) =>
          err := Some(ErrorMessage(message));
      }
      loading := false;
    }

    /** A whole submit: nothing at all when the button rule fails, else `Start` and `Settle` in turn. */
    method Submit(outcome: LoginOutcome) returns (started: bool)
      modifies this
      ensures started == old(Enabled())
      ensures !started ==> loading == old(loading) && err == old(err) && navigatedHome == old(navigatedHome)
      ensures started ==> !loading
      ensures started && outcome.Succeeded? ==> navigatedHome && err.None?
      ensures started && outcome.Failed? ==> err == Some(ErrorMessage(outcome.message)) && navigatedHome == old(navigatedHome)
      ensures email == old(email) && password == old(password)
    {
      started := Start();
      if started {
        Settle(outcome);
      }
    }
  }
}
