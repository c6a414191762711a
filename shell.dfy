/**
 * Display helpers of the application shell (billing-ui `src/layout/shell.tsx`):
 * the page title derived from the route path, the avatar initials, the
 * name/e-mail fall-backs shown for the signed-in user, and the test that
 * marks a navigation entry active. Letter case is mapped on ASCII only.
 */
module Shell {
  import opened Text

  // ---------------------------------------------------------------------------
  // Page title

  predicate IsSlash(c: char) { c == '/' }

  /** `titleFromPath`: `Dashboard` for the root, else the first path segment with its first letter upper-cased. */
  function TitleFromPath(p: string): (r: string)
    ensures p == "" || p == "/" ==> r == "Dashboard"
    ensures p != "" && p != "/" ==> '/' !in r
  {
    if p == "" || p == "/" then "Dashboard"
    else
      var name := Explode(TrimStart(p, IsSlash), '/')[0];
      ExplodeNoSep(TrimStart(p, IsSlash), '/');
      if name == [] then [] else [ToUpper(name[0])] + name[1..]
  }

  /**
   * Away from the root, the title is the text between the leading slashes
   * and the next `/` (or the end), with only its first character changed,
   * and that character upper-cased.
   */
  lemma TitleIsFirstSegment(p: string)
    requires p != "" && p != "/"
    ensures var q := TrimStart(p, IsSlash);
            var k := IndexOf(q, '/');
            var name := if k == -1 then q else q[..k];
            && |TitleFromPath(p)| == |name|
            && (name != [] ==> TitleFromPath(p)[0] == ToUpper(name[0]) && TitleFromPath(p)[1..] == name[1..])
  {
    ExplodeFirst(TrimStart(p, IsSlash), '/');
  }

  /** A path made only of two or more slashes has an empty title. */
  lemma TitleOfSlashes(p: string)
    requires |p| >= 2 && forall i :: 0 <= i < |p| ==> p[i] == '/'
    ensures TitleFromPath(p) == ""
  {
    assert p != "/" by { assert |"/"| == 1; }
    assert TrimStart(p, IsSlash) == [];
  }

  /** A path `/seg/rest` (such as `/invoices/12`) is titled by `seg` with its first letter upper-cased. */
  lemma TitleOfSegment(seg: string, rest: string)
    requires seg != [] && '/' !in seg
    ensures TitleFromPath("/" + seg + "/" + rest) == [ToUpper(seg[0])] + seg[1..]
  {
    var p := "/" + seg + "/" + rest;
    var q := seg + "/" + rest;
    assert p[1..] == q;
    assert TrimStart(q, IsSlash) == q by { assert q[0] == seg[0]; }
    assert IndexOf(q, '/') == |seg| by {
      assert q[|seg|] == '/' && q[..|seg|] == seg;
    }
    TitleIsFirstSegment(p);
    assert q[..|seg|] == seg;
  }

  // ---------------------------------------------------------------------------
  // Splitting on white space

  /**
   * JavaScript `s.split(/\s+/)` for the white-space class `isSpace`: `s`
   * cut at every maximal run of white space; white space at either end
   * leaves an empty piece there.
   */
  function SplitWs(s: string, isSpace: char -> bool): (parts: seq<string>)
    ensures |parts| >= 1
  {
    if s == [] then [[]]
    else
      var rest := SplitWs(s[1..], isSpace);
      if !isSpace(s[0]) then [[s[0]] + rest[0]] + rest[1..]
      else if |s| > 1 && isSpace(s[1]) then rest
      else [[]] + rest
  }

  /** `w` holds no character of the class `isSpace`. */
  predicate NoSpace(w: string, isSpace: char -> bool) {
    forall j :: 0 <= j < |w| ==> !isSpace(w[j])
  }

  /** The index of the last white-space character of `s`, or -1 when there is none. */
  function LastSpace(s: string, isSpace: char -> bool): (k: int)
    ensures -1 <= k < |s|
    ensures k >= 0 ==> isSpace(s[k])
    ensures NoSpace(s[k + 1..], isSpace)
  {
    if s == [] then -1
    else if isSpace(s[|s| - 1]) then |s| - 1
    else
      var k := LastSpace(s[..|s| - 1], isSpace);
      assert s[k + 1..] == s[..|s| - 1][k + 1..] + [s[|s| - 1]];
      k
  }

  /** No piece of the split holds white space. */
  lemma {:induction false} SplitWsNoSpace(s: string, isSpace: char -> bool)
    ensures forall i :: 0 <= i < |SplitWs(s, isSpace)| ==> NoSpace(SplitWs(s, isSpace)[i], isSpace)
  {
    if s != [] {
      SplitWsNoSpace(s[1..], isSpace);
    }
  }

  /** The split has a single piece exactly when `s` holds no white space. */
  lemma {:induction false} SplitWsSingle(s: string, isSpace: char -> bool)
    ensures |SplitWs(s, isSpace)| == 1 <==> NoSpace(s, isSpace)
  {
    if s != [] {
      SplitWsSingle(s[1..], isSpace);
      assert forall k :: 1 <= k < |s| ==> s[k] == s[1..][k - 1];
    }
  }

  /** A string without white space is its own only piece. */
  lemma {:induction false} SplitWsWithoutSpace(s: string, isSpace: char -> bool)
    requires NoSpace(s, isSpace)
    ensures SplitWs(s, isSpace) == [s]
  {
    if s != [] {
      SplitWsWithoutSpace(s[1..], isSpace);
      assert [s[0]] + s[1..] == s;
    }
  }

  /** A string that starts with a non-space character gives a first piece starting with that character. */
  lemma SplitWsFirst(s: string, isSpace: char -> bool)
    requires s != [] && !isSpace(s[0])
    ensures SplitWs(s, isSpace)[0] != [] && SplitWs(s, isSpace)[0][0] == s[0]
  {
  }

  /** When `s` does not end in white space, every piece after the first is non-empty. */
  lemma {:induction false} SplitWsLaterPiecesNonEmpty(s: string, isSpace: char -> bool)
    requires s == [] || !isSpace(s[|s| - 1])
    ensures forall i :: 1 <= i < |SplitWs(s, isSpace)| ==> SplitWs(s, isSpace)[i] != []
  {
    if s != [] && |s| > 1 {
      SplitWsLaterPiecesNonEmpty(s[1..], isSpace);
      if isSpace(s[0]) && !isSpace(s[1]) {
        SplitWsFirst(s[1..], isSpace);
      }
    }
  }

  /** The last piece of `s` is that of `s[1..]` when `s[1..]` has a white-space character at `k - 1`. */
  lemma SplitWsLastOfTail(s: string, k: int, isSpace: char -> bool)
    requires 1 <= k < |s| && isSpace(s[k])
    ensures var rest := SplitWs(s[1..], isSpace);
            SplitWs(s, isSpace)[|SplitWs(s, isSpace)| - 1] == rest[|rest| - 1]
  {
    var rest := SplitWs(s[1..], isSpace);
    if !isSpace(s[0]) {
      assert |rest| >= 2 by {
        SplitWsSingle(s[1..], isSpace);
        assert isSpace(s[1..][k - 1]);
      }
      LastAfterFirstReplaced([s[0]] + rest[0], rest);
    }
  }

  /** Replacing the first element of a sequence of two or more keeps its last element. */
  lemma LastAfterFirstReplaced(x: string, rest: seq<string>)
    requires |rest| >= 2
    ensures var u := [x] + rest[1..]; u[|u| - 1] == rest[|rest| - 1]
  {
  }

  /**
   * When `s` does not end in white space and `k` is the index of its last
   * white-space character (or -1), the last piece is everything after `k`.
   */
  lemma {:induction false} SplitWsLast(s: string, k: int, isSpace: char -> bool)
    requires s != [] && !isSpace(s[|s| - 1])
    requires -1 <= k < |s| && (k >= 0 ==> isSpace(s[k])) && NoSpace(s[k + 1..], isSpace)
    ensures SplitWs(s, isSpace)[|SplitWs(s, isSpace)| - 1] == s[k + 1..]
  {
    if k == -1 {
      assert s[k + 1..] == s;
      SplitWsWithoutSpace(s, isSpace);
    } else if k == 0 {
      SplitWsWithoutSpace(s[1..], isSpace);
    } else {
      assert s[1..][k..] == s[k + 1..];
      SplitWsLast(s[1..], k - 1, isSpace);
      SplitWsLastOfTail(s, k, isSpace);
    }
  }

  // ---------------------------------------------------------------------------
  // Initials

  /**
   * `getInitials`: `U` for the empty string; the upper-cased first character
   * when an `@` occurs after the first position; otherwise the first letters
   * of the first and last white-space separated words of the trimmed text,
   * or of its only word, or `U` when there is no word.
   */
  function GetInitials(s: string): (r: string)
    ensures 1 <= |r| <= 2
    ensures s == [] ==> r == "U"
    ensures IndexOf(s, '@') > 0 ==> r == [ToUpper(s[0])]
  {
    if s == [] then "U"
    else if IndexOf(s, '@') > 0 then [ToUpper(s[0])]
    else WordInitials(Trim(s, IsJsSpace))
  }

  /** `t` has no white space at either end, as `trim()` leaves it. */
  predicate Trimmed(t: string) {
    t == [] || (!IsJsSpace(t[0]) && !IsJsSpace(t[|t| - 1]))
  }

  /** The initials of the trimmed text `t`, from the pieces of `t.split(/\s+/)`. */
  function WordInitials(t: string): (r: string)
    requires Trimmed(t)
    ensures 1 <= |r| <= 2
  {
    var parts := SplitWs(t, IsJsSpace);
    if |parts| == 1 then
      if parts[0] == [] then "U" else [ToUpper(parts[0][0])]
    else
      SplitWsFirst(t, IsJsSpace);
      SplitWsLaterPiecesNonEmpty(t, IsJsSpace);
      [ToUpper(parts[0][0]), ToUpper(parts[|parts| - 1][0])]
  }

  /**
   * The initials of trimmed text: `U` when it is empty, its first character
   * when it is one word, and otherwise its first character and the
   * character after its last white space.
   */
  lemma WordInitialsCases(t: string)
    requires Trimmed(t)
    ensures t == [] ==> WordInitials(t) == "U"
    ensures t != [] && NoSpace(t, IsJsSpace) ==> WordInitials(t) == [ToUpper(t[0])]
    ensures !NoSpace(t, IsJsSpace) ==>
              t != [] && WordInitials(t) == [ToUpper(t[0]), ToUpper(t[LastSpace(t, IsJsSpace) + 1])]
  {
    if t != [] {
      if NoSpace(t, IsJsSpace) {
        OneWordInitials(t);
      } else {
        SeveralWordsInitials(t);
      }
    }
  }

  /** A single word gives its own first character. */
  lemma OneWordInitials(t: string)
    requires t != [] && Trimmed(t) && NoSpace(t, IsJsSpace)
    ensures WordInitials(t) == [ToUpper(t[0])]
  {
    SplitWsWithoutSpace(t, IsJsSpace);
  }

  /** Several words give the first character and the one after the last white space. */
  lemma SeveralWordsInitials(t: string)
    requires Trimmed(t) && !NoSpace(t, IsJsSpace)
    ensures t != [] && WordInitials(t) == [ToUpper(t[0]), ToUpper(t[LastSpace(t, IsJsSpace) + 1])]
  {
    SeveralWordsPieces(t);
  }

  /** Trimmed text with white space splits into two or more pieces: the first starts the text, the last follows its last white space. */
  lemma SeveralWordsPieces(t: string)
    requires Trimmed(t) && !NoSpace(t, IsJsSpace)
    ensures var parts := SplitWs(t, IsJsSpace);
            && t != [] && |parts| >= 2 && parts[0] != [] && parts[0][0] == t[0]
            && parts[|parts| - 1] == t[LastSpace(t, IsJsSpace) + 1..]
  {
    SplitWsSingle(t, IsJsSpace);
    SplitWsFirst(t, IsJsSpace);
    SplitWsLast(t, LastSpace(t, IsJsSpace), IsJsSpace);
  }

  /**
   * Without an `@` after the first position, the initials come from the
   * trimmed text `t`: `U` when it is empty (the input was all white space),
   * its first character when it is one word, and otherwise its first
   * character and the character after its last white space.
   */
  lemma InitialsOfText(s: string)
    requires IndexOf(s, '@') <= 0
    ensures var t := Trim(s, IsJsSpace);
            && (t == [] ==> GetInitials(s) == "U")
            && (t != [] && NoSpace(t, IsJsSpace) ==> GetInitials(s) == [ToUpper(t[0])])
            && (!NoSpace(t, IsJsSpace) ==>
                  t != [] && GetInitials(s) == [ToUpper(t[0]), ToUpper(t[LastSpace(t, IsJsSpace) + 1])])
  {
    WordInitialsCases(Trim(s, IsJsSpace));
  }

  /** An input made only of white space has initials `U`. */
  lemma InitialsOfBlank(s: string)
    requires forall k :: 0 <= k < |s| ==> IsJsSpace(s[k])
    ensures GetInitials(s) == "U"
  {
    InitialsOfText(s);
  }

  /** An `@` in first position does not select the e-mail rule: a one-word `@...` input has initials `@`. */
  lemma InitialsLeadingAt(s: string)
    requires s != [] && s[0] == '@' && NoSpace(s, IsJsSpace)
    ensures GetInitials(s) == "@"
  {
    TrimWithoutSpace(s, IsJsSpace);
    assert IndexOf(s, '@') == 0;
    InitialsOfText(s);
  }

  // ---------------------------------------------------------------------------
  // Signed-in user

  /** The stored user; `None` fields are absent (null or undefined). */
  datatype User = User(name: Option<string>, email: Option<string>)

  /** `displayEmail`: the e-mail when present (even empty), else `Not signed in`. */
  function DisplayEmail(u: Option<User>): (r: string)
    ensures u.Some? && u.value.email.Some? ==> r == u.value.email.value
    ensures u.None? || u.value.email.None? ==> r == "Not signed in"
  {
    if u.Some? && u.value.email.Some? then u.value.email.value else "Not signed in"
  }

  /** JavaScript truthiness of an optional string: present and non-empty. */
  predicate Truthy(s: Option<string>) {
    s.Some? && s.value != ""
  }

  /** `displayName`: the name when present (even empty), else the e-mail text before its first `@`, else `User`. */
  function DisplayName(u: Option<User>): string {
    if u.Some? && u.value.name.Some? then u.value.name.value
    else if u.Some? && Truthy(u.value.email) then Explode(u.value.email.value, '@')[0]
    else "User"
  }

  /** The displayed name falls back to the part of the e-mail before the first `@`, which holds no `@`. */
  lemma DisplayNameFallback(u: Option<User>)
    ensures u.Some? && u.value.name.Some? ==> DisplayName(u) == u.value.name.value
    ensures (u.None? || u.value.name.None?) && u.Some? && Truthy(u.value.email) ==>
              var e := u.value.email.value;
              var k := IndexOf(e, '@');
              DisplayName(u) == (if k == -1 then e else e[..k]) && '@' !in DisplayName(u)
    ensures (u.None? || u.value.name.None?) && !(u.Some? && Truthy(u.value.email)) ==> DisplayName(u) == "User"
  {
    if u.Some? && Truthy(u.value.email) {
      ExplodeFirst(u.value.email.value, '@');
    }
  }

  /** The text the avatar initials are taken from: `name || email || 'U'`. */
  function InitialsSource(u: Option<User>): (r: string)
    ensures r != ""
    ensures u.Some? && Truthy(u.value.name) ==> r == u.value.name.value
    ensures u.Some? && !Truthy(u.value.name) && Truthy(u.value.email) ==> r == u.value.email.value
    ensures (u.None? || (!Truthy(u.value.name) && !Truthy(u.value.email))) ==> r == "U"
  {
    if u.Some? && Truthy(u.value.name) then u.value.name.value
    else if u.Some? && Truthy(u.value.email) then u.value.email.value
    else "U"
  }

  function Initials(u: Option<User>): string {
    GetInitials(InitialsSource(u))
  }

  /**
   * An empty name is shown as the (empty) display name, yet the initials
   * skip it and come from the e-mail: for `ann@x.io` they are `A`.
   */
  lemma EmptyNameDisplayedButSkipped(email: string)
    requires email != "" && IndexOf(email, '@') > 0
    ensures DisplayName(Some(User(Some(""), Some(email)))) == ""
    ensures Initials(Some(User(Some(""), Some(email)))) == [ToUpper(email[0])]
  {
  }

  // ---------------------------------------------------------------------------
  // Navigation

  /** The `href` of each navigation entry, in display order. */
  const NavHrefs: seq<string> := ["/", "/clients", "/invoices", "/payments", "/gst"]

  /** A navigation entry is active when the current path is exactly its `href`. */
  predicate NavActive(path: string, href: string) {
    path == href
  }

  /** At most one entry is active for any path, and one is exactly when the path is an entry's `href`. */
  lemma AtMostOneActive(path: string)
    ensures forall i, j :: 0 <= i < j < |NavHrefs| ==> !(NavActive(path, NavHrefs[i]) && NavActive(path, NavHrefs[j]))
    ensures (exists i :: 0 <= i < |NavHrefs| && NavActive(path, NavHrefs[i])) <==> path in NavHrefs
  {
    assert forall i, j :: 0 <= i < j < |NavHrefs| ==> NavHrefs[i] != NavHrefs[j] by {
      assert NavHrefs[0] != NavHrefs[1] && NavHrefs[0] != NavHrefs[2] && NavHrefs[0] != NavHrefs[3] && NavHrefs[0] != NavHrefs[4];
      assert NavHrefs[1][1] != NavHrefs[2][1] && NavHrefs[1][1] != NavHrefs[3][1] && NavHrefs[1][1] != NavHrefs[4][1];
      assert NavHrefs[2][1] != NavHrefs[3][1] && NavHrefs[2][1] != NavHrefs[4][1];
      assert NavHrefs[3][1] != NavHrefs[4][1];
    }
  }

  /** A sub-page such as `/invoices/12` activates no entry. */
  lemma SubPageActivatesNothing()
    ensures forall i :: 0 <= i < |NavHrefs| ==> !NavActive("/invoices/12", NavHrefs[i])
  {
    assert forall i :: 0 <= i < |NavHrefs| ==> |NavHrefs[i]| <= 9;
  }
}
