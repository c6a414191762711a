/**
 * Small string and number helpers shared by the models of the backend (PHP)
 * and the client (TypeScript): an Option type, the white-space classes of
 * the two languages, ASCII case mapping, single-character splitting
 * (PHP `explode`, JS `split`) and decimal rendering of integers.
 */
module Text {

  datatype Option<+T> = None | Some(value: T) {
    function GetOr(default: T): T {
      match this
      case Some(v) => v
      case None => default
    }
  }

  // ---------------------------------------------------------------------------
  // Character classes

  /** The characters JavaScript's `trim` and the regular-expression class `\s` treat as white space. */
  predicate IsJsSpace(c: char) {
    || c == '\t' || c == '\n' || c == '\U{000B}' || c == '\U{000C}' || c == '\r' || c == ' '
    || c == '\U{00A0}' || c == '\U{1680}' || ('\U{2000}' <= c <= '\U{200A}')
    || c == '\U{2028}' || c == '\U{2029}' || c == '\U{202F}' || c == '\U{205F}'
    || c == '\U{3000}' || c == '\U{FEFF}'
  }

  /** The characters PHP's `trim` strips by default: space, tab, newline, carriage return, NUL and vertical tab. */
  predicate IsPhpSpace(c: char) {
    c == ' ' || c == '\t' || c == '\n' || c == '\r' || c == '\0' || c == '\U{000B}'
  }

  predicate IsDigit(c: char) { '0' <= c <= '9' }

  /** ASCII upper-casing of one character; every other character is left alone. */
  function ToUpper(c: char): (u: char)
    ensures 'a' <= c <= 'z' ==> 'A' <= u <= 'Z' && u as int == c as int - 32
    ensures !('a' <= c <= 'z') ==> u == c
  {
    if 'a' <= c <= 'z' then (c as int - 32) as char else c
  }

  /** ASCII lower-casing of one character; every other character is left alone. */
  function ToLower(c: char): (l: char)
    ensures 'A' <= c <= 'Z' ==> 'a' <= l <= 'z' && l as int == c as int + 32
    ensures !('A' <= c <= 'Z') ==> l == c
  {
    if 'A' <= c <= 'Z' then (c as int + 32) as char else c
  }

  function LowerString(s: string): (r: string)
    ensures |r| == |s| && forall i :: 0 <= i < |s| ==> r[i] == ToLower(s[i])
  {
    if s == [] then [] else [ToLower(s[0])] + LowerString(s[1..])
  }

  predicate HasPrefix(s: string, p: string) {
    |p| <= |s| && s[..|p|] == p
  }

  /** `s` starts with the lower-case text `p` when ASCII letter case is ignored (a regular expression with the `i` flag). */
  predicate HasPrefixIgnoringCase(s: string, p: string) {
    |p| <= |s| && forall i :: 0 <= i < |p| ==> ToLower(s[i]) == p[i]
  }

  // ---------------------------------------------------------------------------
  // Trimming

  /** `s` without its leading characters of the class `isSpace`. */
  function TrimStart(s: string, isSpace: char -> bool): (r: string)
    ensures |r| <= |s| && r == s[|s| - |r|..]
    ensures forall k :: 0 <= k < |s| - |r| ==> isSpace(s[k])
    ensures r != [] ==> !isSpace(r[0])
  {
    if s != [] && isSpace(s[0]) then TrimStart(s[1..], isSpace) else s
  }

  /** `s` without its trailing characters of the class `isSpace`. */
  function TrimEnd(s: string, isSpace: char -> bool): (r: string)
    ensures |r| <= |s| && r == s[..|r|]
    ensures forall k :: |r| <= k < |s| ==> isSpace(s[k])
    ensures r != [] ==> !isSpace(r[|r| - 1])
  {
    if s != [] && isSpace(s[|s| - 1]) then TrimEnd(s[..|s| - 1], isSpace) else s
  }

  /** `s` without leading and trailing characters of the class `isSpace` (PHP and JavaScript `trim`). */
  function Trim(s: string, isSpace: char -> bool): (r: string)
    ensures r != [] ==> !isSpace(r[0]) && !isSpace(r[|r| - 1])
    ensures |r| <= |s|
    ensures (forall k :: 0 <= k < |s| ==> isSpace(s[k])) <==> r == []
  {
    var t := TrimEnd(TrimStart(s, isSpace), isSpace);
    assert t != [] ==> t[0] == TrimStart(s, isSpace)[0];
    assert t == [] ==> TrimStart(s, isSpace) == [];
    t
  }

  /**
   * `Trim(s)` is the part of `s` between a prefix and a suffix made only of
   * characters of the class: trimming removes characters from the two ends
   * and nowhere else.
   */
  lemma {:induction false} TrimInfix(s: string, isSpace: char -> bool)
    ensures InfixBetween(s, |s| - |TrimStart(s, isSpace)|, Trim(s, isSpace), isSpace)
  {
    var u := TrimStart(s, isSpace);
    assert Trim(s, isSpace) == TrimEnd(u, isSpace);
    InfixBetweenSpace(s, u, Trim(s, isSpace), isSpace);
  }

  /** `r` is `s[a..a + |r|]`, and every character of `s` before or after it is of the class `isSpace`. */
  predicate InfixBetween(s: string, a: int, r: string, isSpace: char -> bool) {
    && 0 <= a <= a + |r| <= |s|
    && r == s[a..a + |r|]
    && (forall k :: 0 <= k < a ==> isSpace(s[k]))
    && (forall k :: a + |r| <= k < |s| ==> isSpace(s[k]))
  }

  /** A prefix `r` of a suffix `u` of `s`, each cut off only characters of the class, sits between two runs of them in `s`. */
  lemma InfixBetweenSpace(s: string, u: string, r: string, isSpace: char -> bool)
    requires |u| <= |s| && u == s[|s| - |u|..]
    requires forall k :: 0 <= k < |s| - |u| ==> isSpace(s[k])
    requires |r| <= |u| && r == u[..|r|]
    requires forall k :: |r| <= k < |u| ==> isSpace(u[k])
    ensures InfixBetween(s, |s| - |u|, r, isSpace)
  {
    var a := |s| - |u|;
    forall k | a + |r| <= k < |s|
      ensures isSpace(s[k])
    {
      assert s[k] == u[k - a];
    }
  }

  /** A string that does not start with a character of the class is its own `TrimStart`. */
  lemma TrimStartNonSpace(s: string, isSpace: char -> bool)
    requires s != [] && !isSpace(s[0])
    ensures TrimStart(s, isSpace) == s
  {
  }

  /** A string without characters of the class is its own trim. */
  lemma TrimWithoutSpace(s: string, isSpace: char -> bool)
    requires forall k :: 0 <= k < |s| ==> !isSpace(s[k])
    ensures Trim(s, isSpace) == s
  {
    assert TrimStart(s, isSpace) == s;
    assert TrimEnd(s, isSpace) == s;
  }

  // ---------------------------------------------------------------------------
  // Searching and splitting on one character

  /** The index of the first `c` in `s`, or -1 (JavaScript `indexOf`). */
  function IndexOf(s: string, c: char): (k: int)
    ensures -1 <= k < |s|
    ensures k == -1 <==> c !in s
    ensures k >= 0 ==> s[k] == c && c !in s[..k]
  {
    if s == [] then -1
    else if s[0] == c then 0
    else
      var k := IndexOf(s[1..], c);
      if k == -1 then -1 else k + 1
  }

  /**
   * `s` cut at every occurrence of `sep`, keeping empty pieces: PHP
   * `explode(sep, s)` and JavaScript `s.split(sep)` for a one-character separator.
   */
  function Explode(s: string, sep: char): (parts: seq<string>)
    ensures |parts| >= 1
  {
    if s == [] then [[]]
    else if s[0] == sep then [[]] + Explode(s[1..], sep)
    else
      var rest := Explode(s[1..], sep);
      [[s[0]] + rest[0]] + rest[1..]
  }

  /** The pieces glued back together with `sep` in between (PHP `implode`, JavaScript `join`). */
  function Join(parts: seq<string>, sep: char): string
    requires |parts| >= 1
  {
    if |parts| == 1 then parts[0] else parts[0] + [sep] + Join(parts[1..], sep)
  }

  /** No piece of an explosion contains the separator. */
  lemma {:induction false} ExplodeNoSep(s: string, sep: char)
    ensures forall i :: 0 <= i < |Explode(s, sep)| ==> sep !in Explode(s, sep)[i]
  {
    if s != [] {
      ExplodeNoSep(s[1..], sep);
    }
  }

  /** Splitting and then joining with the same separator gives back the original string. */
  lemma {:induction false} JoinExplode(s: string, sep: char)
    ensures Join(Explode(s, sep), sep) == s
  {
    if s == [] {
    } else if s[0] == sep {
      JoinExplode(s[1..], sep);
    } else {
      var rest := Explode(s[1..], sep);
      JoinExplode(s[1..], sep);
      if |rest| == 1 {
      } else {
        assert ([[s[0]] + rest[0]] + rest[1..])[1..] == rest[1..];
        assert [s[0]] + rest[0] + [sep] + Join(rest[1..], sep) == [s[0]] + (rest[0] + [sep] + Join(rest[1..], sep));
      }
    }
  }

  /** The first piece of an explosion: everything before the first separator, or all of `s`. */
  lemma {:induction false} ExplodeFirst(s: string, sep: char)
    ensures var k := IndexOf(s, sep);
            Explode(s, sep)[0] == if k == -1 then s else s[..k]
  {
    if s != [] && s[0] != sep {
      ExplodeFirst(s[1..], sep);
      var k := IndexOf(s[1..], sep);
      if k >= 0 {
        assert [s[0]] + s[1..][..k] == s[..k + 1];
      } else {
        assert [s[0]] + s[1..] == s;
      }
    }
  }

  /** A string without the separator explodes into itself alone. */
  lemma {:induction false} ExplodeWithoutSep(s: string, sep: char)
    requires sep !in s
    ensures Explode(s, sep) == [s]
  {
    if s != [] {
      ExplodeWithoutSep(s[1..], sep);
      assert [s[0]] + s[1..] == s;
    }
  }

  // ---------------------------------------------------------------------------
  // Decimal rendering of integers (JavaScript `String(n)` for an integral number)

  function DigitChar(d: nat): (c: char)
    requires d < 10
    ensures IsDigit(c) && c as int - '0' as int == d
  {
    (d + '0' as int) as char
  }

  function DigitValue(c: char): nat
    requires IsDigit(c)
  {
    c as int - '0' as int
  }

  predicate AllDigits(s: string) {
    forall i :: 0 <= i < |s| ==> IsDigit(s[i])
  }

  function NatToString(n: nat): (s: string)
    ensures |s| >= 1 && AllDigits(s)
    ensures n >= 10 ==> s[0] != '0'
  {
    if n < 10 then [DigitChar(n)] else NatToString(n / 10) + [DigitChar(n % 10)]
  }

  /** Decimal text of an integer, with a leading `-` for a negative number. */
  function IntToString(n: int): (s: string)
    ensures |s| >= 1
    ensures n >= 0 ==> AllDigits(s)
    ensures n < 0 ==> s[0] == '-' && |s| >= 2 && AllDigits(s[1..])
  {
    if n < 0 then "-" + NatToString(-n) else NatToString(n)
  }

  function ParseNat(s: string): nat
    requires AllDigits(s)
  {
    if s == [] then 0 else 10 * ParseNat(s[..|s| - 1]) + DigitValue(s[|s| - 1])
  }

  function ParseInt(s: string): int
    requires (|s| >= 1 && s[0] == '-' && AllDigits(s[1..])) || AllDigits(s)
  {
    if |s| >= 1 && s[0] == '-' then -(ParseNat(s[1..]) as int) else ParseNat(s)
  }

  lemma {:induction false} ParseNatToString(n: nat)
    ensures ParseNat(NatToString(n)) == n
  {
    if n >= 10 {
      var s := NatToString(n);
      ParseNatToString(n / 10);
      assert s[..|s| - 1] == NatToString(n / 10);
    }
  }

  /** Reading back the decimal text of an integer gives the integer. */
  lemma IntToStringRoundTrip(n: int)
    ensures ParseInt(IntToString(n)) == n
  {
    if n < 0 {
      ParseNatToString(-n);
      assert IntToString(n)[1..] == NatToString(-n);
    } else {
      ParseNatToString(n);
    }
  }

  /** Distinct integers have distinct decimal texts. */
  lemma IntToStringInjective(a: int, b: int)
    requires IntToString(a) == IntToString(b)
    ensures a == b
  {
    IntToStringRoundTrip(a);
    IntToStringRoundTrip(b);
  }
}
