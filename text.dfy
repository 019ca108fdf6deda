/**
 * String helpers shared by the client and the server models:
 * `split` on one separator character, `join`, whitespace trimming,
 * lower-casing and the decimal rendering of a natural number.
 */
module Text {

  /** ASCII whitespace, the characters both `String.prototype.trim` and `str.strip` remove. */
  predicate IsSpace(c: char) {
    c == ' ' || c == '\t' || c == '\n' || c == '\r' || c == '\U{000B}' || c == '\U{000C}'
  }

  predicate IsUpper(c: char) { 'A' <= c <= 'Z' }
  predicate IsLowerLetter(c: char) { 'a' <= c <= 'z' }
  predicate IsLetter(c: char) { IsUpper(c) || IsLowerLetter(c) }
  predicate IsDigit(c: char) { '0' <= c <= '9' }
  predicate IsAlnum(c: char) { IsLetter(c) || IsDigit(c) }

  /** A string with no whitespace at either end. */
  predicate IsTrimmed(s: string) {
    |s| == 0 || (!IsSpace(s[0]) && !IsSpace(s[|s| - 1]))
  }

  function TrimStart(s: string): (r: string)
    ensures |r| <= |s|
  {
    if |s| > 0 && IsSpace(s[0]) then TrimStart(s[1..]) else s
  }

  function TrimEnd(s: string): (r: string)
    ensures |r| <= |s|
  {
    if |s| > 0 && IsSpace(s[|s| - 1]) then TrimEnd(s[..|s| - 1]) else s
  }

  lemma {:induction false} TrimStartSpec(s: string)
    ensures TrimStart(s) == s[|s| - |TrimStart(s)|..]
    ensures |TrimStart(s)| == 0 || !IsSpace(TrimStart(s)[0])
    ensures forall i :: 0 <= i < |s| - |TrimStart(s)| ==> IsSpace(s[i])
  {
    if |s| > 0 && IsSpace(s[0]) { TrimStartSpec(s[1..]); }
  }

  lemma {:induction false} TrimEndSpec(s: string)
    ensures TrimEnd(s) == s[..|TrimEnd(s)|]
    ensures |TrimEnd(s)| == 0 || !IsSpace(TrimEnd(s)[|TrimEnd(s)| - 1])
    ensures forall i :: |TrimEnd(s)| <= i < |s| ==> IsSpace(s[i])
  {
    if |s| > 0 && IsSpace(s[|s| - 1]) { TrimEndSpec(s[..|s| - 1]); }
  }

  /** `s.trim()` in TypeScript, `s.strip()` in Python. */
  function Trim(s: string): (r: string)
    ensures |r| <= |s|
  {
    TrimEnd(TrimStart(s))
  }

  /** Where the trimmed string starts in the input. */
  function TrimOffset(s: string): nat {
    |s| - |TrimStart(s)|
  }

  /**
   * Trimming removes whitespace from the ends only: the result is a piece of
   * the input with no whitespace at its ends, and what lies before and after
   * that piece is whitespace.
   */
  lemma TrimSpec(s: string)
    ensures IsTrimmed(Trim(s))
    ensures TrimOffset(s) + |Trim(s)| <= |s| && Trim(s) == s[TrimOffset(s)..TrimOffset(s) + |Trim(s)|]
    ensures forall i :: 0 <= i < TrimOffset(s) ==> IsSpace(s[i])
    ensures forall i :: TrimOffset(s) + |Trim(s)| <= i < |s| ==> IsSpace(s[i])
  {
    var a := TrimStart(s);
    TrimStartSpec(s);
    TrimEndSpec(a);
    var r := TrimEnd(a);
    if |r| > 0 { assert r[0] == a[0]; }
    var k := TrimOffset(s);
    forall i | k + |r| <= i < |s| ensures IsSpace(s[i]) {
      assert s[i] == a[i - k];
    }
  }

  /** Every character of a trimmed string is a character of the input. */
  lemma TrimChars(s: string, c: char)
    requires c in Trim(s)
    ensures c in s
  {
    TrimSpec(s);
    var k := TrimOffset(s);
    var j :| 0 <= j < |Trim(s)| && Trim(s)[j] == c;
    assert s[k + j] == c;
  }

  /** A string of whitespace trims to nothing. */
  lemma {:induction false} TrimBlank(s: string)
    requires forall i :: 0 <= i < |s| ==> IsSpace(s[i])
    ensures TrimStart(s) == "" && Trim(s) == ""
  {
    if |s| > 0 {
      TrimBlank(s[1..]);
    }
  }

  /** A string with nothing to trim is its own trimming. */
  lemma {:induction false} TrimOfTrimmed(s: string)
    requires IsTrimmed(s)
    ensures Trim(s) == s
  {
  }

  /** The trimmed parts that are not empty, in order and with their case. */
  function NonBlankTokens(parts: seq<string>): (r: seq<string>)
    ensures forall i :: 0 <= i < |r| ==> r[i] != "" && IsTrimmed(r[i])
    ensures (forall i :: 0 <= i < |parts| ==> ',' !in parts[i]) ==> forall i :: 0 <= i < |r| ==> ',' !in r[i]
  {
    if |parts| == 0 then []
    else
      var t := Trim(parts[0]);
      TrimSpec(parts[0]);
      assert ',' in t ==> ',' in parts[0] by { if ',' in t { TrimChars(parts[0], ','); } }
      if t != "" then [t] + NonBlankTokens(parts[1..]) else NonBlankTokens(parts[1..])
  }

  /**
   * A string is a token exactly when it is non-empty and some part trims to
   * it; with `NonBlankTokensAppend`, the tokens come in the order of their parts.
   */
  lemma {:induction false} NonBlankTokensMembers(parts: seq<string>, x: string)
    ensures x in NonBlankTokens(parts) <==> x != "" && exists i :: 0 <= i < |parts| && Trim(parts[i]) == x
  {
    if |parts| > 0 {
      NonBlankTokensMembers(parts[1..], x);
      if x != "" && Trim(parts[0]) != x && (exists i :: 0 <= i < |parts| && Trim(parts[i]) == x) {
        var i :| 0 <= i < |parts| && Trim(parts[i]) == x;
        assert Trim(parts[1..][i - 1]) == x;
      }
      if x != "" && exists i :: 0 <= i < |parts[1..]| && Trim(parts[1..][i]) == x {
        var i :| 0 <= i < |parts[1..]| && Trim(parts[1..][i]) == x;
        assert Trim(parts[i + 1]) == x;
      }
    }
  }

  /** Parts that are already trimmed and non-empty are kept as they are. */
  lemma {:induction false} NonBlankTokensOfTrimmed(ts: seq<string>)
    requires forall i :: 0 <= i < |ts| ==> ts[i] != "" && IsTrimmed(ts[i])
    ensures NonBlankTokens(ts) == ts
  {
    if |ts| > 0 {
      TrimOfTrimmed(ts[0]);
      NonBlankTokensOfTrimmed(ts[1..]);
    }
  }

  /** Tokens are taken part by part, so their order is the order of the parts. */
  lemma {:induction false} NonBlankTokensAppend(a: seq<string>, b: seq<string>)
    ensures NonBlankTokens(a + b) == NonBlankTokens(a) + NonBlankTokens(b)
  {
    if |a| > 0 {
      assert (a + b)[1..] == a[1..] + b;
      NonBlankTokensAppend(a[1..], b);
    } else {
      assert a + b == b;
    }
  }

  function LowerChar(c: char): char {
    if IsUpper(c) then (c as int - 'A' as int + 'a' as int) as char else c
  }

  /** `s.toLowerCase()` / `s.lower()` on ASCII letters. */
  function Lower(s: string): (r: string)
    ensures |r| == |s|
  {
    seq(|s|, i requires 0 <= i < |s| => LowerChar(s[i]))
  }

  predicate HasNoUpper(s: string) {
    forall i :: 0 <= i < |s| ==> !IsUpper(s[i])
  }

  lemma LowerOfLower(s: string)
    requires HasNoUpper(s)
    ensures Lower(s) == s
  {
  }

  /** The first position of `c` in `s`. */
  function IndexOf(s: string, c: char): (i: nat)
    requires c in s
    ensures i < |s| && s[i] == c && c !in s[..i]
  {
    if s[0] == c then 0 else IndexOf(s[1..], c) + 1
  }

  /**
   * `s.split(sep)` with a one-character separator, as both TypeScript and
   * Python define it: the pieces between separators, so `""` gives `[""]`.
   */
  function Split(s: string, sep: char): (r: seq<string>)
    ensures |r| >= 1
    ensures forall i :: 0 <= i < |r| ==> sep !in r[i]
    decreases |s|
  {
    if sep !in s then [s]
    else
      var i := IndexOf(s, sep);
      [s[..i]] + Split(s[i + 1..], sep)
  }

  /** `xs.join(sep)` / `sep.join(xs)`. */
  function Join(xs: seq<string>, sep: char): string {
    if |xs| == 0 then ""
    else if |xs| == 1 then xs[0]
    else xs[0] + [sep] + Join(xs[1..], sep)
  }

  /** Splitting a join returns the pieces, when no piece holds the separator. */
  lemma {:induction false} SplitJoin(xs: seq<string>, sep: char)
    requires |xs| >= 1
    requires forall i :: 0 <= i < |xs| ==> sep !in xs[i]
    ensures Split(Join(xs, sep), sep) == xs
  {
    if |xs| > 1 {
      var rest := Join(xs[1..], sep);
      var s := xs[0] + [sep] + rest;
      assert sep in s by { assert s[|xs[0]|] == sep; }
      var i := IndexOf(s, sep);
      assert forall j :: 0 <= j < |xs[0]| ==> s[j] == xs[0][j];
      assert forall j :: 0 <= j < i ==> s[..i][j] == s[j];
      assert s[|xs[0]|] == sep;
      assert i == |xs[0]|;
      assert s[..i] == xs[0];
      assert s[i + 1..] == rest;
      SplitJoin(xs[1..], sep);
    }
  }

  /** Every character of a piece is a character of the split string. */
  lemma {:induction false} SplitChars(s: string, sep: char, i: nat, c: char)
    requires i < |Split(s, sep)| && c in Split(s, sep)[i]
    ensures c in s
    decreases |s|
  {
    if sep in s {
      var k := IndexOf(s, sep);
      if i > 0 {
        SplitChars(s[k + 1..], sep, i - 1, c);
        var j :| 0 <= j < |s[k + 1..]| && s[k + 1..][j] == c;
        assert s[k + 1 + j] == c;
      } else {
        var j :| 0 <= j < |s[..k]| && s[..k][j] == c;
        assert s[j] == c;
      }
    }
  }

  function DigitChar(d: nat): char
    requires d < 10
  {
    ('0' as int + d) as char
  }

  /** `str(n)` / `${n}` for a natural number: its decimal digits. */
  function NatToString(n: nat): (r: string)
    ensures |r| >= 1
    ensures forall i :: 0 <= i < |r| ==> IsDigit(r[i])
  {
    if n < 10 then [DigitChar(n)] else NatToString(n / 10) + [DigitChar(n % 10)]
  }

  /** Reading a string of decimal digits back as a number. */
  function DigitsValue(s: string): nat
    requires forall i :: 0 <= i < |s| ==> IsDigit(s[i])
  {
    if |s| == 0 then 0
    else
      assert IsDigit(s[|s| - 1]);
      10 * DigitsValue(s[..|s| - 1]) + (s[|s| - 1] as int - '0' as int)
  }

  lemma {:induction false} DigitsValueOfNatToString(n: nat)
    ensures DigitsValue(NatToString(n)) == n
  {
    if n >= 10 {
      var s := NatToString(n);
      assert s[..|s| - 1] == NatToString(n / 10);
      DigitsValueOfNatToString(n / 10);
    }
  }

  /** Distinct numbers have distinct decimal renderings. */
  lemma NatToStringInjective(m: nat, n: nat)
    requires NatToString(m) == NatToString(n)
    ensures m == n
  {
    DigitsValueOfNatToString(m);
    DigitsValueOfNatToString(n);
  }
}
