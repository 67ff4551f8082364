/** String helpers with the meaning of the JavaScript string operations the bot relies on:
    `startsWith`, `includes`, `toLowerCase` (ASCII letters), `trim`, `split('\n')` and the
    decimal rendering of a non-negative integer in a template literal. */
module Text {

  /** `s.startsWith(p)` */
  predicate StartsWith(s: string, p: string) {
    |p| <= |s| && s[..|p|] == p
  }

  /** `s.includes(sub)`: some window of `s` equals `sub`. */
  predicate Contains(s: string, sub: string)
    decreases |s|
  {
    |sub| <= |s| && (s[..|sub|] == sub || (|s| > 0 && Contains(s[1..], sub)))
  }

  lemma {:induction false} ContainsAt(s: string, sub: string, i: nat)
    requires i + |sub| <= |s| && s[i..i + |sub|] == sub
    ensures Contains(s, sub)
    decreases i
  {
    if i > 0 {
      assert s[1..][i - 1..i - 1 + |sub|] == s[i..i + |sub|];
      ContainsAt(s[1..], sub, i - 1);
    } else {
      assert s[..|sub|] == s[0..|sub|];
    }
  }

  lemma {:induction false} PrefixContained(p: string, rest: string)
    ensures Contains(p + rest, p)
  {
    assert (p + rest)[0..|p|] == p;
    ContainsAt(p + rest, p, 0);
  }

  /** `s.includes(sub)` found in a part of a concatenation is found in the whole. */
  lemma {:induction false} ContainsInSuffix(pre: string, s: string, sub: string)
    requires Contains(s, sub)
    ensures Contains(pre + s, sub)
    decreases |pre|
  {
    if pre != [] {
      assert (pre + s)[1..] == pre[1..] + s;
      ContainsInSuffix(pre[1..], s, sub);
      assert Contains((pre + s)[1..], sub);
    } else {
      assert pre + s == s;
    }
  }

  predicate IsDigit(c: char) {
    '0' <= c <= '9'
  }

  predicate AllDigits(s: string) {
    forall i :: 0 <= i < |s| ==> IsDigit(s[i])
  }

  /** `String.prototype.toLowerCase` restricted to ASCII letters. */
  function LowerChar(c: char): (r: char)
    ensures 'A' <= c <= 'Z' ==> 'a' <= r <= 'z'
    ensures !('A' <= c <= 'Z') ==> r == c
  {
    if 'A' <= c <= 'Z' then (c as int + 32) as char else c
  }

  function ToLower(s: string): (r: string)
    ensures |r| == |s|
    ensures forall i :: 0 <= i < |s| ==> r[i] == LowerChar(s[i])
  {
    seq(|s|, i requires 0 <= i < |s| => LowerChar(s[i]))
  }

  lemma {:induction false} ToLowerIdempotent(s: string)
    ensures ToLower(ToLower(s)) == ToLower(s)
  {
  }

  /** The characters `String.prototype.trim` removes (ECMAScript WhiteSpace and LineTerminator). */
  predicate IsSpace(c: char) {
    c == ' ' || c == '\t' || c == '\n' || c == '\r' || c == '\U{000B}' || c == '\U{000C}'
    || c == '\U{00A0}' || c == '\U{FEFF}' || c == '\U{1680}' || ('\U{2000}' <= c <= '\U{200A}')
    || c == '\U{2028}' || c == '\U{2029}' || c == '\U{202F}' || c == '\U{205F}' || c == '\U{3000}'
  }

  function TrimStart(s: string): (r: string)
    ensures |r| <= |s| && r == s[|s| - |r|..]
    ensures r == [] || !IsSpace(r[0])
    decreases |s|
  {
    if |s| > 0 && IsSpace(s[0]) then TrimStart(s[1..]) else s
  }

  function TrimEnd(s: string): (r: string)
    ensures |r| <= |s| && r == s[..|r|]
    ensures r == [] || !IsSpace(r[|r| - 1])
    decreases |s|
  {
    if |s| > 0 && IsSpace(s[|s| - 1]) then TrimEnd(s[..|s| - 1]) else s
  }

  /** `s.trim()` */
  function Trim(s: string): string {
    TrimEnd(TrimStart(s))
  }

  /** `trim` leaves a slice of its input that neither starts nor ends with white space. */
  lemma {:induction false} TrimIsCore(s: string)
    ensures var t, i := Trim(s), |s| - |TrimStart(s)|;
      (t == [] || (!IsSpace(t[0]) && !IsSpace(t[|t| - 1])))
      && i + |t| <= |s| && s[i..i + |t|] == t
  {
    TrimEnds(s);
    TrimSlice(s);
  }

  lemma {:induction false} TrimEnds(s: string)
    ensures var t := Trim(s); t == [] || (!IsSpace(t[0]) && !IsSpace(t[|t| - 1]))
  {
    var u := TrimStart(s);
    var t := TrimEnd(u);
    if t != [] {
      assert t[0] == u[0];
    }
  }

  lemma {:induction false} TrimSlice(s: string)
    ensures var t, i := Trim(s), |s| - |TrimStart(s)|; i + |t| <= |s| && s[i..i + |t|] == t
  {
    var u := TrimStart(s);
    var t := TrimEnd(u);
    SliceOfSlice(s, u, t, |s| - |u|);
  }

  /** A prefix of a suffix is a slice. */
  lemma {:induction false} SliceOfSlice<T>(s: seq<T>, u: seq<T>, t: seq<T>, i: nat)
    requires i <= |s| && u == s[i..] && |t| <= |u| && t == u[..|t|]
    ensures i + |t| <= |s| && s[i..i + |t|] == t
  {
    PrefixOfSuffix(s, i, |t|);
  }

  lemma {:induction false} PrefixOfSuffix<T>(s: seq<T>, i: nat, n: nat)
    requires i + n <= |s|
    ensures s[i..][..n] == s[i..i + n]
  {
  }

  lemma {:induction false} TrimOfTrimmed(s: string)
    requires s == [] || (!IsSpace(s[0]) && !IsSpace(s[|s| - 1]))
    ensures Trim(s) == s
  {
  }

  lemma {:induction false} TrimIdempotent(s: string)
    ensures Trim(Trim(s)) == Trim(s)
  {
    TrimIsCore(s);
    TrimOfTrimmed(Trim(s));
  }

  /** Index of the first `c` in `s`, or `|s|` when there is none. */
  function IndexOf(s: string, c: char): (k: nat)
    ensures k <= |s|
    ensures k < |s| ==> s[k] == c
    ensures forall i :: 0 <= i < k ==> s[i] != c
    decreases |s|
  {
    if |s| == 0 then 0 else if s[0] == c then 0 else 1 + IndexOf(s[1..], c)
  }

  /** `s.split('\n')`: the pieces between line feeds; never empty. */
  function SplitLines(s: string): (pieces: seq<string>)
    ensures |pieces| >= 1
    ensures forall k, i :: 0 <= k < |pieces| && 0 <= i < |pieces[k]| ==> pieces[k][i] != '\n'
    decreases |s|
  {
    var k := IndexOf(s, '\n');
    if k == |s| then [s] else [s[..k]] + SplitLines(s[k + 1..])
  }

  /** `pieces.join('\n')`, the inverse of `split('\n')`. */
  function JoinLines(pieces: seq<string>): string
    requires |pieces| >= 1
  {
    if |pieces| == 1 then pieces[0] else pieces[0] + "\n" + JoinLines(pieces[1..])
  }

  /** Splitting at line feeds loses nothing: joining the pieces gives back the text. */
  lemma {:induction false} SplitJoin(s: string)
    ensures JoinLines(SplitLines(s)) == s
    decreases |s|
  {
    var k := IndexOf(s, '\n');
    if k < |s| {
      var rest := SplitLines(s[k + 1..]);
      SplitJoin(s[k + 1..]);
      assert SplitLines(s) == [s[..k]] + rest;
      JoinCons(s[..k], rest);
      AroundIndex(s, k);
    }
  }

  /** A sequence is the part before index `k`, the element at `k`, and the part after it. */
  lemma {:induction false} AroundIndex<T>(s: seq<T>, k: nat)
    requires k < |s|
    ensures s == s[..k] + [s[k]] + s[k + 1..]
  {
    assert s[..k] + [s[k]] == s[..k + 1];
  }

  lemma {:induction false} JoinCons(line: string, rest: seq<string>)
    requires |rest| >= 1
    ensures JoinLines([line] + rest) == line + "\n" + JoinLines(rest)
  {
    assert ([line] + rest)[1..] == rest;
  }

  function DigitChar(d: nat): (c: char)
    requires d < 10
    ensures IsDigit(c)
  {
    ('0' as int + d) as char
  }

  function DigitValue(c: char): nat
    requires IsDigit(c)
  {
    c as int - '0' as int
  }

  /** `${n}` for a non-negative integer: its decimal digits, most significant first. */
  function NatToString(n: nat): (s: string)
    ensures |s| >= 1 && AllDigits(s)
    decreases n
  {
    if n < 10 then [DigitChar(n)] else NatToString(n / 10) + [DigitChar(n % 10)]
  }

  /** The number a string of decimal digits denotes. */
  function DecimalValue(s: string): nat
    requires AllDigits(s)
    decreases |s|
  {
    if s == [] then 0 else DecimalValue(s[..|s| - 1]) * 10 + DigitValue(s[|s| - 1])
  }

  /** Rendering a number in decimal and reading it back gives the number. */
  lemma {:induction false} DecimalRoundTrip(n: nat)
    ensures DecimalValue(NatToString(n)) == n
    decreases n
  {
    if n >= 10 {
      DecimalRoundTrip(n / 10);
      var s := NatToString(n);
      assert s[..|s| - 1] == NatToString(n / 10);
    }
  }

  /** A decimal rendering has no leading zero unless it is the number 0. */
  lemma {:induction false} NoLeadingZero(n: nat)
    ensures NatToString(n)[0] == '0' <==> n == 0
    decreases n
  {
    if n >= 10 {
      NoLeadingZero(n / 10);
    }
  }
}
