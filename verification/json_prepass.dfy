/** The text rewrite the API client applies to every response body before `JSON.parse`:
    `/:(\d{16,})/g` replaced by `:"$1"`, so that integer literals of 16 or more digits
    that follow a colon reach the parser as strings and keep every digit. */
module JsonPrepass {
  import opened Text
  import opened Wrappers

  /** The shortest digit run the rewrite quotes. */
  const MinQuotedDigits: nat := 16

  /** End of the run of ASCII digits (`\d`) in `s` that starts at index `i`. */
  function RunEnd(s: string, i: nat): (k: nat)
    requires i <= |s|
    ensures i <= k <= |s|
    ensures forall j :: i <= j < k ==> IsDigit(s[j])
    ensures k < |s| ==> !IsDigit(s[k])
    decreases |s| - i
  {
    if i < |s| && IsDigit(s[i]) then RunEnd(s, i + 1) else i
  }

  /** Length of the run of digits at the start of `s`. */
  function DigitRun(s: string): (n: nat)
    ensures n <= |s|
    ensures forall j :: 0 <= j < n ==> IsDigit(s[j])
    ensures n < |s| ==> !IsDigit(s[n])
  {
    RunEnd(s, 0)
  }

  /** The leading digit run is determined by the two facts its contract states. */
  lemma {:induction false} DigitRunUnique(s: string, m: nat)
    requires m <= |s|
    requires forall j :: 0 <= j < m ==> IsDigit(s[j])
    requires m < |s| ==> !IsDigit(s[m])
    ensures DigitRun(s) == m
  {
  }

  /** The global regex replacement, scanning left to right: at a `:` followed by at least
      16 digits the greedy match takes the whole digit run, which is wrapped in quotes, and
      the scan resumes after it; any other character is copied. */
  function QuoteBigInts(s: string): (r: string)
    ensures |r| >= |s|
    decreases |s|
  {
    if |s| == 0 then ""
    else if s[0] == ':' && DigitRun(s[1..]) >= MinQuotedDigits then
      var n := DigitRun(s[1..]);
      ":\"" + s[1..1 + n] + "\"" + QuoteBigInts(s[1 + n..])
    else [s[0]] + QuoteBigInts(s[1..])
  }

  predicate NoColon(t: string) {
    forall i :: 0 <= i < |t| ==> t[i] != ':'
  }

  /** Text without a colon cannot start a match, so it is copied as it is. */
  lemma {:induction false} NoColonCopied(t: string, u: string)
    requires NoColon(t)
    ensures QuoteBigInts(t + u) == t + QuoteBigInts(u)
    decreases |t|
  {
    if t != [] {
      assert (t + u)[0] == t[0];
      assert (t + u)[1..] == t[1..] + u;
      CopyStep(t + u);
      NoColonCopied(t[1..], u);
      assert t + QuoteBigInts(u) == [t[0]] + (t[1..] + QuoteBigInts(u));
    } else {
      assert t + u == u;
    }
  }

  /** The rewrite starts with the same character as its input. */
  lemma {:induction false} FirstCharKept(s: string)
    requires |s| > 0
    ensures |QuoteBigInts(s)| > 0 && QuoteBigInts(s)[0] == s[0]
  {
  }

  /** The rewrite does not change the length of the leading digit run. */
  lemma {:induction false} DigitRunKept(s: string)
    ensures DigitRun(QuoteBigInts(s)) == DigitRun(s)
    decreases |s|
  {
    if |s| > 0 && IsDigit(s[0]) {
      DigitRunKept(s[1..]);
      CopyStep(s);
      var q := QuoteBigInts(s[1..]);
      var m := DigitRun(q);
      assert forall j :: 1 <= j < 1 + m ==> ([s[0]] + q)[j] == q[j - 1];
      DigitRunUnique([s[0]] + q, 1 + m);
      var r := DigitRun(s[1..]);
      assert forall j :: 1 <= j < 1 + r ==> s[j] == s[1..][j - 1];
      DigitRunUnique(s, 1 + r);
    } else if |s| > 0 {
      FirstCharKept(s);
      DigitRunUnique(s, 0);
      DigitRunUnique(QuoteBigInts(s), 0);
    }
  }

  /** One step of the scan at a colon that does not start a match. */
  lemma {:induction false} ColonKept(x: string)
    requires DigitRun(x) < MinQuotedDigits
    ensures QuoteBigInts(":" + x) == ":" + QuoteBigInts(x)
  {
    var s := ":" + x;
    assert s[0] == ':' && s[1..] == x;
  }

  /** One step of the scan at any other character. */
  lemma {:induction false} OtherKept(c: char, x: string)
    requires c != ':'
    ensures QuoteBigInts([c] + x) == [c] + QuoteBigInts(x)
  {
    var s := [c] + x;
    assert s[0] == c && s[1..] == x;
  }

  /** A second pass over a quoted run `:"ddd"` followed by already rewritten text copies
      the run and rewrites only what follows. */
  lemma {:induction false} QuotedRunStable(d: string, q: string)
    requires AllDigits(d)
    ensures QuoteBigInts(":" + ("\"" + d + "\"" + q)) == ":" + ("\"" + d + "\"" + QuoteBigInts(q))
  {
    var t := "\"" + d + "\"";
    assert NoColon(t);
    assert (t + q)[0] == '"';
    assert DigitRun(t + q) == 0;
    ColonKept(t + q);
    NoColonCopied(t, q);
  }

  /** The scan at a colon that starts a match. */
  lemma {:induction false} LongStep(s: string)
    requires |s| > 0 && s[0] == ':' && DigitRun(s[1..]) >= MinQuotedDigits
    ensures var n := DigitRun(s[1..]);
      QuoteBigInts(s) == ":" + ("\"" + s[1..1 + n] + "\"" + QuoteBigInts(s[1 + n..]))
  {
  }

  /** The scan at any position that does not start a match. */
  lemma {:induction false} CopyStep(s: string)
    requires |s| > 0 && !(s[0] == ':' && DigitRun(s[1..]) >= MinQuotedDigits)
    ensures QuoteBigInts(s) == [s[0]] + QuoteBigInts(s[1..])
  {
  }

  lemma {:induction false} IdempotentAtMatch(s: string)
    requires |s| > 0 && s[0] == ':' && DigitRun(s[1..]) >= MinQuotedDigits
    requires var n := DigitRun(s[1..]); QuoteBigInts(QuoteBigInts(s[1 + n..])) == QuoteBigInts(s[1 + n..])
    ensures QuoteBigInts(QuoteBigInts(s)) == QuoteBigInts(s)
  {
    var n := DigitRun(s[1..]);
    var d, rest := s[1..1 + n], s[1 + n..];
    LongStep(s);
    QuotedRunStable(d, QuoteBigInts(rest));
  }

  lemma {:induction false} IdempotentAtCopy(s: string)
    requires |s| > 0 && !(s[0] == ':' && DigitRun(s[1..]) >= MinQuotedDigits)
    requires QuoteBigInts(QuoteBigInts(s[1..])) == QuoteBigInts(s[1..])
    ensures QuoteBigInts(QuoteBigInts(s)) == QuoteBigInts(s)
  {
    var q := QuoteBigInts(s[1..]);
    CopyStep(s);
    if s[0] == ':' {
      DigitRunKept(s[1..]);
      ColonKept(q);
      assert [s[0]] + q == ":" + q;
    } else {
      OtherKept(s[0], q);
    }
  }

  /** A second pass changes nothing: every quoted run now follows `:"`, not `:`. */
  lemma {:induction false} QuoteIdempotent(s: string)
    ensures QuoteBigInts(QuoteBigInts(s)) == QuoteBigInts(s)
    decreases |s|
  {
    if |s| > 0 {
      var n := StepLength(s);
      QuoteIdempotent(s[n..]);
      IdempotentAt(s);
    }
  }

  /** The rewrite only adds quotes in pairs: the text grows by an even count. */
  lemma {:induction false} QuoteAddsPairs(s: string)
    ensures (|QuoteBigInts(s)| - |s|) % 2 == 0
    decreases |s|
  {
    if |s| > 0 {
      QuoteAddsPairs(s[StepLength(s)..]);
      if s[0] == ':' && DigitRun(s[1..]) >= MinQuotedDigits {
        LongStep(s);
      } else {
        CopyStep(s);
      }
    }
  }

  /** How many characters one step of the scan consumes. */
  function StepLength(s: string): (n: nat)
    requires |s| > 0
    ensures 1 <= n <= |s|
  {
    if s[0] == ':' && DigitRun(s[1..]) >= MinQuotedDigits then 1 + DigitRun(s[1..]) else 1
  }

  lemma {:induction false} IdempotentAt(s: string)
    requires |s| > 0
    requires QuoteBigInts(QuoteBigInts(s[StepLength(s)..])) == QuoteBigInts(s[StepLength(s)..])
    ensures QuoteBigInts(QuoteBigInts(s)) == QuoteBigInts(s)
  {
    if s[0] == ':' && DigitRun(s[1..]) >= MinQuotedDigits {
      IdempotentAtMatch(s);
    } else {
      IdempotentAtCopy(s);
    }
  }

  /** `s` with every double quote removed. */
  function DropQuotes(s: string): string
    decreases |s|
  {
    if |s| == 0 then "" else (if s[0] == '"' then "" else [s[0]]) + DropQuotes(s[1..])
  }

  lemma {:induction false} DropQuotesAppend(a: string, b: string)
    ensures DropQuotes(a + b) == DropQuotes(a) + DropQuotes(b)
    decreases |a|
  {
    if a != [] {
      assert (a + b)[1..] == a[1..] + b;
      DropQuotesAppend(a[1..], b);
    } else {
      assert a + b == b;
    }
  }

  /** Dropping quotes character by character. */
  lemma {:induction false} DropQuotesCons(c: char, x: string)
    ensures DropQuotes([c] + x) == (if c == '"' then "" else [c]) + DropQuotes(x)
  {
    assert ([c] + x)[1..] == x;
  }

  lemma {:induction false} DropQuotesWrapped(d: string, q: string)
    ensures DropQuotes("\"" + d + "\"" + q) == DropQuotes(d) + DropQuotes(q)
  {
    calc {
      DropQuotes("\"" + d + "\"" + q);
      { assert "\"" + d + "\"" + q == ['"'] + (d + (['"'] + q)); }
      DropQuotes(['"'] + (d + (['"'] + q)));
      { DropQuotesCons('"', d + (['"'] + q)); }
      DropQuotes(d + (['"'] + q));
      { DropQuotesAppend(d, ['"'] + q); }
      DropQuotes(d) + DropQuotes(['"'] + q);
      { DropQuotesCons('"', q); }
      DropQuotes(d) + DropQuotes(q);
    }
  }

  /** Dropping quotes from a rewritten match `:"d"q` gives `:d` and what `q` drops to. */
  lemma {:induction false} DropQuotesAtRun(d: string, rest: string, q: string)
    requires DropQuotes(q) == DropQuotes(rest)
    ensures DropQuotes(":" + ("\"" + d + "\"" + q)) == DropQuotes(":" + (d + rest))
  {
    DropQuotesCons(':', "\"" + d + "\"" + q);
    DropQuotesWrapped(d, q);
    DropQuotesCons(':', d + rest);
    DropQuotesAppend(d, rest);
  }

  lemma {:induction false} OnlyQuotesInsertedAtRun(d: string, rest: string)
    requires |d| >= MinQuotedDigits && AllDigits(d)
    requires rest == [] || !IsDigit(rest[0])
    requires DropQuotes(QuoteBigInts(rest)) == DropQuotes(rest)
    ensures DropQuotes(QuoteBigInts(":" + (d + rest))) == DropQuotes(":" + (d + rest))
  {
    LongRunQuoted(d, rest);
    DropQuotesAtRun(d, rest, QuoteBigInts(rest));
  }

  /** Equal texts rewrite alike. */
  lemma {:induction false} SameText(s: string, t: string)
    requires s == t && DropQuotes(QuoteBigInts(t)) == DropQuotes(t)
    ensures DropQuotes(QuoteBigInts(s)) == DropQuotes(s)
  {
  }

  lemma {:induction false} SplitAfterHead<T>(s: seq<T>, n: nat)
    requires 1 + n <= |s|
    ensures s == [s[0]] + (s[1..1 + n] + s[1 + n..])
  {
    assert s[1..] == s[1..1 + n] + s[1 + n..];
  }

  /** Splitting a text after its colon into the leading digit run and what follows. */
  lemma {:induction false} RunParts(s: string)
    requires |s| > 0 && s[0] == ':'
    ensures var n := DigitRun(s[1..]);
      var d, rest := s[1..1 + n], s[1 + n..];
      |d| == n && AllDigits(d) && (rest == [] || !IsDigit(rest[0])) && s == ":" + (d + rest)
  {
    var n := DigitRun(s[1..]);
    var d, rest := s[1..1 + n], s[1 + n..];
    assert forall i :: 0 <= i < |d| ==> d[i] == s[1..][i];
    assert rest != [] ==> rest[0] == s[1..][n];
    SplitAfterHead(s, n);
    assert [s[0]] == ":";
  }

  lemma {:induction false} OnlyQuotesInsertedAtMatch(s: string)
    requires |s| > 0 && s[0] == ':' && DigitRun(s[1..]) >= MinQuotedDigits
    requires var n := DigitRun(s[1..]);
      DropQuotes(QuoteBigInts(s[1 + n..])) == DropQuotes(s[1 + n..])
    ensures DropQuotes(QuoteBigInts(s)) == DropQuotes(s)
  {
    var n := DigitRun(s[1..]);
    var d, rest := s[1..1 + n], s[1 + n..];
    RunParts(s);
    OnlyQuotesInsertedAtRun(d, rest);
    SameText(s, ":" + (d + rest));
  }

  lemma {:induction false} OnlyQuotesInsertedAtCopy(s: string)
    requires |s| > 0 && !(s[0] == ':' && DigitRun(s[1..]) >= MinQuotedDigits)
    requires DropQuotes(QuoteBigInts(s[1..])) == DropQuotes(s[1..])
    ensures DropQuotes(QuoteBigInts(s)) == DropQuotes(s)
  {
    CopyStep(s);
    DropQuotesAppend([s[0]], QuoteBigInts(s[1..]));
    DropQuotesAppend([s[0]], s[1..]);
    assert s == [s[0]] + s[1..];
  }

  /** The rewrite only inserts double quotes: every other character, in order, is kept. */
  lemma {:induction false} OnlyQuotesInserted(s: string)
    ensures DropQuotes(QuoteBigInts(s)) == DropQuotes(s)
    decreases |s|
  {
    if |s| == 0 {
    } else if s[0] == ':' && DigitRun(s[1..]) >= MinQuotedDigits {
      var n := DigitRun(s[1..]);
      OnlyQuotesInserted(s[1 + n..]);
      OnlyQuotesInsertedAtMatch(s);
    } else {
      OnlyQuotesInserted(s[1..]);
      OnlyQuotesInsertedAtCopy(s);
    }
  }

  /** A maximal run of 16 or more digits right after a colon is wrapped in quotes. */
  lemma {:induction false} LongRunQuoted(d: string, rest: string)
    requires |d| >= MinQuotedDigits && AllDigits(d)
    requires rest == [] || !IsDigit(rest[0])
    ensures QuoteBigInts(":" + (d + rest)) == ":" + ("\"" + d + "\"" + QuoteBigInts(rest))
  {
    var s := ":" + (d + rest);
    ColonSplit(s, d, rest);
    DigitRunOf(d, rest);
    LongRunAt(s, d, rest);
  }

  lemma {:induction false} ColonSplit(s: string, d: string, rest: string)
    requires s == ":" + (d + rest)
    ensures |s| > 0 && s[0] == ':' && s[1..] == d + rest && s[1..1 + |d|] == d && s[1 + |d|..] == rest
  {
    assert s[1..] == d + rest;
  }

  /** The match step, with the text already split at the digit run. */
  lemma {:induction false} LongRunAt(s: string, d: string, rest: string)
    requires |s| > 0 && s[0] == ':' && s[1..] == d + rest && s[1..1 + |d|] == d && s[1 + |d|..] == rest
    requires DigitRun(d + rest) == |d| >= MinQuotedDigits
    ensures QuoteBigInts(s) == ":" + ("\"" + d + "\"" + QuoteBigInts(rest))
  {
    LongStep(s);
  }

  /** A run of fewer than 16 digits after a colon is left as it is. */
  lemma {:induction false} ShortRunKept(d: string, rest: string)
    requires |d| < MinQuotedDigits && AllDigits(d)
    requires rest == [] || !IsDigit(rest[0])
    ensures QuoteBigInts(":" + (d + rest)) == ":" + (d + QuoteBigInts(rest))
  {
    DigitRunOf(d, rest);
    ColonKept(d + rest);
    assert NoColon(d);
    NoColonCopied(d, rest);
  }

  /** A digit run after any character other than a colon (a space, a minus sign, a
      quote) is left as it is, however long it is. */
  lemma {:induction false} RunAfterOtherKept(c: char, d: string, rest: string)
    requires c != ':' && AllDigits(d)
    ensures QuoteBigInts([c] + d + rest) == [c] + d + QuoteBigInts(rest)
  {
    assert NoColon([c] + d);
    NoColonCopied([c] + d, rest);
    assert [c] + d + rest == ([c] + d) + rest;
  }

  lemma {:induction false} DigitRunOf(d: string, rest: string)
    requires AllDigits(d)
    requires rest == [] || !IsDigit(rest[0])
    ensures DigitRun(d + rest) == |d|
  {
    DigitRunUnique(d + rest, |d|);
  }

  /** A field `key:ddd…` whose key and closing text hold no colon, such as `{"id":123456789012345678}`:
      only the long number changes, and it is wrapped in quotes. */
  lemma {:induction false} FieldQuoted(key: string, d: string, close: string)
    requires NoColon(key) && NoColon(close) && |d| >= MinQuotedDigits && AllDigits(d)
    requires close == [] || !IsDigit(close[0])
    ensures QuoteBigInts(key + (":" + (d + close))) == key + (":" + ("\"" + d + "\"" + close))
  {
    NoColonCopied(close, "");
    assert close + "" == close;
    LongRunQuoted(d, close);
    NoColonCopied(key, ":" + (d + close));
  }

  /** What the response transform hands back: the parsed value, or the raw text when
      parsing still fails. */
  datatype Decoded<J> = Parsed(json: J) | RawText(text: string)

  /** The response transform: the parser (a parameter here) only ever sees the rewritten
      text; if it fails, the body is returned as the original, unrewritten string. */
  function DecodeBody<J>(data: string, parse: string -> Option<J>): (r: Decoded<J>)
    ensures r.RawText? <==> parse(QuoteBigInts(data)).None?
    ensures r.RawText? ==> r.text == data
    ensures r.Parsed? ==> parse(QuoteBigInts(data)) == Some(r.json)
  {
    match parse(QuoteBigInts(data))
    case Some(j) => Parsed(j)
    case None => RawText(data)
  }
}
