/** `loadAccounts`: private keys from `accounts.txt`, one per line, and proxies from
    `proxy.txt` matched to them by line position. File reading is outside the model: the
    files' contents (or `None` when a file does not exist) are the inputs. */
module Accounts {
  import opened Wrappers
  import opened Text
  import opened Seqs

  /** `0x` and 64 hex digits. */
  const KeyLength: nat := 66

  datatype Account = Account(privateKey: string, proxy: Option<string>)

  predicate NonEmpty(line: string) {
    |line| > 0
  }

  function TrimAll(lines: seq<string>): (r: seq<string>)
    ensures |r| == |lines| && forall i :: 0 <= i < |lines| ==> r[i] == Trim(lines[i])
  {
    seq(|lines|, i requires 0 <= i < |lines| => Trim(lines[i]))
  }

  /** `content.split('\n').map(line => line.trim()).filter(line => line.length > 0)` */
  function Lines(content: string): (r: seq<string>)
    ensures forall i :: 0 <= i < |r| ==> |r[i]| > 0 && Trim(r[i]) == r[i]
  {
    var trimmed := TrimAll(SplitLines(content));
    assert forall i :: 0 <= i < |trimmed| ==> Trim(trimmed[i]) == trimmed[i] by {
      forall i | 0 <= i < |trimmed|
        ensures Trim(trimmed[i]) == trimmed[i]
      {
        TrimIdempotent(SplitLines(content)[i]);
      }
    }
    Filter(trimmed, NonEmpty)
  }

  /** A line is kept exactly when it is the non-empty trim of some piece of the text between
      line feeds. */
  lemma {:induction false} LinesExactly(content: string, x: string)
    ensures x in Lines(content) <==> x != "" && TrimOfSomePiece(SplitLines(content), x)
  {
    assert Lines(content) == Filter(TrimAll(SplitLines(content)), NonEmpty);
    TrimmedMembers(SplitLines(content), x);
  }

  /** `x` is the trim of one of the pieces. */
  predicate TrimOfSomePiece(pieces: seq<string>, x: string) {
    exists k :: 0 <= k < |pieces| && Trim(pieces[k]) == x
  }

  lemma {:induction false} TrimmedMembers(pieces: seq<string>, x: string)
    ensures x in Filter(TrimAll(pieces), NonEmpty) <==> x != "" && TrimOfSomePiece(pieces, x)
  {
    var trimmed := TrimAll(pieces);
    FilterMembers(trimmed, NonEmpty, x);
    if x in trimmed {
      var k :| 0 <= k < |trimmed| && trimmed[k] == x;
      assert Trim(pieces[k]) == x;
    }
    if TrimOfSomePiece(pieces, x) {
      var k :| 0 <= k < |pieces| && Trim(pieces[k]) == x;
      assert trimmed[k] == x;
    }
  }

  /** `pk.trim()`, then `'0x' + ...` unless it already starts with `0x`. */
  function NormalizeKey(line: string): (key: string)
    ensures StartsWith(key, "0x")
    ensures var k := Trim(line); key == (if StartsWith(k, "0x") then k else "0x" + k)
  {
    var k := Trim(line);
    if StartsWith(k, "0x") then k else "0x" + k
  }

  /** Normalising a normalised key changes nothing. */
  lemma {:induction false} NormalizeKeyIdempotent(line: string)
    ensures NormalizeKey(NormalizeKey(line)) == NormalizeKey(line)
  {
    var k := Trim(line);
    if StartsWith(k, "0x") {
      TrimIdempotent(line);
    } else {
      TrimEnds(line);
      PrefixedTrimmed(k);
    }
  }

  /** Putting `0x` before a trimmed text leaves a trimmed text. */
  lemma {:induction false} PrefixedTrimmed(k: string)
    requires k == [] || (!IsSpace(k[0]) && !IsSpace(k[|k| - 1]))
    ensures Trim("0x" + k) == "0x" + k
  {
    var key := "0x" + k;
    assert key[0] == '0';
    assert key[|key| - 1] == if k == [] then 'x' else k[|k| - 1];
    TrimOfTrimmed(key);
  }

  /** The account built from the `i`-th key line: the proxy on the same line position of
      the proxy file, or `null` when that file has fewer lines. */
  function Candidates(keys: seq<string>, proxies: seq<string>): (r: seq<Account>)
    ensures |r| == |keys|
    ensures forall i :: 0 <= i < |keys| ==> (r[i].privateKey == NormalizeKey(keys[i])
      && r[i].proxy == (if i < |proxies| then Some(proxies[i]) else None))
  {
    seq(|keys|, i requires 0 <= i < |keys| =>
      Account(NormalizeKey(keys[i]), if i < |proxies| then Some(proxies[i]) else None))
  }

  predicate ValidLength(a: Account) {
    |a.privateKey| == KeyLength
  }

  /** The candidates whose key has the right length, in line order. */
  function ValidAccounts(keys: seq<string>, proxies: seq<string>): (r: seq<Account>)
    ensures forall i :: 0 <= i < |r| ==> |r[i].privateKey| == KeyLength && StartsWith(r[i].privateKey, "0x")
  {
    var candidates := Candidates(keys, proxies);
    var r := Filter(candidates, ValidLength);
    forall i | 0 <= i < |r|
      ensures StartsWith(r[i].privateKey, "0x")
    {
      var j :| 0 <= j < |candidates| && candidates[j] == r[i];
    }
    r
  }

  /** `loadAccounts`; both error cases end the process in the source. */
  function LoadAccounts(accountsFile: Option<string>, proxiesFile: Option<string>): (r: Result<seq<Account>>)
    ensures accountsFile.None? ==> r == Err("accounts.txt not found!")
    ensures r.Ok? ==> |r.value| > 0
    ensures r.Ok? ==> forall i :: 0 <= i < |r.value| ==>
      |r.value[i].privateKey| == KeyLength && StartsWith(r.value[i].privateKey, "0x")
  {
    match accountsFile
    case None => Err("accounts.txt not found!")
    case Some(content) =>
      var keys := Lines(content);
      var proxies := if proxiesFile.Some? then Lines(proxiesFile.value) else [];
      var accounts := ValidAccounts(keys, proxies);
      if accounts == [] then Err("No valid private keys found in accounts.txt") else Ok(accounts)
  }

  /** What is loaded from an existing accounts file: the valid accounts of its lines, each
      with the proxy line at the same position, or the no-valid-keys error when there is
      none. */
  lemma {:induction false} LoadedFromLines(content: string, proxiesFile: Option<string>)
    ensures var v := ValidAccounts(Lines(content), if proxiesFile.Some? then Lines(proxiesFile.value) else []);
      LoadAccounts(Some(content), proxiesFile) == (if v == [] then Err("No valid private keys found in accounts.txt") else Ok(v))
  {
  }

  /** Every key line whose normalised key has 66 characters yields an account with the proxy
      of the same line position, and every account comes from such a line: a rejected key
      does not shift the proxies of the keys after it. */
  lemma {:induction false} AccountsExactly(keys: seq<string>, proxies: seq<string>, a: Account)
    ensures a in ValidAccounts(keys, proxies)
      <==> (exists i :: 0 <= i < |keys| && |NormalizeKey(keys[i])| == KeyLength
             && a == Account(NormalizeKey(keys[i]), if i < |proxies| then Some(proxies[i]) else None))
  {
    var candidates := Candidates(keys, proxies);
    FilterMembers(candidates, ValidLength, a);
    if a in candidates {
      var i :| 0 <= i < |candidates| && candidates[i] == a;
    }
  }

  /** A key written with or without the `0x` prefix loads as the same key. */
  lemma {:induction false} PrefixOptional(k: string)
    requires Trim(k) == k && !StartsWith(k, "0x")
    ensures NormalizeKey("0x" + k) == NormalizeKey(k)
  {
    NormalizeKeyIdempotent(k);
  }
}
