/** The bot's shared `state`: the bounded event log written by `logToState`, and the rows
    of the account table that the scheduler loop in `main` updates each cycle. Account
    processing (`runAccountTasks`) and the clock are oracles. */
module BotState {
  import opened Wrappers
  import opened Seqs
  import opened Schedule

  /** `LOG_LIMIT` */
  const LogLimit: nat := 15
  /** An account that succeeded less than this long ago is skipped. */
  const SkipWindowMs: int := 3600000
  /** `RETRY.cycleRetryCount` */
  const CycleRetryCount: nat := 5

  /** `log` after `logToState` appends `entry`: the oldest entry goes once there are more
      than `LogLimit`. */
  function Logged(log: seq<string>, entry: string): (r: seq<string>)
    ensures 1 <= |r| <= |log| + 1 && r[|r| - 1] == entry
    ensures |log| < LogLimit ==> r == log + [entry]
    ensures |log| >= LogLimit ==> r == log[1..] + [entry]
  {
    var pushed := log + [entry];
    if |pushed| > LogLimit then pushed[1..] else pushed
  }

  /** One call keeps the log within its limit, puts the new entry last, and drops only the
      oldest entry when the log was full. */
  lemma {:induction false} LoggedBounded(log: seq<string>, entry: string)
    requires |log| <= LogLimit
    ensures |Logged(log, entry)| <= LogLimit
    ensures Logged(log, entry)[|Logged(log, entry)| - 1] == entry
    ensures |log| < LogLimit ==> Logged(log, entry) == log + [entry]
    ensures |log| == LogLimit ==> Logged(log, entry) == log[1..] + [entry]
  {
  }

  function LoggedAll(log: seq<string>, entries: seq<string>): seq<string>
    decreases |entries|
  {
    if entries == [] then log else LoggedAll(Logged(log, entries[0]), entries[1..])
  }

  function Max(a: int, b: int): int {
    if a < b then b else a
  }

  /** After any run of calls the log holds exactly the latest `LogLimit` entries, oldest
      first. */
  lemma {:induction false} LogKeepsLatest(log: seq<string>, entries: seq<string>)
    requires |log| <= LogLimit
    ensures LoggedAll(log, entries) == (log + entries)[Max(0, |log| + |entries| - LogLimit)..]
    decreases |entries|
  {
    if entries != [] {
      var next := Logged(log, entries[0]);
      LogKeepsLatest(next, entries[1..]);
      LatestAfterOne(log, entries);
    }
  }

  /** The latest entries of `log + entries` are the latest of the log after its first call
      followed by the remaining entries. */
  lemma {:induction false} LatestAfterOne(log: seq<string>, entries: seq<string>)
    requires |log| <= LogLimit && entries != []
    ensures var next := Logged(log, entries[0]);
      |next| <= LogLimit
      && (log + entries)[Max(0, |log| + |entries| - LogLimit)..]
         == (next + entries[1..])[Max(0, |next| + |entries[1..]| - LogLimit)..]
  {
    var next := Logged(log, entries[0]);
    LoggedBounded(log, entries[0]);
    var all := log + entries;
    assert log + [entries[0]] + entries[1..] == all;
    if |log| == LogLimit {
      assert next + entries[1..] == all[1..];
    } else {
      assert next + entries[1..] == all;
    }
  }

  datatype Status = Waiting | Processing | Success | Failed | Retrying

  /** The fields of a table row that the scheduler reads or writes; `null` is `None`. */
  datatype AccountRow = AccountRow(status: Status, lastRun: Option<int>, nextRun: Option<int>)

  /** What `runAccountTasks` reports: its result and the clock when it finished. */
  datatype TaskRun = TaskRun(success: bool, finishedAt: int)

  /** The row after `runAccountTasks`: `SUCCESS` or `FAILED`, with the finishing time. */
  function Apply(row: AccountRow, r: TaskRun): AccountRow {
    row.(status := if r.success then Success else Failed, lastRun := Some(r.finishedAt))
  }

  /** The skip guard: `status === 'SUCCESS' && lastRun > now - 3600000`, where a `null`
      `lastRun` compares as 0. */
  predicate Skips(row: AccountRow, nowMs: int) {
    row.status == Success && (if row.lastRun.Some? then row.lastRun.value else 0) > nowMs - SkipWindowMs
  }

  function Range(n: nat): (r: seq<nat>)
    ensures |r| == n && forall i :: 0 <= i < n ==> r[i] == i
  {
    seq(n, i requires 0 <= i < n => i)
  }

  predicate Increasing(s: seq<nat>) {
    forall i, j :: 0 <= i < j < |s| ==> s[i] < s[j]
  }

  /** A filter keeps an increasing list increasing. */
  lemma {:induction false} FilterIncreasing(s: seq<nat>, p: nat -> bool)
    requires Increasing(s)
    ensures Increasing(Filter(s, p))
    decreases |s|
  {
    if s != [] {
      FilterIncreasing(s[1..], p);
      var rest := Filter(s[1..], p);
      forall k | 0 <= k < |rest|
        ensures s[0] < rest[k]
      {
        assert rest[k] in s[1..];
      }
    }
  }

  /** The first pass, row by row: the run of round 0 unless the guard skips the row.
      `clock(i)` is the time at which row `i` is checked. */
  function FirstPassRows(rows: seq<AccountRow>, run: (nat, nat) -> TaskRun, clock: nat -> int): (r: seq<AccountRow>)
    ensures |r| == |rows|
  {
    seq(|rows|, i requires 0 <= i < |rows| => if Skips(rows[i], clock(i)) then rows[i] else Apply(rows[i], run(0, i)))
  }

  /** Row `i` is run in the first pass and fails. */
  function FailsFirst(rows: seq<AccountRow>, run: (nat, nat) -> TaskRun, clock: nat -> int): nat -> bool {
    (i: nat) => i < |rows| && !Skips(rows[i], clock(i)) && !run(0, i).success
  }

  /** The indices that fail in the first pass, in order. */
  function FirstFailures(rows: seq<AccountRow>, run: (nat, nat) -> TaskRun, clock: nat -> int): seq<nat> {
    Filter(Range(|rows|), FailsFirst(rows, run, clock))
  }

  /** A retry round over `failed`, as round `round` of the oracle. */
  function AfterRound(rows: seq<AccountRow>, failed: seq<nat>, run: (nat, nat) -> TaskRun, round: nat): (r: seq<AccountRow>)
    ensures |r| == |rows|
  {
    seq(|rows|, j requires 0 <= j < |rows| => if j in failed then Apply(rows[j], run(round, j)) else rows[j])
  }

  /** Row `j` fails when run in round `round`. */
  function FailsIn(run: (nat, nat) -> TaskRun, round: nat): nat -> bool {
    (j: nat) => !run(round, j).success
  }

  function StillFailing(failed: seq<nat>, run: (nat, nat) -> TaskRun, round: nat): seq<nat> {
    Filter(failed, FailsIn(run, round))
  }

  datatype Retried = Retried(rows: seq<AccountRow>, failed: seq<nat>, rounds: nat)

  /** The retry rounds from `round` on: at most `CycleRetryCount` in all, stopping early
      when nothing is left to retry. */
  function Retries(rows: seq<AccountRow>, failed: seq<nat>, run: (nat, nat) -> TaskRun, round: nat): (r: Retried)
    ensures |r.rows| == |rows| && |r.failed| <= |failed|
    ensures round <= r.rounds && (round <= CycleRetryCount ==> r.rounds <= CycleRetryCount)
    ensures r.failed == [] || r.rounds >= CycleRetryCount
    decreases CycleRetryCount - round
  {
    if failed == [] || round >= CycleRetryCount then Retried(rows, failed, round)
    else Retries(AfterRound(rows, failed, run, round + 1), StillFailing(failed, run, round + 1), run, round + 1)
  }

  /** The end of a cycle: every row that is not `FAILED` becomes `WAITING`, and every row
      gets the next run time. */
  function Close(rows: seq<AccountRow>, next: int): (r: seq<AccountRow>)
    ensures |r| == |rows|
    ensures forall j :: 0 <= j < |rows| ==>
      (r[j].status == Failed <==> rows[j].status == Failed) && (r[j].status == Failed || r[j].status == Waiting)
      && r[j].nextRun == Some(next) && r[j].lastRun == rows[j].lastRun
  {
    seq(|rows|, j requires 0 <= j < |rows| =>
      rows[j].(status := if rows[j].status == Failed then Failed else Waiting, nextRun := Some(next)))
  }

  /** A whole cycle: the first pass, the retry rounds, and the close at `endMs`. */
  function Cycle(rows: seq<AccountRow>, run: (nat, nat) -> TaskRun, clock: nat -> int, endMs: nat): (r: Retried)
    ensures |r.rows| == |rows| && r.rounds <= CycleRetryCount
    ensures forall j :: 0 <= j < |rows| ==>
      (r.rows[j].status == Failed || r.rows[j].status == Waiting) && r.rows[j].nextRun == Some(NextResetTime(endMs))
  {
    var r := Retries(FirstPassRows(rows, run, clock), FirstFailures(rows, run, clock), run, 0);
    r.(rows := Close(r.rows, NextResetTime(endMs)))
  }

  /** Exactly the listed rows are `FAILED`, every other row is `SUCCESS`. */
  predicate Marks(rows: seq<AccountRow>, failed: seq<nat>) {
    forall j :: 0 <= j < |rows| ==>
      (rows[j].status == Failed <==> j in failed) && (rows[j].status == Success || rows[j].status == Failed)
  }

  /** Retried failures are all in range and increasing. */
  predicate WellFormed(failed: seq<nat>, n: nat) {
    Increasing(failed) && forall k :: 0 <= k < |failed| ==> failed[k] < n
  }

  lemma {:induction false} FirstPassMarks(rows: seq<AccountRow>, run: (nat, nat) -> TaskRun, clock: nat -> int)
    ensures Marks(FirstPassRows(rows, run, clock), FirstFailures(rows, run, clock))
    ensures WellFormed(FirstFailures(rows, run, clock), |rows|)
  {
    var p := FailsFirst(rows, run, clock);
    var failed := FirstFailures(rows, run, clock);
    forall j | 0 <= j < |rows|
      ensures FirstPassRows(rows, run, clock)[j].status == Failed <==> j in failed
      ensures FirstPassRows(rows, run, clock)[j].status == Success || FirstPassRows(rows, run, clock)[j].status == Failed
    {
      FilterMembers<nat>(Range(|rows|), p, j);
      assert j in Range(|rows|) by { assert Range(|rows|)[j] == j; }
    }
    FilterIncreasing(Range(|rows|), p);
    forall k | 0 <= k < |failed|
      ensures failed[k] < |rows|
    {
      assert p(failed[k]);
    }
  }

  lemma {:induction false} RoundMarks(rows: seq<AccountRow>, failed: seq<nat>, run: (nat, nat) -> TaskRun, round: nat)
    requires Marks(rows, failed) && WellFormed(failed, |rows|)
    ensures Marks(AfterRound(rows, failed, run, round), StillFailing(failed, run, round))
    ensures WellFormed(StillFailing(failed, run, round), |rows|)
  {
    var p := FailsIn(run, round);
    var after, still := AfterRound(rows, failed, run, round), StillFailing(failed, run, round);
    forall j | 0 <= j < |rows|
      ensures (after[j].status == Failed <==> j in still) && (after[j].status == Success || after[j].status == Failed)
    {
      FilterMembers<nat>(failed, p, j);
      if j in failed {
        assert after[j] == Apply(rows[j], run(round, j));
      } else {
        assert after[j] == rows[j];
      }
    }
    FilterIncreasing(failed, p);
  }

  /** Across the retry rounds exactly the still-failing rows are `FAILED`; the rounds stop
      after `CycleRetryCount` or when nothing is left, and only earlier failures are retried. */
  lemma {:induction false} RetriesMarks(rows: seq<AccountRow>, failed: seq<nat>, run: (nat, nat) -> TaskRun, round: nat)
    requires Marks(rows, failed) && WellFormed(failed, |rows|) && round <= CycleRetryCount
    ensures var r := Retries(rows, failed, run, round);
      Marks(r.rows, r.failed) && |r.rows| == |rows| && round <= r.rounds <= CycleRetryCount
      && (r.failed == [] || r.rounds == CycleRetryCount)
      && forall j :: j in r.failed ==> j in failed
    decreases CycleRetryCount - round
  {
    if failed != [] && round < CycleRetryCount {
      RoundMarks(rows, failed, run, round + 1);
      RetriesMarks(AfterRound(rows, failed, run, round + 1), StillFailing(failed, run, round + 1), run, round + 1);
      forall j | j in StillFailing(failed, run, round + 1)
        ensures j in failed
      {
        FilterMembers<nat>(failed, FailsIn(run, round + 1), j);
      }
    }
  }

  /** At the end of a cycle a row is `FAILED` exactly when its account is in the final
      failure list, every other row is `WAITING`, and all rows wait for the next UTC
      midnight. */
  lemma {:induction false} CycleOutcome(rows: seq<AccountRow>, run: (nat, nat) -> TaskRun, clock: nat -> int, endMs: nat)
    ensures var c := Cycle(rows, run, clock, endMs);
      |c.rows| == |rows| && c.rounds <= CycleRetryCount
      && (c.failed == [] || c.rounds == CycleRetryCount)
      && forall j :: 0 <= j < |rows| ==>
           (c.rows[j].status == Failed <==> j in c.failed)
           && (c.rows[j].status == Failed || c.rows[j].status == Waiting)
           && c.rows[j].nextRun == Some(NextResetTime(endMs))
  {
    FirstPassMarks(rows, run, clock);
    RetriesMarks(FirstPassRows(rows, run, clock), FirstFailures(rows, run, clock), run, 0);
  }

  lemma FilterRangeStep(i: nat, p: nat -> bool)
    ensures Filter(Range(i + 1), p) == Filter(Range(i), p) + (if p(i) then [i] else [])
  {
    assert Range(i + 1) == Range(i) + [i];
    FilterAppend(Range(i), [i], p);
  }

  lemma {:induction false} FirstPassAt(rows: seq<AccountRow>, run: (nat, nat) -> TaskRun, clock: nat -> int, i: nat)
    requires i < |rows|
    ensures FailsFirst(rows, run, clock)(i) == (!Skips(rows[i], clock(i)) && !run(0, i).success)
    ensures FirstPassRows(rows, run, clock)[i]
      == if Skips(rows[i], clock(i)) then rows[i] else Apply(rows[i], run(0, i))
  {
  }

  lemma {:induction false} FilterPrefixStep(s: seq<nat>, k: nat, p: nat -> bool)
    requires k < |s|
    ensures Filter(s[..k + 1], p) == Filter(s[..k], p) + (if p(s[k]) then [s[k]] else [])
  {
    assert s[..k + 1] == s[..k] + [s[k]];
    FilterAppend(s[..k], [s[k]], p);
  }

  /** One more account of the round: the rows so far with that account's run applied. */
  lemma {:induction false} AfterRoundStep(rows: seq<AccountRow>, failed: seq<nat>, k: nat,
                                          run: (nat, nat) -> TaskRun, round: nat)
    requires WellFormed(failed, |rows|) && k < |failed|
    ensures var cur := AfterRound(rows, failed[..k], run, round);
      AfterRound(rows, failed[..k + 1], run, round) == cur[failed[k] := Apply(cur[failed[k]], run(round, failed[k]))]
  {
    var idx := failed[k];
    assert idx !in failed[..k];
    assert failed[..k + 1] == failed[..k] + [idx];
  }

  class State {
    var accounts: seq<AccountRow>
    var logs: seq<string>

    predicate Valid()
      reads this
    {
      |logs| <= LogLimit
    }

    constructor()
      ensures Valid() && accounts == [] && logs == []
    {
      accounts := [];
      logs := [];
    }

    /** `logToState`: the entry is the message behind its `[time]` stamp. */
    method LogToState(timestamp: string, msg: string)
      requires Valid()
      modifies this
      ensures Valid() && logs == Logged(old(logs), "[" + timestamp + "] " + msg)
      ensures accounts == old(accounts)
    {
      logs := logs + ["[" + timestamp + "] " + msg];
      if |logs| > LogLimit {
        logs := logs[1..];
      }
    }
  

    /** The first pass of a cycle over every account, in order. */
    method FirstPass(run: (nat, nat) -> TaskRun, clock: nat -> int) returns (failed: seq<nat>)
      modifies this
      ensures accounts == FirstPassRows(old(accounts), run, clock)
      ensures failed == FirstFailures(old(accounts), run, clock)
      ensures logs == old(logs)
    {
      var rows := accounts;
      var n := |accounts|;
      ghost var target := FirstPassRows(rows, run, clock);
      ghost var fails := FailsFirst(rows, run, clock);
      failed := [];
      var i: nat := 0;
      while i < n
        invariant i <= n && |accounts| == n
        invariant forall j :: 0 <= j < i ==> accounts[j] == target[j]
        invariant forall j :: i <= j < n ==> accounts[j] == rows[j]
        invariant failed == Filter(Range(i), fails)
        invariant logs == old(logs)
      {
        FilterRangeStep(i, fails);
        FirstPassAt(rows, run, clock, i);
        var row := accounts[i];
        if Skips(row, clock(i)) {
          i := i + 1;
          continue;
        }
        // The row shows `PROCESSING` while `runAccountTasks` runs; the run then sets it.
        var result := run(0, i);
        accounts := accounts[i := Apply(row.(status := Processing), result)];
        if !result.success {
          failed := failed + [i];
        }
        i := i + 1;
      }
      assert accounts == target;
    }

    /** One retry round over `failed`, in order. */
    method RetryRound(failed: seq<nat>, run: (nat, nat) -> TaskRun, round: nat) returns (next: seq<nat>)
      requires WellFormed(failed, |accounts|)
      modifies this
      ensures accounts == AfterRound(old(accounts), failed, run, round)
      ensures next == StillFailing(failed, run, round)
      ensures logs == old(logs)
    {
      var rows := accounts;
      next := [];
      var k := 0;
      while k < |failed|
        invariant 0 <= k <= |failed| && |accounts| == |rows|
        invariant accounts == AfterRound(rows, failed[..k], run, round)
        invariant next == Filter(failed[..k], FailsIn(run, round))
        invariant logs == old(logs)
      {
        FilterPrefixStep(failed, k, FailsIn(run, round));
        AfterRoundStep(rows, failed, k, run, round);
        var idx := failed[k];
        accounts := accounts[idx := accounts[idx].(status := Retrying)];
        var result := run(round, idx);
        accounts := accounts[idx := Apply(accounts[idx], result)];
        if !result.success {
          next := next + [idx];
        }
        k := k + 1;
      }
      assert failed[..|failed|] == failed;
    }

    /** The retry rounds of a cycle: at most `CycleRetryCount`, each over the accounts that
        are still failing. */
    method RetryRounds(failed0: seq<nat>, run: (nat, nat) -> TaskRun) returns (failed: seq<nat>, retries: nat)
      requires Marks(accounts, failed0) && WellFormed(failed0, |accounts|)
      modifies this
      ensures Retries(old(accounts), failed0, run, 0) == Retried(accounts, failed, retries)
      ensures logs == old(logs)
    {
      failed, retries := failed0, 0;
      while failed != [] && retries < CycleRetryCount
        invariant retries <= CycleRetryCount
        invariant Marks(accounts, failed) && WellFormed(failed, |accounts|)
        invariant Retries(old(accounts), failed0, run, 0) == Retries(accounts, failed, run, retries)
        invariant logs == old(logs)
        decreases CycleRetryCount - retries
      {
        retries := retries + 1;
        RoundMarks(accounts, failed, run, retries);
        failed := RetryRound(failed, run, retries);
      }
    }

    /** The end of a cycle. */
    method CloseCycle(next: int)
      modifies this
      ensures accounts == Close(old(accounts), next)
      ensures logs == old(logs)
    {
      var rows := accounts;
      var i := 0;
      while i < |accounts|
        invariant 0 <= i <= |accounts| && |accounts| == |rows|
        invariant forall j :: 0 <= j < i ==> accounts[j] == Close(rows, next)[j]
        invariant forall j :: i <= j < |accounts| ==> accounts[j] == rows[j]
        invariant logs == old(logs)
      {
        if accounts[i].status != Failed {
          accounts := accounts[i := accounts[i].(status := Waiting)];
        }
        accounts := accounts[i := accounts[i].(nextRun := Some(next))];
        i := i + 1;
      }
    }

    /** One cycle of the loop in `main`, up to the wait for the next reset at `endMs`.
        `run(r, i)` is `runAccountTasks` for account `i` in retry round `r` (0 for the first
        pass), `clock(i)` the time at which the first pass checks account `i`. The cycle's
        log messages are not part of the model, so the log is left as it was; in the
        program each of them goes through `LogToState`. */
    method RunCycle(run: (nat, nat) -> TaskRun, clock: nat -> int, endMs: nat) returns (failed: seq<nat>, retries: nat)
      modifies this
      ensures Cycle(old(accounts), run, clock, endMs) == Retried(accounts, failed, retries)
      ensures logs == old(logs)
    {
      FirstPassMarks(accounts, run, clock);
      var first := FirstPass(run, clock);
      failed, retries := RetryRounds(first, run);
      CloseCycle(NextResetTime(endMs));
    }

    /** After the wait: every row back to `WAITING` with no next run, and the log cleared. */
    method Rearm()
      modifies this
      ensures |accounts| == |old(accounts)|
      ensures forall j :: 0 <= j < |accounts| ==>
        accounts[j] == old(accounts)[j].(status := Waiting, nextRun := None)
      ensures logs == [] && Valid()
    {
      var i := 0;
      while i < |accounts|
        invariant 0 <= i <= |accounts| && |accounts| == |old(accounts)|
        invariant forall j :: 0 <= j < i ==> accounts[j] == old(accounts)[j].(status := Waiting, nextRun := None)
        invariant forall j :: i <= j < |accounts| ==> accounts[j] == old(accounts)[j]
      {
        accounts := accounts[i := accounts[i].(status := Waiting, nextRun := None)];
        i := i + 1;
      }
      logs := [];
    }
  }
}
