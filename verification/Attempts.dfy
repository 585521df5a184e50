/** The limiter of guesses: `spend`, `blocked_for` and `purge_expired` of api/src/attempts.rs. Times are in microseconds. */
module Attempts {
  import opened Results

  const SECOND: int := 1_000_000
  const FREE_ATTEMPTS: int := 10
  const FIRST_BLOCK_SECONDS: int := 60
  const LONGEST_BLOCK_SECONDS: int := 3600
  const MEMORY: int := 86_400 * SECOND
  const MOST_RECORDED: int := 0x7FFF_FFFF

  function Power(n: nat): (p: nat)
    ensures p >= 1
  {
    if n == 0 then 1 else 2 * Power(n - 1)
  }

  /** `blocked_for`, in seconds: nothing for the first nine, then a minute, doubling, up to an hour. */
  function BlockedFor(recorded: int): int {
    var over := recorded - FREE_ATTEMPTS;
    if over < 0 then 0
    else
      var seconds := FIRST_BLOCK_SECONDS * Power(if over < 31 then over else 31);
      if seconds < LONGEST_BLOCK_SECONDS then seconds else LONGEST_BLOCK_SECONDS
  }

  datatype Row = Row(failures: int, lastAt: int, blockedUntil: Option<int>)

  /** What `spend` reads: the row, unless nothing followed it for as long as failures are remembered. */
  function Standing(row: Option<Row>, now: int): Option<Row> {
    if row.Some? && row.value.lastAt > now - MEMORY then row else None
  }

  predicate Blocked(row: Option<Row>, now: int) {
    Standing(row, now).Some? && row.value.blockedUntil.Some? && row.value.blockedUntil.value > now
  }

  /** What an attempt that is evaluated counts as. */
  function Recorded(row: Option<Row>, now: int): int {
    if Standing(row, now).None? then 1
    else if row.value.failures >= MOST_RECORDED then MOST_RECORDED else row.value.failures + 1
  }

  /** The row after an attempt that is evaluated. */
  function Spent(row: Option<Row>, now: int): Row {
    var recorded := Recorded(row, now);
    var block := BlockedFor(recorded);
    Row(recorded, now, if block > 0 then Some(now + block * SECOND) else None)
  }

  class Limiter {
    var row: Option<Row>

    /** `spend`: refused while a block is in force, and otherwise counted, to be evaluated. */
    method Spend(now: int) returns (evaluated: bool)
      modifies this
      ensures evaluated == !Blocked(old(row), now)
      ensures row == if evaluated then Some(Spent(old(row), now)) else old(row)
    {
      var recorded := 1;
      if row.Some? && row.value.lastAt > now - MEMORY {
        if row.value.blockedUntil.Some? && row.value.blockedUntil.value > now { return false; }
        recorded := if row.value.failures >= MOST_RECORDED then MOST_RECORDED else row.value.failures + 1;
      }
      var block := BlockedFor(recorded);
      row := Some(Row(recorded, now, if block > 0 then Some(now + block * SECOND) else None));
      return true;
    }

    /** `purge_expired`. */
    method PurgeExpired(now: int)
      modifies this
      ensures row == if old(row).Some? && old(row).value.lastAt < now - MEMORY then None else old(row)
    {
      if row.Some? && row.value.lastAt < now - MEMORY { row := None; }
    }
  }

  // ---------- the block ----------

  lemma {:induction false} PowerGrows(a: nat, b: nat)
    requires a <= b
    ensures Power(a) <= Power(b)
    decreases b - a
  {
    if a < b { PowerGrows(a, b - 1); }
  }

  lemma {:induction false} PowerAdds(a: nat, b: nat)
    ensures Power(a + b) == Power(a) * Power(b)
  {
    if b > 0 { PowerAdds(a, b - 1); }
  }

  /** The block never exceeds an hour, never shrinks as attempts pile up, and never overflows what it is computed in. */
  lemma BlockIsBounded(recorded: int, more: int)
    requires recorded <= more
    ensures 0 <= BlockedFor(recorded) <= BlockedFor(more) <= LONGEST_BLOCK_SECONDS
    ensures recorded >= FREE_ATTEMPTS ==> BlockedFor(recorded) >= FIRST_BLOCK_SECONDS
    ensures recorded >= FREE_ATTEMPTS ==>
              FIRST_BLOCK_SECONDS * Power(if recorded - FREE_ATTEMPTS < 31 then recorded - FREE_ATTEMPTS else 31) < 0x8000_0000_0000_0000
  {
    assert Power(8) == 0x100;
    PowerAdds(8, 8);
    PowerAdds(16, 8);
    PowerAdds(24, 7);
    if recorded >= FREE_ATTEMPTS {
      var a := if recorded - FREE_ATTEMPTS < 31 then recorded - FREE_ATTEMPTS else 31;
      var b := if more - FREE_ATTEMPTS < 31 then more - FREE_ATTEMPTS else 31;
      PowerGrows(a, b);
      PowerGrows(a, 31);
    }
  }

  lemma BlockIsLongest(recorded: int)
    requires recorded >= 16
    ensures BlockedFor(recorded) == LONGEST_BLOCK_SECONDS
  {
    assert Power(6) == 64;
    PowerGrows(6, if recorded - FREE_ATTEMPTS < 31 then recorded - FREE_ATTEMPTS else 31);
  }

  // ---------- schedules of guesses ----------

  /** What happens to one subject, with nobody guessing right and nobody unlocking it. */
  datatype Event = Guess(now: int) | Purge(now: int)

  ghost predicate InOrder(events: seq<Event>) { forall i, j :: 0 <= i < j < |events| ==> events[i].now <= events[j].now }

  /** A guess that was evaluated: when, and as which one it counted. */
  datatype Evaluated = Evaluated(at: int, recorded: int)

  function Next(row: Option<Row>, event: Event): Option<Row> {
    match event
    case Guess(now) => if Blocked(row, now) then row else Some(Spent(row, now))
    case Purge(now) => if row.Some? && row.value.lastAt < now - MEMORY then None else row
  }

  /** A row counts for a day to the microsecond, and deleting it after that, or at any time before the next guess, makes no difference. */
  lemma PurgingIsInvisible(row: Option<Row>, purged: int, now: int)
    requires row.Some? ==> row.value.failures >= 1
    requires purged <= now
    ensures var after := Next(row, Purge(purged)); Blocked(after, now) == Blocked(row, now) && Recorded(after, now) == Recorded(row, now)
    ensures row.Some? && row.value.failures < MOST_RECORDED ==> (Recorded(row, now) == row.value.failures + 1 <==> now < row.value.lastAt + MEMORY)
  {
  }

  /** The guesses evaluated of a schedule, from a row on. */
  function Evaluations(row: Option<Row>, events: seq<Event>): seq<Evaluated>
    decreases |events|
  {
    if events == [] then []
    else
      var rest := Evaluations(Next(row, events[0]), events[1..]);
      if events[0].Guess? && !Blocked(row, events[0].now) then [Evaluated(events[0].now, Recorded(row, events[0].now))] + rest else rest
  }

  /** One evaluated guess after another: counted on after its block, or from one again after the memory ran out. */
  ghost predicate Follows(a: Evaluated, b: Evaluated) {
    || (b.recorded == (if a.recorded >= MOST_RECORDED then MOST_RECORDED else a.recorded + 1) && b.at >= a.at + BlockedFor(a.recorded) * SECOND)
    || (b.recorded == 1 && b.at >= a.at + MEMORY)
  }

  /** A row as an evaluated guess leaves it, or none long after one. */
  ghost predicate Remembers(row: Option<Row>, last: Evaluated, now: int) {
    if row.Some? then row == Some(Row(last.recorded, last.at, if BlockedFor(last.recorded) > 0 then Some(last.at + BlockedFor(last.recorded) * SECOND) else None))
    else now >= last.at + MEMORY
  }

  lemma {:induction false} NextFollows(row: Option<Row>, events: seq<Event>, last: Evaluated)
    requires InOrder(events) && (events != [] ==> Remembers(row, last, events[0].now) && last.at <= events[0].now) && 1 <= last.recorded
    ensures Evaluations(row, events) != [] ==> Follows(last, Evaluations(row, events)[0])
    decreases |events|
  {
    if events != [] {
      var next := Next(row, events[0]);
      assert InOrder(events[1..]);
      if events[0].Purge? || Blocked(row, events[0].now) { NextFollows(next, events[1..], last); }
    }
  }

  lemma SpentRemembers(row: Option<Row>, now: int, later: int)
    ensures Remembers(Some(Spent(row, now)), Evaluated(now, Recorded(row, now)), later)
  {
  }

  /** Every evaluated guess of a schedule follows the one before it. */
  lemma {:induction false} EachFollows(row: Option<Row>, events: seq<Event>, k: nat)
    requires InOrder(events) && k + 1 < |Evaluations(row, events)| && (row.Some? ==> row.value.failures >= 1)
    ensures Follows(Evaluations(row, events)[k], Evaluations(row, events)[k + 1])
    ensures Evaluations(row, events)[k].recorded >= 1
    decreases |events|
  {
    var next, rest := Next(row, events[0]), events[1..];
    assert InOrder(rest);
    if events[0].Guess? && !Blocked(row, events[0].now) {
      if k == 0 {
        var first := Evaluated(events[0].now, Recorded(row, events[0].now));
        if rest != [] { SpentRemembers(row, events[0].now, rest[0].now); }
        NextFollows(next, rest, first);
      } else {
        EachFollows(next, rest, k - 1);
      }
    } else {
      EachFollows(next, rest, k);
    }
  }

  // ---------- how many fit into a day ----------

  /** The blocks the first `n` guesses start. */
  function Blocks(n: nat): int { if n == 0 then 0 else Blocks(n - 1) + BlockedFor(n) }

  /** Thirty-eight guesses in a row start blocks of more than a day. */
  lemma {:induction false} LongBlocks(n: nat)
    requires n >= 15
    ensures Blocks(n) == 3780 + 3600 * (n - 15)
  {
    if n == 15 {
      assert Power(0) == 1 && Power(1) == 2 && Power(2) == 4 && Power(3) == 8 && Power(4) == 16 && Power(5) == 32;
      assert Blocks(9) == 0;
      assert Blocks(12) == 420;
    } else {
      LongBlocks(n - 1);
      BlockIsLongest(n);
    }
  }

  ghost predicate InARow(guesses: seq<Evaluated>) {
    && (forall k :: 0 <= k < |guesses| - 1 ==> Follows(guesses[k], guesses[k + 1]))
    && (forall k :: 0 <= k < |guesses| ==> 1 <= guesses[k].recorded)
  }

  /** Without a fresh start, at least the blocks of as many first guesses have been served. */
  lemma {:induction false} BlocksAreServed(guesses: seq<Evaluated>, n: nat)
    requires InARow(guesses) && n < |guesses| && n < 100
    requires forall k :: 0 <= k < n ==> guesses[k + 1].at < guesses[k].at + MEMORY
    ensures guesses[n].recorded >= n + 1
    ensures guesses[n].at >= guesses[0].at + Blocks(n) * SECOND
  {
    if n > 0 {
      BlocksAreServed(guesses, n - 1);
      assert Follows(guesses[n - 1], guesses[n - 1 + 1]);
      BlockIsBounded(n, guesses[n - 1].recorded);
    }
  }

  lemma {:induction false} TimeGoesOn(guesses: seq<Evaluated>, i: nat, j: nat)
    requires InARow(guesses) && i <= j < |guesses|
    ensures guesses[i].at <= guesses[j].at
  {
    if i < j {
      TimeGoesOn(guesses, i, j - 1);
      assert Follows(guesses[j - 1], guesses[j - 1 + 1]);
      BlockIsBounded(guesses[j - 1].recorded, guesses[j - 1].recorded);
    }
  }

  /** Ten guesses may come at once; the eleventh waits at least a minute. */
  lemma TenAtOnce(guesses: seq<Evaluated>)
    requires InARow(guesses) && |guesses| > 10
    ensures guesses[|guesses| - 1].at > guesses[0].at
  {
    TimeGoesOn(guesses, 10, |guesses| - 1);
    if forall k :: 0 <= k < 10 ==> guesses[k + 1].at < guesses[k].at + MEMORY {
      BlocksAreServed(guesses, 10);
      assert Power(0) == 1;
      assert Blocks(10) == 60;
    } else {
      var k :| 0 <= k < 10 && guesses[k + 1].at >= guesses[k].at + MEMORY;
      TimeGoesOn(guesses, 0, k);
      TimeGoesOn(guesses, k + 1, |guesses| - 1);
    }
  }

  lemma PartIsInARow(guesses: seq<Evaluated>, i: nat, j: nat)
    requires InARow(guesses) && i <= j <= |guesses|
    ensures InARow(guesses[i..j])
  {
    forall k | 0 <= k < |guesses[i..j]| - 1 ensures Follows(guesses[i..j][k], guesses[i..j][k + 1]) {
      assert Follows(guesses[i + k], guesses[i + k + 1]);
    }
  }

  /** More than thirty-eight guesses in a row take more than a day, even across a fresh start. */
  lemma MoreTakeLonger(guesses: seq<Evaluated>)
    requires InARow(guesses) && |guesses| > 38
    ensures guesses[|guesses| - 1].at > guesses[0].at + MEMORY
  {
    var last := |guesses| - 1;
    TimeGoesOn(guesses, 38, last);
    if forall k :: 0 <= k < 38 ==> guesses[k + 1].at < guesses[k].at + MEMORY {
      BlocksAreServed(guesses, 38);
      LongBlocks(38);
    } else {
      var k :| 0 <= k < 38 && guesses[k + 1].at >= guesses[k].at + MEMORY;
      TimeGoesOn(guesses, 0, k);
      TimeGoesOn(guesses, k + 1, last);
      if k + 1 > 10 {
        PartIsInARow(guesses, 0, k + 1);
        TenAtOnce(guesses[0..k + 1]);
      } else {
        PartIsInARow(guesses, k + 1, |guesses|);
        TenAtOnce(guesses[k + 1..|guesses|]);
      }
    }
  }

  /**
    For every schedule of guesses, however it is timed and whatever the row was when it began, at most
    thirty-eight are evaluated in any twenty-four hours, both ends included.
   */
  lemma AtMostThirtyEightADay(row: Option<Row>, events: seq<Event>, i: nat, j: nat)
    requires InOrder(events) && (row.Some? ==> row.value.failures >= 1)
    requires i <= j < |Evaluations(row, events)|
    requires Evaluations(row, events)[j].at <= Evaluations(row, events)[i].at + MEMORY
    ensures j - i + 1 <= 38
  {
    hide Evaluations, Follows;
    var all := Evaluations(row, events);
    forall k | 0 <= k < |all| - 1 ensures Follows(all[k], all[k + 1]) { EachFollows(row, events, k); }
    EachCounts(row, events);
    assert InARow(all);
    PartIsInARow(all, i, j + 1);
    if j - i + 1 > 38 { MoreTakeLonger(all[i..j + 1]); }
  }

  lemma {:induction false} EachCounts(row: Option<Row>, events: seq<Event>)
    requires row.Some? ==> row.value.failures >= 1
    ensures forall k :: 0 <= k < |Evaluations(row, events)| ==> Evaluations(row, events)[k].recorded >= 1
    decreases |events|
  {
    if events != [] { EachCounts(Next(row, events[0]), events[1..]); }
  }

  // ---------- the bound is reached ----------

  function RowAfter(row: Option<Row>, events: seq<Event>): Option<Row> {
    if events == [] then row else Next(RowAfter(row, events[..|events| - 1]), events[|events| - 1])
  }

  /** Guesses made the moment each block is served. */
  function Patient(n: nat): seq<Event> { if n == 0 then [] else Patient(n - 1) + [Guess(Blocks(n - 1) * SECOND)] }

  lemma {:induction false} RowAfterFirst(row: Option<Row>, events: seq<Event>)
    requires events != []
    ensures RowAfter(row, events) == RowAfter(Next(row, events[0]), events[1..])
    decreases |events|
  {
    var fewer := events[..|events| - 1];
    if |events| == 1 { assert fewer == [] && events[1..] == []; }
    else {
      RowAfterFirst(row, fewer);
      assert fewer[1..] == events[1..][..|events| - 2];
    }
  }

  lemma {:induction false} OneMoreGuess(row: Option<Row>, events: seq<Event>, now: int)
    requires !Blocked(RowAfter(row, events), now)
    ensures Evaluations(row, events + [Guess(now)]) == Evaluations(row, events) + [Evaluated(now, Recorded(RowAfter(row, events), now))]
    decreases |events|
  {
    if events == [] {
      assert [] + [Guess(now)] == [Guess(now)] && [Guess(now)][1..] == [];
      assert Evaluations(Next(row, Guess(now)), []) == [];
    } else {
      assert (events + [Guess(now)])[1..] == events[1..] + [Guess(now)];
      RowAfterFirst(row, events);
      OneMoreGuess(Next(row, events[0]), events[1..], now);
    }
  }

  lemma {:induction false} BlocksGrow(a: nat, b: nat)
    requires a <= b
    ensures Blocks(a) <= Blocks(b)
    decreases b - a
  {
    if a < b {
      BlocksGrow(a, b - 1);
      BlockIsBounded(b, b);
    }
  }

  lemma {:induction false} PatientAre(n: nat)
    ensures |Patient(n)| == n && forall k :: 0 <= k < n ==> Patient(n)[k] == Guess(Blocks(k) * SECOND)
  {
    if n > 0 { PatientAre(n - 1); }
  }

  lemma PatientIsInOrder(n: nat)
    ensures InOrder(Patient(n))
  {
    PatientAre(n);
    forall i, j | 0 <= i < j < n ensures Patient(n)[i].now <= Patient(n)[j].now { BlocksGrow(i, j); }
  }

  function PatientRow(n: nat): Row
    requires n > 0
  {
    Row(n, Blocks(n - 1) * SECOND, if BlockedFor(n) > 0 then Some(Blocks(n) * SECOND) else None)
  }

  lemma OneMorePatient(n: nat)
    requires 0 < n < 1000
    ensures !Blocked(Some(PatientRow(n)), Blocks(n) * SECOND) && Spent(Some(PatientRow(n)), Blocks(n) * SECOND) == PatientRow(n + 1)
  {
    hide Blocks, BlockedFor;
    BlockIsBounded(n, n);
    OneMoreBlock(n);
    OneMoreBlock(n + 1);
  }

  lemma OneMoreBlock(n: nat)
    requires n > 0
    ensures Blocks(n) == Blocks(n - 1) + BlockedFor(n)
  {
  }

  lemma {:induction false} PatienceIsEvaluated(n: nat)
    requires 0 < n < 1000
    ensures RowAfter(None, Patient(n)) == Some(PatientRow(n))
    ensures |Evaluations(None, Patient(n))| == n && forall k :: 0 <= k < n ==> Evaluations(None, Patient(n))[k].at == Blocks(k) * SECOND
  {
    hide Spent, Blocks, Blocked, Recorded, PatientRow;
    var fewer := Patient(n - 1);
    assert Patient(n)[..|fewer|] == fewer;
    if n == 1 {
      FirstIsFree();
    } else {
      PatienceIsEvaluated(n - 1);
      OneMorePatient(n - 1);
    }
    OneMoreGuess(None, fewer, Blocks(n - 1) * SECOND);
  }

  lemma FirstIsFree()
    ensures Blocks(0) == 0 && !Blocked(None, 0) && Spent(None, 0) == PatientRow(1)
  {
  }

  /** Thirty-eight guesses do fit into a day, made the moment each block is served. */
  lemma ThirtyEightFit()
    ensures InOrder(Patient(38)) && |Evaluations(None, Patient(38))| == 38
    ensures Evaluations(None, Patient(38))[37].at <= Evaluations(None, Patient(38))[0].at + MEMORY
  {
    PatienceIsEvaluated(38);
    PatientIsInOrder(38);
    LongBlocks(37);
    assert Blocks(0) == 0;
  }
}
