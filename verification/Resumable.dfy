/** The client's side of a resumable upload: `fill_upload` and `send_chunk` of crates/client/src/resumable.rs. */
module Resumable {
  import opened Results
  import opened Uploads

  const ATTEMPTS: nat := 5
  const FIRST_WAIT: nat := 500

  /** What becomes of one chunk: the offset the server answers with, a failure and what it says of the offset afterwards, or an end. */
  datatype Answer = Landed(next: nat) | Retry(offset: Option<nat>) | Fatal

  datatype Outcome = Done | Failed | Unanswered

  /** The offset a client takes from an answer, if there is one in it. */
  function Told(answer: Answer): Option<nat> {
    match answer
    case Landed(next) => Some(next)
    case Retry(offset) => offset
    case Fatal => None
  }

  /** What was asked for of the source each time: from where, and how much. */
  type Sent = seq<(nat, nat)>

  /** How many failures in a row the first `n` answers end with. */
  function Failing(answers: seq<Answer>, n: nat): nat
    requires n <= |answers|
  {
    if n == 0 || !answers[n - 1].Retry? then 0 else Failing(answers, n - 1) + 1
  }

  /** The reasons to give up after `n` answers. */
  predicate GivesUpAfter(answers: seq<Answer>, n: nat)
    requires n <= |answers|
  {
    n > 0 && (answers[n - 1].Fatal? || Failing(answers, n) > ATTEMPTS)
  }

  /** `read_at` reads exactly what it is asked for, so it must be there. */
  predicate WithinTheSource(sent: Sent, size: nat, chunk: nat) {
    forall i :: 0 <= i < |sent| ==> 0 < sent[i].1 <= chunk && sent[i].0 + sent[i].1 <= size
  }

  /** The offset after so many answers: the last one told, or the one begun with. */
  function OffsetAfter(begun: nat, answers: seq<Answer>, n: nat): nat
    requires n <= |answers|
  {
    if n == 0 then begun
    else if Told(answers[n - 1]).Some? then Told(answers[n - 1]).value
    else OffsetAfter(begun, answers, n - 1)
  }

  /** What is asked of the source: from the last offset told, a chunk or what is left. */
  function Next(received: nat, size: nat, chunk: nat): (nat, nat)
    requires received < size
  {
    (received, if chunk <= size - received then chunk else size - received)
  }

  ghost predicate InStep(sent: Sent, begun: nat, answers: seq<Answer>, size: nat, chunk: nat) {
    |sent| <= |answers| + 1 &&
    forall k :: 0 <= k < |sent| ==> OffsetAfter(begun, answers, k) < size && sent[k] == Next(OffsetAfter(begun, answers, k), size, chunk)
  }

  /** None of the first `n` answers was a reason to give up. */
  ghost predicate GoesOn(answers: seq<Answer>, n: nat) {
    forall i :: 0 <= i <= n && i <= |answers| ==> !GivesUpAfter(answers, i)
  }

  lemma OneMoreSent(sent: Sent, begun: nat, answers: seq<Answer>, size: nat, chunk: nat)
    requires InStep(sent, begun, answers, size, chunk) && WithinTheSource(sent, size, chunk) && |sent| <= |answers| && chunk > 0
    requires OffsetAfter(begun, answers, |sent|) < size
    ensures var more := sent + [Next(OffsetAfter(begun, answers, |sent|), size, chunk)];
            InStep(more, begun, answers, size, chunk) && WithinTheSource(more, size, chunk)
  {
    hide OffsetAfter;
  }

  lemma NothingSent(begun: nat, answers: seq<Answer>, size: nat, chunk: nat)
    ensures InStep([], begun, answers, size, chunk) && WithinTheSource([], size, chunk) && GoesOn(answers, 0)
  {
  }

  lemma GoesOnOnce(answers: seq<Answer>, n: nat)
    requires GoesOn(answers, n) && n < |answers| && !GivesUpAfter(answers, n + 1)
    ensures GoesOn(answers, n + 1)
  {
    hide GivesUpAfter;
  }

  /** The wait doubles with each failure in a row. */
  function WaitAfter(failures: nat): (wait: nat)
    ensures wait >= FIRST_WAIT
  {
    if failures == 0 then FIRST_WAIT else 2 * WaitAfter(failures - 1)
  }

  lemma {:induction false} WaitsGrow(failures: nat, most: nat)
    requires failures <= most
    ensures WaitAfter(failures) <= WaitAfter(most)
  {
    if failures < most { WaitsGrow(failures, most - 1); }
  }

  /** What is slept: the wait after every failure but the last, in a row or not. */
  predicate Bounded(slept: seq<nat>) { forall i :: 0 <= i < |slept| ==> FIRST_WAIT <= slept[i] <= WaitAfter(ATTEMPTS - 1) }

  /**
    `fill_upload`, against the answers the network gives in turn. Every chunk sent starts at the last
    offset told and is within the source. It is done as soon as that offset reaches the size; it gives up
    at the first answer that ends it, or one more than `ATTEMPTS` failures in a row; and it never sleeps
    longer than sixteen times the first wait.
   */
  method FillUpload(size: nat, chunk: nat, begun: nat, answers: seq<Answer>) returns (outcome: Outcome, received: nat, sent: Sent, slept: seq<nat>)
    requires chunk > 0
    ensures WithinTheSource(sent, size, chunk) && InStep(sent, begun, answers, size, chunk)
    ensures outcome.Done? ==> |sent| <= |answers| && received == OffsetAfter(begun, answers, |sent|) >= size
    ensures outcome.Failed? ==> 0 < |sent| <= |answers| && GivesUpAfter(answers, |sent|) && received == OffsetAfter(begun, answers, |sent| - 1)
    ensures outcome.Unanswered? ==> |sent| == |answers| + 1 && received == OffsetAfter(begun, answers, |answers|) < size
    ensures if outcome.Failed? then GoesOn(answers, |sent| - 1) else GoesOn(answers, |sent|)
    ensures Bounded(slept) && WaitAfter(ATTEMPTS - 1) == 16 * FIRST_WAIT
  {
    hide InStep, WithinTheSource, GoesOn;
    received, sent, slept := begun, [], [];
    var failures, wait, i := 0, FIRST_WAIT, 0;
    NothingSent(begun, answers, size, chunk);
    assert WaitAfter(1) == 2 * FIRST_WAIT && WaitAfter(3) == 4 * WaitAfter(1);
    while received < size
      invariant i <= |answers| && |sent| == i && WithinTheSource(sent, size, chunk)
      invariant InStep(sent, begun, answers, size, chunk) && received == OffsetAfter(begun, answers, i)
      invariant failures <= ATTEMPTS && failures == Failing(answers, i) && wait == WaitAfter(failures)
      invariant GoesOn(answers, i) && Bounded(slept)
      decreases |answers| - i
    {
      OneMoreSent(sent, begun, answers, size, chunk);
      var take := if chunk <= size - received then chunk else size - received;
      sent := sent + [(received, take)];
      if i == |answers| {
        AllAnswered(answers);
        return Unanswered, received, sent, slept;
      }
      var answer := answers[i];
      i := i + 1;
      match answer
      case Landed(next) =>
        GoesOnOnce(answers, i - 1);
        received, failures, wait := next, 0, FIRST_WAIT;
      case Fatal =>
        return Failed, received, sent, slept;
      case Retry(offset) =>
        failures := failures + 1;
        if failures > ATTEMPTS { return Failed, received, sent, slept; }
        GoesOnOnce(answers, i - 1);
        WaitsGrow(failures - 1, ATTEMPTS - 1);
        slept := slept + [wait];
        wait := wait * 2;
        if offset.Some? { received := offset.value; }
    }
    return Done, received, sent, slept;
  }

  lemma AllAnswered(answers: seq<Answer>)
    requires GoesOn(answers, |answers|)
    ensures GoesOn(answers, |answers| + 1)
  {
  }

  // ---------- what the server says ----------

  /** The session was at that offset at some moment of the run: what loading it, or asking for its status, reads. */
  ghost predicate Reported(states: seq<State>, value: nat) {
    exists j :: 0 <= j < |states| && states[j].row.Some? && states[j].row.value.received == value
  }

  /** A request that still held the session recorded how far it got, and answered with that. */
  ghost predicate Recorded(states: seq<State>, events: seq<Event>, k: nat, r: RequestId, value: nat) {
    && k < |events| && k < |states| && events[k] == Record(r) && r in states[k].requests && states[k].requests[r].phase.Drained? && Holds(states[k], r)
    && value == states[k].requests[r].offset + states[k].requests[r].phase.written
  }

  /**
    Where the offsets in an answer come from. A chunk that landed answers what was recorded; one refused
    for its offset, the offset the session was loaded with; and the status, the offset of the session.
   */
  ghost predicate Said(states: seq<State>, events: seq<Event>, answer: Answer) {
    match answer
    case Landed(next) => Reported(states, next) || exists k: nat, r: RequestId :: Recorded(states, events, k, r, next)
    case Retry(offset) => offset.Some? ==> Reported(states, offset.value)
    case Fatal => true
  }

  lemma SaidIsReported(source: seq<Byte>, states: seq<State>, events: seq<Event>, answer: Answer)
    requires Run(source, states, events) && Said(states, events, answer) && Told(answer).Some?
    ensures Reported(states, Told(answer).value)
  {
    hide Run, Reported, Recorded;
    if answer.Landed? && !Reported(states, answer.next) {
      var k: nat, r: RequestId :| Recorded(states, events, k, r, answer.next);
      RecordedIsReported(source, states, events, k, r, answer.next);
    }
  }

  lemma RecordedIsReported(source: seq<Byte>, states: seq<State>, events: seq<Event>, k: nat, r: RequestId, value: nat)
    requires Run(source, states, events) && Recorded(states, events, k, r, value)
    ensures Reported(states, value)
  {
    assert Step(source, states[k], events[k], states[k + 1]);
    assert states[k + 1].row.Some? && states[k + 1].row.value.received == value;
  }

  lemma {:induction false} OffsetsAreReported(source: seq<Byte>, states: seq<State>, events: seq<Event>, begun: nat, answers: seq<Answer>, n: nat)
    requires Run(source, states, events) && Reported(states, begun) && n <= |answers|
    requires forall i :: 0 <= i < n ==> Said(states, events, answers[i])
    ensures Reported(states, OffsetAfter(begun, answers, n))
  {
    hide Run, Said, Reported;
    if n > 0 {
      if Told(answers[n - 1]).Some? { SaidIsReported(source, states, events, answers[n - 1]); }
      else { OffsetsAreReported(source, states, events, begun, answers, n - 1); }
    }
  }

  /**
    When `fill_upload` is done, after `n` answers of a server that says what it reads and records, the
    staged file is exactly the source.
   */
  lemma WhatIsFilledIsTheSource(source: seq<Byte>, states: seq<State>, events: seq<Event>, now: int, begun: nat, answers: seq<Answer>, n: nat)
    requires Run(source, states, events) && states[0] == Begun(now)
    requires forall k :: 0 <= k < |events| ==> Fresh(states[k], events[k])
    requires Reported(states, begun) && n <= |answers| && forall i :: 0 <= i < n ==> Said(states, events, answers[i])
    requires OffsetAfter(begun, answers, n) >= |source|
    ensures var last := states[|states| - 1]; last.row.Some? ==> last.row.value.received == |source| && last.staged == Some(source)
  {
    hide Step, Fresh, Said;
    OffsetsAreReported(source, states, events, begun, answers, n);
    var j :| 0 <= j < |states| && states[j].row.Some? && states[j].row.value.received == OffsetAfter(begun, answers, n);
    if states[|states| - 1].row.Some? { WhatIsFinishedIsTheSource(source, states, events, now, j, |states| - 1); }
  }
}
