/**
  The resumable upload: sessions, claims and the staged file (api/src/uploads.rs, api/src/routes/uploads.rs)
  under every interleaving of requests.

  A request loads the session, claims it, cuts the staged file back to its offset, writes what arrives,
  renews its claim while it does, and records how far it got. Each of these is a step of its own, and
  requests may die between any two of them.
 */
module Uploads {
  import opened Results

  /** Seconds a claim lasts, and seconds between two renewals of it. */
  const CLAIM: int := 300
  const RENEW: int := 150

  type Byte = b: int | 0 <= b < 256
  type RequestId = nat

  /** The row of the session; its size is the length of the source. */
  datatype Row = Row(received: nat, until: Option<int>, writer: Option<RequestId>)

  datatype Phase =
    | Loaded
    | Claimed(until: int)
    | Writing(until: int, written: nat)
    | Drained(written: nat)
    | Over
    | Gone
  {
    predicate Holding() { Claimed? || Writing? }
  }

  /** A request: the offset it was accepted at, the body it will send, and how far it is. */
  datatype Request = Request(offset: nat, body: seq<Byte>, phase: Phase)

  datatype State = State(now: int, row: Option<Row>, staged: Option<seq<Byte>>, requests: map<RequestId, Request>)

  datatype Event =
    | Load(r: RequestId, offset: nat, body: seq<Byte>)
    | Claim(r: RequestId)
    | Open(r: RequestId)
    | Write(r: RequestId, n: nat)
    | Drain(r: RequestId)
    | Record(r: RequestId)
    | Fail(r: RequestId)
    | Refuse(r: RequestId)
    | Renew(r: RequestId)
    | Die(r: RequestId)
    | Abandon
    | Wait(seconds: nat)

  // ---------- the file ----------

  function Zeros(n: nat): (zeros: seq<Byte>)
    ensures |zeros| == n
  {
    seq(n, _ => 0)
  }

  /** `set_len`: cut, or stretched with zeros. */
  function Resized(file: seq<Byte>, length: nat): (f: seq<Byte>)
    ensures |f| == length
  {
    if length <= |file| then file[..length] else file + Zeros(length - |file|)
  }

  /** A write at a head that may be past the end. */
  function Written(file: seq<Byte>, head: nat, chunk: seq<Byte>): seq<Byte> {
    var reached := if head <= |file| then file else Resized(file, head);
    reached[..head] + chunk + if head + |chunk| <= |reached| then reached[head + |chunk|..] else []
  }

  // ---------- the steps ----------

  function At(s: State, r: RequestId, phase: Phase): State
    requires r in s.requests
  {
    s.(requests := s.requests[r := s.requests[r].(phase := phase)])
  }

  /** Whether the row is this request's: what `WHERE id = $1 AND writer = $2` finds. */
  predicate Holds(s: State, r: RequestId) { s.row.Some? && s.row.value.writer == Some(r) }

  predicate Free(row: Row, now: int) { row.until.None? || row.until.value < now }

  function Let(s: State): State
    requires s.row.Some?
  {
    s.(row := Some(s.row.value.(until := None, writer := None)))
  }

  /** How many bytes a request may still write in all. */
  function Limit(size: nat, request: Request): nat { if request.offset <= size then size - request.offset else 0 }

  /** What a step does; `None` when the request is not at that step. */
  function After(size: nat, s: State, event: Event): Option<State> {
    match event
    case Load(r, offset, body) =>
      if r !in s.requests && s.row.Some? && offset == s.row.value.received then
        Some(s.(requests := s.requests[r := Request(offset, body, Loaded)]))
      else None
    case Claim(r) =>
      if r !in s.requests || !s.requests[r].phase.Loaded? then None
      else if s.row.Some? && Free(s.row.value, s.now) then
        Some(At(s, r, Claimed(s.now + CLAIM)).(row := Some(s.row.value.(until := Some(s.now + CLAIM), writer := Some(r)))))
      else Some(At(s, r, Gone))
    case Open(r) =>
      if r !in s.requests || !s.requests[r].phase.Claimed? then None
      else if s.staged.None? then Some((if Holds(s, r) then Let(At(s, r, Gone)) else At(s, r, Gone)))
      else Some(At(s, r, Writing(s.requests[r].phase.until, 0)).(staged := Some(Resized(s.staged.value, s.requests[r].offset))))
    case Write(r, n) =>
      if r !in s.requests || !s.requests[r].phase.Writing? || n == 0 || s.requests[r].phase.written + n > |s.requests[r].body| then None
      else
        var request := s.requests[r];
        var written := request.phase.written;
        if written + n > Limit(size, request) then Some(At(s, r, Over))
        else
          var wrote := At(s, r, Writing(request.phase.until, written + n));
          Some(if s.staged.None? then wrote
               else wrote.(staged := Some(Written(s.staged.value, request.offset + written, request.body[written..written + n]))))
    case Drain(r) =>
      if r in s.requests && s.requests[r].phase.Writing? && s.requests[r].phase.written == |s.requests[r].body| then
        Some(At(s, r, Drained(s.requests[r].phase.written)))
      else None
    case Record(r) =>
      if r !in s.requests || !s.requests[r].phase.Drained? then None
      else if Holds(s, r) then
        Some(At(s, r, Gone).(row := Some(Row(s.requests[r].offset + s.requests[r].phase.written, None, None))))
      else Some(At(s, r, Gone))
    case Fail(r) =>
      if r !in s.requests || !s.requests[r].phase.Writing? then None
      else if Holds(s, r) then Some(Let(At(s, r, Gone)))
      else Some(At(s, r, Gone))
    case Refuse(r) =>
      if r !in s.requests || !s.requests[r].phase.Over? then None
      else if Holds(s, r) then Some(At(s, r, Gone).(row := None, staged := None))
      else Some(At(s, r, Gone))
    case Renew(r) =>
      if r !in s.requests || !s.requests[r].phase.Holding() || s.now < s.requests[r].phase.until - CLAIM + RENEW then None
      else if Holds(s, r) then
        var phase := s.requests[r].phase;
        var until := s.now + CLAIM;
        Some(At(s, r, if phase.Claimed? then Claimed(until) else Writing(until, phase.written)).(row := Some(s.row.value.(until := Some(until)))))
      else Some(At(s, r, Gone))
    case Die(r) => if r in s.requests then Some(At(s, r, Gone)) else None
    case Abandon => Some(s.(row := None, staged := None))
    case Wait(seconds) => Some(s.(now := s.now + seconds))
  }

  // ---------- runs, and what is assumed of them ----------

  /** The body is the source's bytes from the offset on, as far as the source goes; past its end it may be anything. */
  ghost predicate Agrees(source: seq<Byte>, offset: nat, body: seq<Byte>) {
    forall i :: 0 <= i < |body| && offset + i < |source| ==> body[i] == source[offset + i]
  }

  /** Whoever sends is sending this file. */
  ghost predicate Honest(source: seq<Byte>, event: Event) {
    event.Load? ==> Agrees(source, event.offset, event.body)
  }

  /**
    A renewal resolves, one way or the other, within the second half of the claim it renews: it starts
    `RENEW` after the claim was taken, and while a request writes, time does not pass its claim.
   */
  ghost predicate OnTime(s: State, event: Event) {
    event.Wait? ==> forall r :: r in s.requests && s.requests[r].phase.Holding() ==> s.now + event.seconds <= s.requests[r].phase.until
  }

  /** A claim finds the session where the request loaded it: nothing was recorded in between. */
  ghost predicate Fresh(s: State, event: Event) {
    event.Claim? && event.r in s.requests && s.requests[event.r].phase.Loaded? && s.row.Some? && Free(s.row.value, s.now) ==>
      s.row.value.received == s.requests[event.r].offset
  }

  ghost predicate Step(source: seq<Byte>, s: State, event: Event, t: State) {
    After(|source|, s, event) == Some(t) && Honest(source, event) && OnTime(s, event)
  }

  ghost predicate Run(source: seq<Byte>, states: seq<State>, events: seq<Event>) {
    && |states| == |events| + 1
    && forall i :: 0 <= i < |events| ==> Step(source, states[i], events[i], states[i + 1])
  }

  /** `begin`: an empty file, and a row at nothing. */
  function Begun(now: int): State { State(now, Some(Row(0, None, None)), Some([]), map[]) }

  // ---------- what every run keeps ----------

  /** The staged file begins with what was received, and is no longer than the source. */
  ghost predicate StagedMatches(source: seq<Byte>, s: State) {
    s.row.Some? ==>
      && s.staged.Some? && s.row.value.received <= |s.staged.value| <= |source|
      && s.staged.value[..s.row.value.received] == source[..s.row.value.received]
  }

  /** A request that may still write holds the session, at the offset the session is at, and the file ends where it has got to. */
  ghost predicate WriterIsSound(source: seq<Byte>, s: State, r: RequestId)
    requires r in s.requests
  {
    var request := s.requests[r];
    && request.offset <= |source| && Agrees(source, request.offset, request.body)
    && (request.phase.Holding() && s.row.Some? ==>
          s.row.value.writer == Some(r) && s.row.value.until == Some(request.phase.until) && s.now <= request.phase.until && s.row.value.received == request.offset)
    && ((request.phase.Writing? || (request.phase.Drained? && Holds(s, r))) && s.row.Some? ==>
          && s.row.value.received == request.offset && request.phase.written <= |request.body|
          && s.staged.Some? && request.offset + request.phase.written <= |source|
          && s.staged.value == source[..request.offset + request.phase.written])
  }

  ghost predicate Good(source: seq<Byte>, s: State) {
    && StagedMatches(source, s)
    && (s.row.Some? ==> (s.row.value.until.Some? <==> s.row.value.writer.Some?))
    && (forall r :: s.row.Some? && s.row.value.writer == Some(r) ==> r in s.requests)
    && (forall r :: r in s.requests ==> WriterIsSound(source, s, r))
  }

  /** While one request may write, no other may: the claim keeps them apart. */
  lemma OneWriter(source: seq<Byte>, s: State, a: RequestId, b: RequestId)
    requires Good(source, s) && s.row.Some? && a in s.requests && b in s.requests
    requires s.requests[a].phase.Holding() && s.requests[b].phase.Holding()
    ensures a == b
  {
    assert WriterIsSound(source, s, a) && WriterIsSound(source, s, b);
  }

  lemma WriteExtends(source: seq<Byte>, file: seq<Byte>, offset: nat, written: nat, body: seq<Byte>, n: nat)
    requires offset + written + n <= |source| && written + n <= |body| && Agrees(source, offset, body)
    requires file == source[..offset + written]
    ensures Written(file, offset + written, body[written..written + n]) == source[..offset + written + n]
  {
    var chunk := body[written..written + n];
    forall i | 0 <= i < n ensures chunk[i] == source[offset + written + i] { assert body[written + i] == source[offset + (written + i)]; }
    assert file[..offset + written] == file;
  }

  /** Steps by which a request takes or keeps the session. */
  lemma ClaimKeepsGood(source: seq<Byte>, s: State, event: Event, t: State)
    requires Good(source, s) && Step(source, s, event, t) && Fresh(s, event)
    requires event.Claim? || event.Renew? || event.Load? || event.Wait?
    ensures Good(source, t)
  {
    forall r | r in t.requests ensures WriterIsSound(source, t, r) {
      if r in s.requests { assert WriterIsSound(source, s, r); }
    }
  }

  lemma OpenKeepsGood(source: seq<Byte>, s: State, r: RequestId, t: State)
    requires Good(source, s) && Step(source, s, Open(r), t)
    ensures Good(source, t)
  {
    assert WriterIsSound(source, s, r);
    forall x | x in t.requests ensures WriterIsSound(source, t, x) {
      assert WriterIsSound(source, s, x);
    }
  }

  lemma WriteKeepsGood(source: seq<Byte>, s: State, r: RequestId, n: nat, t: State)
    requires Good(source, s) && Step(source, s, Write(r, n), t)
    ensures Good(source, t)
  {
    assert WriterIsSound(source, s, r);
    if t.requests[r].phase.Writing? && s.row.Some? {
      WriteExtends(source, s.staged.value, s.requests[r].offset, s.requests[r].phase.written, s.requests[r].body, n);
    }
    hide Written;
    forall x | x in t.requests ensures WriterIsSound(source, t, x) {
      assert WriterIsSound(source, s, x);
    }
  }

  /** Steps by which a request lets the session go. */
  lemma LettingGoKeepsGood(source: seq<Byte>, s: State, event: Event, t: State)
    requires Good(source, s) && Step(source, s, event, t)
    requires event.Drain? || event.Record? || event.Fail? || event.Refuse? || event.Die? || event.Abandon?
    ensures Good(source, t)
  {
    if event.Record? { assert WriterIsSound(source, s, event.r); }
    forall x | x in t.requests ensures WriterIsSound(source, t, x) {
      assert WriterIsSound(source, s, x);
    }
  }

  lemma StepKeepsGood(source: seq<Byte>, s: State, event: Event, t: State)
    requires Good(source, s) && Step(source, s, event, t) && Fresh(s, event)
    ensures Good(source, t)
  {
    hide Good, Step, Fresh;
    if event.Claim? || event.Renew? || event.Load? || event.Wait? { ClaimKeepsGood(source, s, event, t); }
    else if event.Open? { OpenKeepsGood(source, s, event.r, t); }
    else if event.Write? { WriteKeepsGood(source, s, event.r, event.n, t); }
    else { LettingGoKeepsGood(source, s, event, t); }
  }

  /** In every interleaving in which claims find the session where it was loaded, the staged file begins with what was received. */
  lemma {:induction false} EveryRunIsGood(source: seq<Byte>, states: seq<State>, events: seq<Event>, now: int, i: nat)
    requires Run(source, states, events) && states[0] == Begun(now) && i < |states|
    requires forall k :: 0 <= k < |events| ==> Fresh(states[k], events[k])
    ensures Good(source, states[i])
    decreases i
  {
    if i > 0 {
      hide Good, Step, Fresh;
      EveryRunIsGood(source, states, events, now, i - 1);
      assert Step(source, states[i - 1], events[i - 1], states[i]);
      StepKeepsGood(source, states[i - 1], events[i - 1], states[i]);
    }
  }

  // ---------- what a client is told ----------

  /** While the session lasts, what it has received only grows; once it is gone it stays gone. */
  lemma ReceivedGrows(source: seq<Byte>, s: State, event: Event, t: State)
    requires Good(source, s) && Step(source, s, event, t)
    ensures t.row.Some? ==> s.row.Some? && s.row.value.received <= t.row.value.received
  {
    if event.Record? { assert WriterIsSound(source, s, event.r); }
  }

  lemma {:induction false} ReceivedGrowsOverRuns(source: seq<Byte>, states: seq<State>, events: seq<Event>, now: int, j: nat, i: nat)
    requires Run(source, states, events) && states[0] == Begun(now) && j <= i < |states|
    requires forall k :: 0 <= k < |events| ==> Fresh(states[k], events[k])
    ensures states[i].row.Some? ==> states[j].row.Some? && states[j].row.value.received <= states[i].row.value.received
    decreases i - j
  {
    hide Good, Step, Fresh;
    if j < i {
      ReceivedGrowsOverRuns(source, states, events, now, j, i - 1);
      EveryRunIsGood(source, states, events, now, i - 1);
      assert Step(source, states[i - 1], events[i - 1], states[i]);
      ReceivedGrows(source, states[i - 1], events[i - 1], states[i]);
    }
  }

  /**
    Once a client has been told, at any moment, that everything was received, the staged file is the
    source from then on, for as long as the session lasts: what `finish` then places is the source.
   */
  lemma WhatIsFinishedIsTheSource(source: seq<Byte>, states: seq<State>, events: seq<Event>, now: int, j: nat, i: nat)
    requires Run(source, states, events) && states[0] == Begun(now) && j <= i < |states|
    requires forall k :: 0 <= k < |events| ==> Fresh(states[k], events[k])
    requires states[j].row.Some? && states[j].row.value.received >= |source| && states[i].row.Some?
    ensures states[i].row.value.received == |source| && states[i].staged == Some(source)
  {
    hide Step, Fresh;
    ReceivedGrowsOverRuns(source, states, events, now, j, i);
    EveryRunIsGood(source, states, events, now, i);
    var file := states[i].staged.value;
    assert file == file[..|source|] == source[..|source|] == source;
  }

  // ---------- how a session ends, and how it goes on ----------

  /** A session ends by being abandoned, or by the refusal of whoever holds it and wrote past its size; by nothing else. */
  lemma WhatEndsASession(source: seq<Byte>, s: State, event: Event, t: State)
    requires Step(source, s, event, t)
    ensures s.row.None? ==> t.row.None?
    ensures s.row.Some? ==>
              (t.row.None? <==> event.Abandon? || (event.Refuse? && event.r in s.requests && s.requests[event.r].phase.Over? && Holds(s, event.r)))
  {
  }

  /** A request is over only by a write that would pass the size. */
  ghost predicate WritesPast(size: nat, s: State, event: Event, r: RequestId) {
    && event.Write? && event.r == r && r in s.requests && s.requests[r].phase.Writing?
    && s.requests[r].offset + s.requests[r].phase.written + event.n > size
  }

  lemma OverByWriting(source: seq<Byte>, s: State, event: Event, t: State, r: RequestId)
    requires Step(source, s, event, t) && r in t.requests && t.requests[r].phase.Over?
    ensures (r in s.requests && s.requests[r].phase.Over?) || WritesPast(|source|, s, event, r)
  {
  }

  lemma {:induction false} OverWasWritten(source: seq<Byte>, states: seq<State>, events: seq<Event>, now: int, i: nat, r: RequestId)
    requires Run(source, states, events) && states[0] == Begun(now) && i < |states|
    requires r in states[i].requests && states[i].requests[r].phase.Over?
    ensures exists k :: 0 <= k < i && WritesPast(|source|, states[k], events[k], r)
    decreases i
  {
    hide Step, WritesPast;
    if i > 0 {
      assert Step(source, states[i - 1], events[i - 1], states[i]);
      OverByWriting(source, states[i - 1], events[i - 1], states[i], r);
      if r in states[i - 1].requests && states[i - 1].requests[r].phase.Over? { OverWasWritten(source, states, events, now, i - 1, r); }
    }
  }

  /** What ended a session by the `k`th event: its owner gave it up, or its holder had written past its size. */
  ghost predicate Ended(size: nat, states: seq<State>, events: seq<Event>, k: nat)
    requires k < |events| && |states| == |events| + 1
  {
    || events[k].Abandon?
    || (events[k].Refuse? && Holds(states[k], events[k].r) && exists j :: 0 <= j < k && WritesPast(size, states[j], events[j], events[k].r))
  }

  /** In every run, whoever fails, lapses, renews or dies: a session that is gone was given up, or overfilled. */
  lemma {:induction false} SessionsLast(source: seq<Byte>, states: seq<State>, events: seq<Event>, now: int, i: nat)
    requires Run(source, states, events) && states[0] == Begun(now) && i < |states|
    requires states[i].row.None?
    ensures exists k :: 0 <= k < i && Ended(|source|, states, events, k)
    decreases i
  {
    hide Step, WritesPast;
    if i > 0 {
      assert Step(source, states[i - 1], events[i - 1], states[i]);
      WhatEndsASession(source, states[i - 1], events[i - 1], states[i]);
      if states[i - 1].row.None? {
        SessionsLast(source, states, events, now, i - 1);
      } else {
        if events[i - 1].Refuse? { OverWasWritten(source, states, events, now, i - 1, events[i - 1].r); }
        assert Ended(|source|, states, events, i - 1);
      }
    }
  }

  /** While it lasts, no step takes back what was received or touches those bytes, and only the holder's record moves it on. */
  lemma StepKeepsReceived(source: seq<Byte>, s: State, event: Event, t: State)
    requires Good(source, s) && Step(source, s, event, t) && Fresh(s, event) && s.row.Some? && t.row.Some?
    ensures var received := s.row.value.received;
            && received <= t.row.value.received && s.staged.Some? && t.staged.Some?
            && received <= |s.staged.value| && received <= |t.staged.value| && t.staged.value[..received] == s.staged.value[..received]
    ensures t.row.value.received != s.row.value.received ==> event.Record? && Holds(s, event.r)
  {
    StepKeepsGood(source, s, event, t);
    ReceivedGrows(source, s, event, t);
    var received := s.row.value.received;
    assert t.staged.value[..received] == t.staged.value[..t.row.value.received][..received] == source[..received];
  }

  /** A broken body lets the session go where it was, with what was staged. */
  lemma FailureLetsGo(source: seq<Byte>, s: State, r: RequestId, t: State)
    requires Step(source, s, Fail(r), t) && Holds(s, r)
    ensures t.row == Some(Row(s.row.value.received, None, None)) && t.staged == s.staged && Free(t.row.value, t.now)
  {
  }

  /** A claim nobody renews is free once its time has passed. */
  lemma LapsedIsFree(source: seq<Byte>, s: State, seconds: nat, t: State)
    requires Step(source, s, Wait(seconds), t) && s.row.Some? && s.row.value.until.Some? && s.row.value.until.value < s.now + seconds
    ensures t.row == s.row && t.staged == s.staged && Free(t.row.value, t.now)
  {
  }

  /** A renewal by the holder lasts as long as a claim does, and moves nothing. */
  lemma RenewalLasts(source: seq<Byte>, s: State, r: RequestId, t: State)
    requires Step(source, s, Renew(r), t) && Holds(s, r)
    ensures t.row == Some(s.row.value.(until := Some(s.now + CLAIM))) && t.staged == s.staged
    ensures t.requests[r].phase.Holding() && t.requests[r].phase.until == s.now + CLAIM
  {
  }

  /** A request is accepted at the offset the session is at, and at no other; and it gets a session nobody holds. */
  lemma LoadAndClaim(source: seq<Byte>, s: State, r: RequestId, offset: nat, body: seq<Byte>)
    requires s.row.Some? && r !in s.requests
    ensures var loaded := After(|source|, s, Load(r, offset, body));
            && (loaded.Some? <==> offset == s.row.value.received)
            && (loaded.Some? ==>
                  && loaded.value.row == s.row && loaded.value.staged == s.staged
                  && var claimed := After(|source|, loaded.value, Claim(r));
                     claimed.Some? && claimed.value.staged == s.staged &&
                     if Free(s.row.value, s.now)
                     then claimed.value.row == Some(Row(offset, Some(s.now + CLAIM), Some(r))) && claimed.value.requests[r].phase == Claimed(s.now + CLAIM)
                     else claimed.value.row == s.row && claimed.value.requests[r].phase == Gone)
  {
  }

  /** So a session that nobody holds, after a failure, a lapse or anything else, can always be finished from where it is. */
  lemma CanAlwaysFinish(source: seq<Byte>, s: State, r: RequestId) returns (states: seq<State>, events: seq<Event>)
    requires Good(source, s) && s.row.Some? && Free(s.row.value, s.now) && r !in s.requests
    ensures |states| > 0 && Run(source, states, events) && states[0] == s
    ensures var last := states[|states| - 1]; last.row.Some? && last.row.value.received == |source| && last.staged == Some(source)
  {
    hide Run, Good, Step;
    ReceivedIsWithin(source, s);
    var received := s.row.value.received;
    var body := source[received..];
    states, events := JustThere(source, s);
    states, events := OneMoreGood(source, states, events, Load(r, received, body));
    states, events := OneMoreGood(source, states, events, Claim(r));
    states, events := OneMoreGood(source, states, events, Open(r));
    if |body| > 0 { states, events := OneMoreGood(source, states, events, Write(r, |body|)); }
    states, events := OneMoreGood(source, states, events, Drain(r));
    states, events := OneMoreGood(source, states, events, Record(r));
    FullIsTheSource(source, states[|states| - 1]);
  }

  lemma ReceivedIsWithin(source: seq<Byte>, s: State)
    requires Good(source, s) && s.row.Some?
    ensures s.row.value.received <= |source| && s.staged.Some?
  {
  }

  lemma FullIsTheSource(source: seq<Byte>, s: State)
    requires Good(source, s) && s.row.Some? && s.row.value.received == |source|
    ensures s.staged == Some(source)
  {
    assert s.staged.value == s.staged.value[..|source|] == source[..|source|] == source;
  }

  lemma JustThere(source: seq<Byte>, s: State) returns (states: seq<State>, events: seq<Event>)
    ensures Run(source, states, events) && states == [s]
  {
    states, events := [s], [];
  }

  lemma OneMoreGood(source: seq<Byte>, states: seq<State>, events: seq<Event>, event: Event) returns (more: seq<State>, played: seq<Event>)
    requires |states| > 0 && Run(source, states, events) && !event.Wait? && Honest(source, event)
    requires var s := states[|states| - 1]; Good(source, s) && Fresh(s, event) && After(|source|, s, event).Some?
    ensures |more| > 0 && Run(source, more, played) && more[0] == states[0]
    ensures more[|more| - 1] == After(|source|, states[|states| - 1], event).value && Good(source, more[|more| - 1])
  {
    more, played := OneMoreStep(source, states, events, event);
    hide Run, Good;
    StepKeepsGood(source, states[|states| - 1], event, more[|more| - 1]);
  }

  // ---------- a claim on a session that moved on ----------

  /**
    The claim does not look again at what was received. One that finds the session further than it was
    loaded keeps the row's promise exactly when it is not: opening the file cuts off what others recorded.
   */
  lemma StaleExactly(source: seq<Byte>, s: State, r: RequestId)
    requires Good(source, s) && s.row.Some? && Free(s.row.value, s.now)
    requires r in s.requests && s.requests[r].phase.Loaded? && s.requests[r].offset <= s.row.value.received
    ensures var claimed := After(|source|, s, Claim(r));
            && claimed.Some?
            && var cut := After(|source|, claimed.value, Open(r));
               && cut.Some?
               && (StagedMatches(source, cut.value) <==> s.requests[r].offset == s.row.value.received)
  {
    var claimed := After(|source|, s, Claim(r)).value;
    var cut := After(|source|, claimed, Open(r)).value;
    assert cut.staged == Some(Resized(s.staged.value, s.requests[r].offset)) && cut.row.value.received == s.row.value.received;
  }

  /**
    It happens: two requests load the session at nothing, the first writes and records the whole source,
    and the second, claiming after it, empties the file of a session that says it has everything.
   */
  lemma StaleClaimLosesBytes() returns (source: seq<Byte>, states: seq<State>, events: seq<Event>)
    ensures |states| > 0 && Run(source, states, events) && states[0] == Begun(0)
    ensures var last := states[|states| - 1];
            last.row.Some? && last.row.value.received == |source| == 2 && last.staged == Some([])
  {
    hide Run;
    source, states, events := FirstSendsItAll();
    states, events := OneMoreStep(source, states, events, Claim(1));
    states, events := OneMoreStep(source, states, events, Open(1));
  }

  lemma NothingYet(source: seq<Byte>) returns (states: seq<State>, events: seq<Event>)
    ensures Run(source, states, events) && states == [Begun(0)]
  {
    states, events := [Begun(0)], [];
  }

  lemma FirstSendsItAll() returns (source: seq<Byte>, states: seq<State>, events: seq<Event>)
    ensures |states| > 0 && Run(source, states, events) && states[0] == Begun(0) && source == [7, 9]
    ensures var last := states[|states| - 1];
            && last.now == 0 && last.row == Some(Row(2, None, None)) && last.staged == Some(source)
            && 1 in last.requests && last.requests[1] == Request(0, source, Loaded)
  {
    hide Run;
    source := [7, 9];
    assert Resized([], 0) == [] && Written([], 0, source[0..2]) == source;
    states, events := NothingYet(source);
    states, events := OneMoreStep(source, states, events, Load(0, 0, source));
    states, events := OneMoreStep(source, states, events, Load(1, 0, source));
    states, events := OneMoreStep(source, states, events, Claim(0));
    states, events := OneMoreStep(source, states, events, Open(0));
    states, events := OneMoreStep(source, states, events, Write(0, 2));
    states, events := OneMoreStep(source, states, events, Drain(0));
    states, events := OneMoreStep(source, states, events, Record(0));
  }

  lemma OneMoreStep(source: seq<Byte>, states: seq<State>, events: seq<Event>, event: Event) returns (more: seq<State>, played: seq<Event>)
    requires |states| > 0 && Run(source, states, events) && !event.Wait? && Honest(source, event)
    requires After(|source|, states[|states| - 1], event).Some?
    ensures |more| > 0 && Run(source, more, played) && more[0] == states[0]
    ensures more[|more| - 1] == After(|source|, states[|states| - 1], event).value
  {
    more, played := states + [After(|source|, states[|states| - 1], event).value], events + [event];
    forall i | 0 <= i < |played| ensures Step(source, more[i], played[i], more[i + 1]) {
      if i < |events| { assert Step(source, states[i], events[i], states[i + 1]); }
    }
  }

  // ---------- the write itself ----------

  datatype Wrote = Reached(at: nat) | PastTheLimit | Broken

  /** A chunk of a body, or the error that ends it. */
  type Chunk = Option<seq<Byte>>

  /** The bytes of the chunks before the first error. */
  function Arrived(chunks: seq<Chunk>): seq<Byte> {
    if chunks == [] || chunks[0].None? then [] else chunks[0].value + Arrived(chunks[1..])
  }

  predicate Whole(chunks: seq<Chunk>) { forall i :: 0 <= i < |chunks| ==> chunks[i].Some? }

  lemma {:induction false} OneMoreArrived(chunks: seq<Chunk>, i: nat)
    requires i < |chunks| && Whole(chunks[..i])
    ensures chunks[i].Some? ==> Arrived(chunks[..i + 1]) == Arrived(chunks[..i]) + chunks[i].value
    ensures chunks[i].None? ==> Arrived(chunks) == Arrived(chunks[..i])
  {
    if i == 0 {
      if chunks[0].Some? { assert chunks[..1][1..] == []; }
    } else {
      assert chunks[..i][0] == chunks[0];
      assert chunks[..i + 1][1..] == chunks[1..][..i] && chunks[..i][1..] == chunks[1..][..i - 1];
      assert Whole(chunks[1..][..i - 1]) by { assert chunks[1..][..i - 1] == chunks[..i][1..]; }
      OneMoreArrived(chunks[1..], i - 1);
    }
  }

  class Staged {
    var bytes: seq<Byte>

    /**
      `write_at`: the file is cut back to the offset, and chunks are written after it until the body
      ends, breaks, or would pass the limit. Whatever happens the file is what it was up to the offset,
      followed by whole chunks of the body in order, and never more than the limit of them.
     */
    method WriteAt(offset: nat, limit: nat, chunks: seq<Chunk>) returns (r: Wrote)
      modifies this
      ensures exists k :: 0 <= k <= |chunks| && Whole(chunks[..k]) && |Arrived(chunks[..k])| <= limit
                          && bytes == Resized(old(bytes), offset) + Arrived(chunks[..k])
                          && match r
                             case Reached(at) => k == |chunks| && at == offset + |Arrived(chunks)|
                             case PastTheLimit => k < |chunks| && chunks[k].Some? && |Arrived(chunks[..k + 1])| > limit
                             case Broken => k < |chunks| && chunks[k].None?
    {
      bytes := Resized(bytes, offset);
      ghost var start := bytes;
      var written := 0;
      for i := 0 to |chunks|
        invariant Whole(chunks[..i]) && written == |Arrived(chunks[..i])| && written <= limit
        invariant bytes == start + Arrived(chunks[..i])
      {
        OneMoreArrived(chunks, i);
        if chunks[i].None? { return Broken; }
        var chunk := chunks[i].value;
        if written + |chunk| > limit { return PastTheLimit; }
        assert |bytes| == offset + written;
        bytes := Written(bytes, offset + written, chunk);
        assert bytes == start + Arrived(chunks[..i]) + chunk;
        written := written + |chunk|;
        assert chunks[..i + 1] == chunks[..i] + [chunks[i]];
      }
      assert chunks[..|chunks|] == chunks;
      return Reached(offset + written);
    }
  }
}
