/**
  Uploads against the sweep, over the store on local disk: `write`, `settle`, `remove`, `written_within`
  and `sweep_staged` of api/src/storage/local.rs, `register_blob` and the commit of `put_file` in
  api/src/db.rs, and `sweep` of api/src/sweeper.rs, under every interleaving.

  Bytes are named by their hash. An upload lands its bytes in a staged file, looks whether the store has
  them, and if not puts the file in place; if it has, it keeps the staged file until it has committed and
  settled. A file moved keeps the time it was last written.
 */
module Sweeping {
  import opened Results

  type Hash = nat
  type UploadId = nat

  datatype Row = Row(refs: nat, idleSince: Option<int>)

  datatype Phase = Landed | Missing | Deduplicated | Placed | Committed | Settled | Failed

  /** An upload: its bytes, when they were last written, whether its staged file is there, and how far it is. */
  datatype Upload = Upload(hash: Hash, at: int, staged: bool, phase: Phase)

  /** The rows of the database, when each file in the store was written, and the uploads. */
  datatype State = State(now: int, rows: map<Hash, Row>, store: map<Hash, int>, uploads: map<UploadId, Upload>)

  datatype Event =
    | Land(u: UploadId, hash: Hash)
    | Look(u: UploadId)
    | Place(u: UploadId)
    | Register(u: UploadId)
    | Commit(u: UploadId)
    | Settle(u: UploadId)
    | Fail(u: UploadId)
    | Release(hash: Hash)
    | Sweep(hash: Hash)
    | SweepStaged
    | Wait(seconds: nat)

  predicate Recent(at: int, now: int, grace: nat) { now - at < grace }

  function Put(s: State, u: UploadId, upload: Upload): State { s.(uploads := s.uploads[u := upload]) }

  predicate Uncommitted(upload: Upload) { upload.phase.Deduplicated? || upload.phase.Placed? }

  /** What a step does; `None` when nobody is at that step. */
  function After(grace: nat, s: State, event: Event): Option<State> {
    match event
    case Land(u, hash) => if u in s.uploads then None else Some(Put(s, u, Upload(hash, s.now, true, Landed)))
    case Look(u) =>
      if u !in s.uploads || !s.uploads[u].phase.Landed? then None
      else Some(Put(s, u, s.uploads[u].(phase := if s.uploads[u].hash in s.store then Deduplicated else Missing)))
    case Place(u) =>
      if u !in s.uploads || !s.uploads[u].phase.Missing? || !s.uploads[u].staged then None
      else Some(Put(s, u, s.uploads[u].(phase := Placed, staged := false)).(store := s.store[s.uploads[u].hash := s.uploads[u].at]))
    case Register(u) =>
      if u !in s.uploads || !Uncommitted(s.uploads[u]) then None
      else Some(if s.uploads[u].hash in s.rows then s else s.(rows := s.rows[s.uploads[u].hash := Row(0, Some(s.now))]))
    case Commit(u) =>
      if u !in s.uploads || !Uncommitted(s.uploads[u]) then None
      else
        var h := s.uploads[u].hash;
        Some(Put(s, u, s.uploads[u].(phase := Committed)).(rows := s.rows[h := Row((if h in s.rows then s.rows[h].refs else 0) + 1, None)]))
    case Settle(u) =>
      if u !in s.uploads || !s.uploads[u].phase.Committed? then None
      else
        var upload := s.uploads[u];
        var settled := Put(s, u, upload.(phase := Settled, staged := false));
        Some(if upload.staged && upload.hash !in s.store then settled.(store := s.store[upload.hash := upload.at]) else settled)
    case Fail(u) =>
      if u in s.uploads && !s.uploads[u].phase.Committed? && !s.uploads[u].phase.Settled? then Some(Put(s, u, s.uploads[u].(phase := Failed))) else None
    case Release(h) =>
      if h in s.rows && s.rows[h].refs > 0 then
        Some(s.(rows := s.rows[h := Row(s.rows[h].refs - 1, if s.rows[h].refs == 1 then Some(s.now) else None)]))
      else None
    case Sweep(h) =>
      if h in s.rows && s.rows[h].refs == 0 && s.rows[h].idleSince.Some? && s.rows[h].idleSince.value < s.now - grace then
        Some(s.(rows := s.rows - {h}, store := if h in s.store && !Recent(s.store[h], s.now, grace) then s.store - {h} else s.store))
      else None
    case SweepStaged =>
      Some(s.(uploads := map u | u in s.uploads :: if Recent(s.uploads[u].at, s.now, grace) then s.uploads[u] else s.uploads[u].(staged := false)))
    case Wait(seconds) => Some(s.(now := s.now + seconds))
  }

  // ---------- what is assumed ----------

  /** An upload commits, and once committed settles, within the grace of its bytes being written. */
  ghost predicate Prompt(grace: nat, s: State, event: Event) {
    && (event.Commit? && event.u in s.uploads ==> Recent(s.uploads[event.u].at, s.now, grace))
    && (event.Wait? ==> forall u :: u in s.uploads && s.uploads[u].phase.Committed? ==> Recent(s.uploads[u].at, s.now + event.seconds, grace))
  }

  /** Another upload of the same bytes that is in place and may yet commit. */
  ghost predicate Pending(grace: nat, s: State, u: UploadId, h: Hash) {
    u in s.uploads && s.uploads[u].hash == h && s.uploads[u].phase.Placed? && Recent(s.uploads[u].at, s.now, grace)
  }

  /** No sweep of the row comes due while bytes written at that time are recent: it is missing, referenced, or not idle for longer than they are there. */
  predicate Shielded(s: State, h: Hash, at: int) {
    h !in s.rows || s.rows[h].refs > 0 || s.rows[h].idleSince.None? || s.rows[h].idleSince.value + 1 >= at
  }

  /** An older file is put over one of a pending upload, and the row has been idle since before that one was written. */
  ghost predicate Exposes(grace: nat, s: State, event: Event) {
    event.Place? && event.u in s.uploads &&
    exists v :: Pending(grace, s, v, s.uploads[event.u].hash)
                && s.uploads[v].at > s.uploads[event.u].at && !Shielded(s, s.uploads[event.u].hash, s.uploads[v].at)
  }

  ghost predicate Step(grace: nat, s: State, event: Event, t: State) {
    After(grace, s, event) == Some(t) && Prompt(grace, s, event)
  }

  ghost predicate Run(grace: nat, states: seq<State>, events: seq<Event>) {
    |states| == |events| + 1 && forall i :: 0 <= i < |events| ==> Step(grace, states[i], events[i], states[i + 1])
  }

  function Begun(now: int): State { State(now, map[], map[], map[]) }

  // ---------- what every run keeps ----------

  /** A committed upload that has not settled and holds the bytes itself. */
  ghost predicate Holds(s: State, u: UploadId, h: Hash) {
    u in s.uploads && s.uploads[u].hash == h && s.uploads[u].phase.Committed? && s.uploads[u].staged
  }

  /** The bytes of a referenced blob are in the store, or staged by a committed upload that has not settled. */
  ghost predicate BytesAreThere(s: State, h: Hash) {
    h in s.rows && s.rows[h].refs > 0 ==> h in s.store || exists u :: Holds(s, u, h)
  }

  ghost predicate UploadIsSound(grace: nat, s: State, u: UploadId)
    requires u in s.uploads
  {
    var upload := s.uploads[u];
    && upload.at <= s.now && (upload.phase.Placed? ==> !upload.staged)
    && (upload.phase.Placed? && Recent(upload.at, s.now, grace) ==>
          upload.hash in s.store && (s.store[upload.hash] >= upload.at || Shielded(s, upload.hash, upload.at)))
    && ((upload.phase.Landed? || upload.phase.Missing? || upload.phase.Deduplicated?) && Recent(upload.at, s.now, grace) ==> upload.staged)
    && (upload.phase.Committed? ==> Recent(upload.at, s.now, grace))
  }

  ghost predicate Good(grace: nat, s: State) {
    (forall h :: BytesAreThere(s, h)) && (forall u :: u in s.uploads ==> UploadIsSound(grace, s, u))
  }

  lemma UploadsStaySound(grace: nat, s: State, event: Event, t: State, u: UploadId)
    requires Good(grace, s) && Step(grace, s, event, t) && !Exposes(grace, s, event) && u in t.uploads
    ensures UploadIsSound(grace, t, u)
  {
    if u in s.uploads {
      assert UploadIsSound(grace, s, u);
      if event.Place? && s.uploads[u].phase.Placed? && Recent(s.uploads[u].at, s.now, grace) { assert Pending(grace, s, u, s.uploads[u].hash); }
    }
  }

  lemma BytesStayThere(grace: nat, s: State, event: Event, t: State, h: Hash)
    requires Good(grace, s) && Step(grace, s, event, t)
    ensures BytesAreThere(t, h)
  {
    assert BytesAreThere(s, h);
    if event.Commit? {
      var u := event.u;
      assert UploadIsSound(grace, s, u);
      if s.uploads[u].phase.Deduplicated? { assert Holds(t, u, s.uploads[u].hash); }
    }
    if h in t.rows && t.rows[h].refs > 0 && h !in t.store && h in s.rows && s.rows[h].refs > 0 {
      var u :| Holds(s, u, h);
      assert UploadIsSound(grace, s, u);
      assert Holds(t, u, h);
    }
  }

  lemma StepKeepsGood(grace: nat, s: State, event: Event, t: State)
    requires Good(grace, s) && Step(grace, s, event, t) && !Exposes(grace, s, event)
    ensures Good(grace, t)
  {
    hide Step, Exposes, UploadIsSound, BytesAreThere;
    forall h ensures BytesAreThere(t, h) { BytesStayThere(grace, s, event, t, h); }
    forall u | u in t.uploads ensures UploadIsSound(grace, t, u) { UploadsStaySound(grace, s, event, t, u); }
  }

  /** In every interleaving in which no placing exposes bytes, those of every referenced blob are in the store or staged by a committed upload yet to settle. */
  lemma {:induction false} ReferencedBytesAreThere(grace: nat, states: seq<State>, events: seq<Event>, now: int, i: nat)
    requires Run(grace, states, events) && states[0] == Begun(now) && i < |states|
    requires forall k :: 0 <= k < |events| ==> !Exposes(grace, states[k], events[k])
    ensures Good(grace, states[i])
    decreases i
  {
    if i > 0 {
      hide Good, Step, Exposes;
      ReferencedBytesAreThere(grace, states, events, now, i - 1);
      assert Step(grace, states[i - 1], events[i - 1], states[i]);
      StepKeepsGood(grace, states[i - 1], events[i - 1], states[i]);
    }
  }

  /** Once the uploads of some bytes have settled, the bytes are in the store for as long as anything references them. */
  lemma SettledBytesAreInTheStore(grace: nat, s: State, h: Hash)
    requires Good(grace, s) && h in s.rows && s.rows[h].refs > 0
    requires forall u :: u in s.uploads && s.uploads[u].hash == h ==> !s.uploads[u].phase.Committed?
    ensures h in s.store
  {
    assert BytesAreThere(s, h);
  }

  /** Settling puts the bytes in the store, whatever the sweep did since the upload looked. */
  lemma SettlingPlaces(grace: nat, s: State, u: UploadId, t: State)
    requires Good(grace, s) && Step(grace, s, Settle(u), t) && s.uploads[u].staged
    ensures s.uploads[u].hash in t.store
  {
  }

  // ---------- what a step may change, and that uploads and sweeps get done ----------

  function Refs(s: State, h: Hash): nat { if h in s.rows then s.rows[h].refs else 0 }

  /** How a step moves a count: up with a commit of those bytes, down with a release of them. */
  predicate CountsUp(s: State, event: Event, h: Hash) { event.Commit? && event.u in s.uploads && s.uploads[event.u].hash == h }

  /**
    A count moves only with a commit or a release. A row goes only when it is swept, idle for longer than
    the grace; bytes go only with it, written longer ago than that; and a mark is set to no other moment than now.
   */
  lemma StepIsAccountedFor(grace: nat, s: State, event: Event, t: State, h: Hash)
    requires Step(grace, s, event, t)
    ensures Refs(t, h) == Refs(s, h) + (if CountsUp(s, event, h) then 1 else 0) - (if event == Release(h) then 1 else 0)
    ensures h in s.rows && h !in t.rows ==> event == Sweep(h) && s.rows[h].refs == 0 && s.rows[h].idleSince.Some? && s.rows[h].idleSince.value + grace < s.now
    ensures h in s.store && h !in t.store ==> h in s.rows && h !in t.rows && s.store[h] + grace <= s.now
    ensures h in t.rows && t.rows[h].idleSince.Some? ==> (h in s.rows && t.rows[h] == s.rows[h]) || t.rows[h].idleSince == Some(s.now)
    ensures h in t.store && h !in s.store ==> (event.Place? || event.Settle?) && event.u in s.uploads && s.uploads[event.u].hash == h
  {
  }

  ghost predicate OnlyAdded(s: State, t: State, h: Hash, u: UploadId) {
    && t.now == s.now && h in t.store && (h in s.store ==> t.store[h] == s.store[h]) && h in t.rows && t.rows[h] == Row(Refs(s, h) + 1, None)
    && (forall x :: x != h ==> (x in t.store <==> x in s.store) && (x in t.rows <==> x in s.rows))
    && (forall x :: x != h && x in s.store ==> t.store[x] == s.store[x])
    && (forall x :: x != h && x in s.rows ==> t.rows[x] == s.rows[x])
    && u in t.uploads && t.uploads[u].phase.Settled? && forall v :: v in s.uploads ==> v in t.uploads && t.uploads[v] == s.uploads[v]
  }

  /** The bytes are in the store, and the upload has yet to commit. */
  ghost predicate IsLanded(s: State, t: State, h: Hash, u: UploadId) {
    && t.now == s.now && t.rows == s.rows && t.store == (if h in s.store then s.store else s.store[h := s.now])
    && u in t.uploads && t.uploads == s.uploads[u := t.uploads[u]]
    && t.uploads[u] == Upload(h, s.now, h in s.store, if h in s.store then Deduplicated else Placed)
  }

  lemma UploadLands(grace: nat, s: State, u: UploadId, h: Hash) returns (states: seq<State>, events: seq<Event>)
    requires u !in s.uploads && grace > 0
    ensures |states| > 0 && Run(grace, states, events) && states[0] == s && IsLanded(s, states[|states| - 1], h, u)
  {
    hide Run;
    states, events := JustThere(grace, s);
    states, events := OneMoreStep(grace, states, events, Land(u, h));
    states, events := OneMoreStep(grace, states, events, Look(u));
    if h !in s.store { states, events := OneMoreStep(grace, states, events, Place(u)); }
  }

  /** From any state an upload can begin and, if nothing comes between, end with its bytes in the store and one reference more. */
  lemma UploadCompletes(grace: nat, s: State, u: UploadId, h: Hash) returns (states: seq<State>, events: seq<Event>)
    requires u !in s.uploads && grace > 0
    ensures |states| > 0 && Run(grace, states, events) && states[0] == s
    ensures OnlyAdded(s, states[|states| - 1], h, u)
  {
    hide Run, OnlyAdded;
    states, events := UploadLands(grace, s, u, h);
    var landed := states[|states| - 1];
    states, events := OneMoreStep(grace, states, events, Register(u));
    states, events := OneMoreStep(grace, states, events, Commit(u));
    var committed := states[|states| - 1];
    states, events := OneMoreStep(grace, states, events, Settle(u));
    LandedThenSettled(s, landed, committed, states[|states| - 1], h, u);
  }

  lemma LandedThenSettled(s: State, landed: State, committed: State, t: State, h: Hash, u: UploadId)
    requires u !in s.uploads && IsLanded(s, landed, h, u)
    requires committed.now == s.now && committed.rows == landed.rows[h := Row(Refs(s, h) + 1, None)] && committed.store == landed.store
    requires committed.uploads == landed.uploads[u := landed.uploads[u].(phase := Committed)]
    requires t == committed.(uploads := committed.uploads[u := committed.uploads[u].(phase := Settled, staged := false)])
    ensures OnlyAdded(s, t, h, u)
  {
  }

  /** From any state in which no upload is waiting to settle, bytes nothing references can be swept, row and file, once the grace is over. */
  lemma IdleBytesGo(grace: nat, s: State, h: Hash) returns (states: seq<State>, events: seq<Event>)
    requires CommittedOnes(s) == {} && h in s.rows && s.rows[h].refs == 0 && s.rows[h].idleSince.Some?
    ensures |states| > 0 && Run(grace, states, events) && states[0] == s
    ensures var t := states[|states| - 1]; t.rows == s.rows - {h} && t.store == s.store - {h} && t.uploads == s.uploads
  {
    hide Run;
    var idle, written := s.rows[h].idleSince.value, if h in s.store then s.store[h] else 0;
    var until := if idle < written then written else idle;
    assert forall u :: u in s.uploads ==> u !in CommittedOnes(s);
    states, events := JustThere(grace, s);
    states, events := OneMoreStep(grace, states, events, Wait(if until + grace + 1 < s.now then 0 else until + grace + 1 - s.now));
    states, events := OneMoreStep(grace, states, events, Sweep(h));
    if h !in s.store { assert s.store - {h} == s.store; }
  }

  // ---------- a file put over a younger one ----------

  ghost predicate BytesAreGone(s: State) { exists h :: !BytesAreThere(s, h) }

  /** A run from here in which every upload is prompt, nothing more is exposed, and referenced bytes are gone at its end. */
  ghost predicate Loses(grace: nat, s: State, states: seq<State>, events: seq<Event>) {
    && Run(grace, states, events) && states[0] == s
    && (forall k :: 0 <= k < |events| ==> !Exposes(grace, states[k], events[k]))
    && BytesAreGone(states[|states| - 1])
  }

  ghost predicate CanLose(grace: nat, s: State) {
    exists states, events :: Loses(grace, s, states, events)
  }

  lemma QuietLoses(grace: nat, s: State, states: seq<State>, events: seq<Event>, h: Hash)
    requires Run(grace, states, events) && states[0] == s && Quiet(events) && !BytesAreThere(states[|states| - 1], h)
    ensures CanLose(grace, s)
  {
    assert BytesAreGone(states[|states| - 1]);
    assert Loses(grace, s, states, events);
  }

  lemma GoodLosesNothing(grace: nat, s: State, states: seq<State>, events: seq<Event>)
    requires Good(grace, s)
    ensures !Loses(grace, s, states, events)
  {
    hide Good, Exposes, BytesAreThere;
    if Loses(grace, s, states, events) {
      GoodStaysGood(grace, states, events, |states| - 1);
      var h :| !BytesAreThere(states[|states| - 1], h);
      GoodHasBytes(grace, states[|states| - 1], h);
    }
  }

  lemma {:induction false} GoodStaysGood(grace: nat, states: seq<State>, events: seq<Event>, i: nat)
    requires Run(grace, states, events) && i < |states| && Good(grace, states[0])
    requires forall k :: 0 <= k < |events| ==> !Exposes(grace, states[k], events[k])
    ensures Good(grace, states[i])
    decreases i
  {
    if i > 0 {
      hide Good, Step, Exposes;
      GoodStaysGood(grace, states, events, i - 1);
      assert Step(grace, states[i - 1], events[i - 1], states[i]);
      StepKeepsGood(grace, states[i - 1], events[i - 1], states[i]);
    }
  }

  ghost function CommittedOnes(s: State): set<UploadId> { set u | u in s.uploads && s.uploads[u].phase.Committed? }

  ghost predicate Quiet(events: seq<Event>) { forall k :: 0 <= k < |events| ==> !events[k].Place? }

  /** What settling leaves: the rows, the time, what the store has, and every upload that was not waiting for it. */
  ghost predicate OnlySettled(s: State, t: State) {
    && t.now == s.now && t.rows == s.rows && t.uploads.Keys == s.uploads.Keys
    && (forall h :: h in s.store ==> h in t.store && t.store[h] == s.store[h])
    && (forall u :: u in s.uploads && !s.uploads[u].phase.Committed? ==> t.uploads[u] == s.uploads[u])
  }

  lemma {:induction false} AllSettle(grace: nat, before: seq<State>, past: seq<Event>) returns (states: seq<State>, events: seq<Event>)
    requires |before| > 0 && Run(grace, before, past) && Quiet(past)
    ensures |states| > 0 && Run(grace, states, events) && states[0] == before[0] && Quiet(events)
    ensures OnlySettled(before[|before| - 1], states[|states| - 1]) && CommittedOnes(states[|states| - 1]) == {}
    decreases CommittedOnes(before[|before| - 1])
  {
    hide Run;
    var s := before[|before| - 1];
    if u :| u in CommittedOnes(s) {
      var more, played := OneMoreStep(grace, before, past, Settle(u));
      assert CommittedOnes(more[|more| - 1]) == CommittedOnes(s) - {u};
      states, events := AllSettle(grace, more, played);
    } else {
      states, events := before, past;
    }
  }

  /** The exposed bytes go: everything settles, the last moment comes at which the pending upload may commit, the sweep runs, and it commits. */
  lemma ExposedAreLost(grace: nat, t: State, v: UploadId) returns (states: seq<State>, events: seq<Event>)
    requires v in t.uploads && Pending(grace, t, v, t.uploads[v].hash) && !t.uploads[v].staged
    requires var h := t.uploads[v].hash; h in t.store && t.store[h] < t.uploads[v].at && !Shielded(t, h, t.uploads[v].at)
    ensures |states| > 0 && Run(grace, states, events) && states[0] == t && Quiet(events)
    ensures !BytesAreThere(states[|states| - 1], t.uploads[v].hash)
  {
    hide Run;
    var h, at := t.uploads[v].hash, t.uploads[v].at;
    states, events := JustThere(grace, t);
    states, events := AllSettle(grace, states, events);
    var settled := states[|states| - 1];
    assert forall u :: u in settled.uploads ==> u !in CommittedOnes(settled);
    states, events := OneMoreStep(grace, states, events, Wait(at + grace - 1 - t.now));
    states, events := OneMoreStep(grace, states, events, Sweep(h));
    states, events := OneMoreStep(grace, states, events, Commit(v));
  }

  lemma JustThere(grace: nat, t: State) returns (states: seq<State>, events: seq<Event>)
    ensures |states| > 0 && Run(grace, states, events) && states == [t] && events == []
  {
    states, events := [t], [];
  }

  /**
    Putting a file in place makes it possible to lose referenced bytes exactly when it is older than the
    file of a pending upload it replaces and the row has been idle since before that one was written.
   */
  lemma PlacingIsExact(grace: nat, s: State, u: UploadId, t: State)
    requires Good(grace, s) && Step(grace, s, Place(u), t)
    ensures CanLose(grace, t) <==> Exposes(grace, s, Place(u))
  {
    hide Run, Good, BytesAreThere;
    if Exposes(grace, s, Place(u)) {
      var v :| Pending(grace, s, v, s.uploads[u].hash) && s.uploads[v].at > s.uploads[u].at && !Shielded(s, s.uploads[u].hash, s.uploads[v].at);
      SoundUpload(grace, s, v);
      var states, events := ExposedAreLost(grace, t, v);
      QuietLoses(grace, t, states, events, t.uploads[v].hash);
    } else {
      StepKeepsGood(grace, s, Place(u), t);
      forall states, events ensures !Loses(grace, t, states, events) { GoodLosesNothing(grace, t, states, events); }
    }
  }

  lemma SoundUpload(grace: nat, s: State, v: UploadId)
    requires Good(grace, s) && v in s.uploads
    ensures UploadIsSound(grace, s, v)
  {
  }

  lemma GoodHasBytes(grace: nat, s: State, h: Hash)
    requires Good(grace, s)
    ensures BytesAreThere(s, h)
  {
  }

  lemma OneMoreStep(grace: nat, states: seq<State>, events: seq<Event>, event: Event) returns (more: seq<State>, played: seq<Event>)
    requires |states| > 0 && Run(grace, states, events)
    requires After(grace, states[|states| - 1], event).Some? && Prompt(grace, states[|states| - 1], event)
    ensures |more| > 0 && Run(grace, more, played) && more[0] == states[0]
    ensures more[|more| - 1] == After(grace, states[|states| - 1], event).value
    ensures played == events + [event]
  {
    more, played := states + [After(grace, states[|states| - 1], event).value], events + [event];
    forall i | 0 <= i < |played| ensures Step(grace, more[i], played[i], more[i + 1]) {
      if i < |events| { assert Step(grace, states[i], events[i], states[i + 1]); }
    }
  }

  lemma NothingYet() returns (states: seq<State>, events: seq<Event>)
    ensures |states| > 0 && Run(10, states, events) && states == [Begun(0)]
  {
    states, events := [Begun(0)], [];
  }

  lemma PlacedAndLeft() returns (states: seq<State>, events: seq<Event>)
    ensures |states| > 0 && Run(10, states, events) && states[0] == Begun(0)
    ensures var last := states[|states| - 1];
            && last.now == 20 && last.rows == map[7 := Row(0, Some(0))] && last.store == map[7 := 0]
            && last.uploads.Keys == {0} && last.uploads[0].phase == Failed
  {
    hide Run;
    states, events := NothingYet();
    states, events := OneMoreStep(10, states, events, Land(0, 7));
    states, events := OneMoreStep(10, states, events, Look(0));
    states, events := OneMoreStep(10, states, events, Place(0));
    states, events := OneMoreStep(10, states, events, Register(0));
    states, events := OneMoreStep(10, states, events, Fail(0));
    states, events := OneMoreStep(10, states, events, Wait(20));
  }

  ghost predicate Bare(s: State) {
    && s.now == 40 && s.rows == map[7 := Row(0, Some(20))] && s.store == map[]
    && s.uploads.Keys == {0, 1} && s.uploads[0].phase == Failed && s.uploads[1].phase == Failed
  }

  lemma FoundAndSwept() returns (states: seq<State>, events: seq<Event>)
    ensures |states| > 0 && Run(10, states, events) && states[0] == Begun(0)
    ensures var last := states[|states| - 1];
            && last.now == 20 && last.rows == map[] && last.store == map[] && last.uploads.Keys == {0, 1}
            && last.uploads[0].phase == Failed && last.uploads[1] == Upload(7, 20, true, Deduplicated)
  {
    hide Run;
    states, events := PlacedAndLeft();
    states, events := OneMoreStep(10, states, events, Land(1, 7));
    states, events := OneMoreStep(10, states, events, Look(1));
    states, events := OneMoreStep(10, states, events, Sweep(7));
  }

  /** A row of no references whose bytes are gone: left by an upload that found the bytes there, registered after a sweep took them, and died. */
  lemma RowWithoutBytes() returns (states: seq<State>, events: seq<Event>)
    ensures |states| > 0 && Run(10, states, events) && states[0] == Begun(0) && Bare(states[|states| - 1])
  {
    hide Run;
    states, events := FoundAndSwept();
    states, events := OneMoreStep(10, states, events, Register(1));
    states, events := OneMoreStep(10, states, events, Fail(1));
    states, events := OneMoreStep(10, states, events, Wait(20));
  }

  ghost predicate BothMissing(s: State) {
    && s.now == 45 && s.rows == map[7 := Row(0, Some(20))] && s.store == map[] && s.uploads.Keys == {0, 1, 2, 3}
    && s.uploads[0].phase == Failed && s.uploads[1].phase == Failed
    && s.uploads[2] == Upload(7, 40, true, Missing) && s.uploads[3] == Upload(7, 45, true, Missing)
  }

  /** Two uploads then both find the bytes missing. */
  lemma BothLook(before: seq<State>, past: seq<Event>) returns (states: seq<State>, events: seq<Event>)
    requires |before| > 0 && Run(10, before, past) && Bare(before[|before| - 1])
    ensures |states| > 0 && Run(10, states, events) && states[0] == before[0] && BothMissing(states[|states| - 1])
  {
    hide Run;
    states, events := OneMoreStep(10, before, past, Land(2, 7));
    states, events := OneMoreStep(10, states, events, Look(2));
    states, events := OneMoreStep(10, states, events, Wait(5));
    states, events := OneMoreStep(10, states, events, Land(3, 7));
    states, events := OneMoreStep(10, states, events, Look(3));
  }

  ghost predicate YoungerInPlace(s: State) {
    && s.now == 45 && s.rows == map[7 := Row(0, Some(20))] && s.store == map[7 := 45] && s.uploads.Keys == {0, 1, 2, 3}
    && s.uploads[0].phase == Failed && s.uploads[1].phase == Failed
    && s.uploads[2] == Upload(7, 40, true, Missing) && s.uploads[3] == Upload(7, 45, false, Placed)
  }

  /** The one that came second is quicker. */
  lemma YoungerFirst(before: seq<State>, past: seq<Event>) returns (states: seq<State>, events: seq<Event>)
    requires |before| > 0 && Run(10, before, past) && BothMissing(before[|before| - 1])
    ensures |states| > 0 && Run(10, states, events) && states[0] == before[0] && YoungerInPlace(states[|states| - 1])
  {
    hide Run;
    states, events := OneMoreStep(10, before, past, Place(3));
    states, events := OneMoreStep(10, states, events, Register(3));
  }

  /** The one that looked first then puts its older file over the younger one, and dies. */
  lemma OlderOverYounger(before: seq<State>, past: seq<Event>) returns (states: seq<State>, events: seq<Event>)
    requires |before| > 0 && Run(10, before, past) && YoungerInPlace(before[|before| - 1])
    ensures |states| > 0 && Run(10, states, events) && states[0] == before[0]
    ensures var last := states[|states| - 1];
            && last.now == 51 && last.rows == map[7 := Row(0, Some(20))] && last.store == map[7 := 40]
            && 3 in last.uploads && last.uploads[3] == Upload(7, 45, false, Placed)
            && forall u :: u in last.uploads && u != 3 ==> last.uploads[u].phase == Failed
  {
    hide Run;
    states, events := OneMoreStep(10, before, past, Place(2));
    states, events := OneMoreStep(10, states, events, Fail(2));
    states, events := OneMoreStep(10, states, events, Wait(6));
  }

  /**
    It happens, with every upload prompt: the look and the rename are two steps, and a rename over a
    younger file makes it look as old as the older one, so the sweep takes bytes that the younger
    file's own upload then commits.
   */
  lemma AnOlderFileLosesBytes() returns (states: seq<State>, events: seq<Event>)
    ensures |states| > 0 && Run(10, states, events) && states[0] == Begun(0)
    ensures !BytesAreThere(states[|states| - 1], 7)
  {
    hide Run;
    var before, past := RowWithoutBytes();
    before, past := BothLook(before, past);
    before, past := YoungerFirst(before, past);
    states, events := OlderOverYounger(before, past);
    states, events := OneMoreStep(10, states, events, Sweep(7));
    states, events := OneMoreStep(10, states, events, Commit(3));
  }
}
