/**
  How bytes reach and move within an object store: `stage`, `stream_into`, `copy` and `copy_in_parts`
  of api/src/storage/s3.rs, against a store any of whose requests may fail.
 */
module Parts {
  import opened Results

  const PART_SIZE: nat := 8 * 1024 * 1024
  const LARGEST_SINGLE_COPY: nat := 5 * 1024 * 1024 * 1024

  type Byte = b: int | 0 <= b < 256
  type Bytes = seq<Byte>
  type UploadId = nat

  datatype StorageError = Upstream | Refused

  function Flatten(parts: seq<Bytes>): Bytes {
    if parts == [] then [] else Flatten(parts[..|parts| - 1]) + parts[|parts| - 1]
  }

  lemma OneMorePart(parts: seq<Bytes>, part: Bytes)
    ensures Flatten(parts + [part]) == Flatten(parts) + part
  {
    assert (parts + [part])[..|parts|] == parts;
  }

  /** What S3 takes of a multipart upload: every part but the last of the one size, and none empty. */
  predicate WellCut(parts: seq<Bytes>, size: nat) {
    forall i :: 0 <= i < |parts| ==> if i < |parts| - 1 then |parts[i]| == size else 0 < |parts[i]| <= size
  }

  predicate AllFull(parts: seq<Bytes>, size: nat) { forall i :: 0 <= i < |parts| ==> |parts[i]| == size }

  /** A multipart upload as the program holds it: its id, and how many parts it has sent. */
  datatype Multipart = Multipart(id: UploadId, parts: nat)

  /** The store: its objects, the parts of every multipart upload begun, and what became of each. */
  class ObjectStore {
    var objects: map<string, Bytes>
    var uploads: map<UploadId, seq<Bytes>>
    var keys: map<UploadId, string>
    var completed: set<UploadId>
    var aborted: set<UploadId>
    /** Whether each request to come is answered. */
    var answers: seq<bool>

    predicate Valid()
      reads this
    {
      uploads.Keys == keys.Keys && completed <= uploads.Keys
    }

    method Answer() returns (ok: bool)
      modifies this`answers
      ensures ok ==> old(answers) != [] && old(answers)[0]
    {
      if answers == [] { return false; }
      ok := answers[0];
      answers := answers[1..];
    }

    method CreateMultipart(key: string) returns (r: Option<UploadId>)
      requires Valid()
      modifies this`answers, this`uploads, this`keys
      ensures Valid()
      ensures match r
              case None => uploads == old(uploads) && keys == old(keys)
              case Some(id) => id !in old(uploads) && uploads == old(uploads)[id := []] && keys == old(keys)[id := key]
    {
      var ok := Answer();
      if !ok { return None; }
      var id := Fresh(uploads.Keys);
      uploads, keys := uploads[id := []], keys[id := key];
      return Some(id);
    }

    method UploadPart(id: UploadId, number: nat, part: Bytes) returns (ok: bool)
      requires Valid() && id in uploads && number == |uploads[id]| + 1
      modifies this`answers, this`uploads
      ensures Valid() && uploads == if ok then old(uploads)[id := old(uploads)[id] + [part]] else old(uploads)
    {
      ok := Answer();
      if ok { uploads := uploads[id := uploads[id] + [part]]; }
    }

    method UploadPartCopy(id: UploadId, number: nat, from: string, start: nat, end: nat) returns (ok: bool)
      requires Valid() && id in uploads && number == |uploads[id]| + 1
      requires from in objects && start <= end < |objects[from]|
      modifies this`answers, this`uploads
      ensures Valid() && uploads == if ok then old(uploads)[id := old(uploads)[id] + [objects[from][start..end + 1]]] else old(uploads)
    {
      ok := Answer();
      if ok { uploads := uploads[id := uploads[id] + [objects[from][start..end + 1]]]; }
    }

    method Complete(id: UploadId) returns (ok: bool)
      requires Valid() && id in uploads
      modifies this`answers, this`objects, this`completed
      ensures Valid()
      ensures objects == if ok then old(objects)[keys[id] := Flatten(uploads[id])] else old(objects)
      ensures completed == if ok then old(completed) + {id} else old(completed)
    {
      ok := Answer();
      if ok {
        objects := objects[keys[id] := Flatten(uploads[id])];
        completed := completed + {id};
      }
    }

    method Abort(id: UploadId)
      modifies this`answers, this`aborted
      ensures aborted == old(aborted) + {id}
    {
      var _ := Answer();
      aborted := aborted + {id};
    }

    method PutObject(key: string, bytes: Bytes) returns (ok: bool)
      modifies this`answers, this`objects
      ensures objects == if ok then old(objects)[key := bytes] else old(objects)
    {
      ok := Answer();
      if ok { objects := objects[key := bytes]; }
    }

    method CopyObject(from: string, to: string) returns (ok: bool)
      requires from in objects
      modifies this`answers, this`objects
      ensures objects == if ok then old(objects)[to := old(objects)[from]] else old(objects)
    {
      ok := Answer();
      if ok { objects := objects[to := objects[from]]; }
    }

    method DeleteObject(key: string) returns (ok: bool)
      modifies this`answers, this`objects
      ensures objects == if ok then old(objects) - {key} else old(objects)
    {
      ok := Answer();
      if ok { objects := objects - {key}; }
    }
  }

  lemma {:induction false} Bounded(ids: set<UploadId>) returns (most: nat)
    ensures forall id :: id in ids ==> id < most
    decreases |ids|
  {
    if ids == {} {
      most := 0;
    } else {
      var id :| id in ids;
      var rest := Bounded(ids - {id});
      most := if rest <= id then id + 1 else rest;
      assert ids == (ids - {id}) + {id};
    }
  }

  method Fresh(ids: set<UploadId>) returns (id: UploadId)
    ensures id !in ids
  {
    id := 0;
    ghost var most := Bounded(ids);
    while id in ids
      invariant id <= most
      decreases most - id
    {
      id := id + 1;
    }
  }

  // ---------- streaming an upload into one object ----------

  type Chunk = Option<Bytes>

  function Arrived(chunks: seq<Chunk>): Bytes {
    if chunks == [] then []
    else
      var last := chunks[|chunks| - 1];
      Arrived(chunks[..|chunks| - 1]) + if last.Some? then last.value else []
  }

  predicate Whole(chunks: seq<Chunk>) { forall i :: 0 <= i < |chunks| ==> chunks[i].Some? }

  /** What has been cut off into parts and what is still in the buffer is what arrived. */
  ghost predicate Cut(uploads: map<UploadId, seq<Bytes>>, upload: Option<Multipart>, buffer: Bytes, arrived: Bytes) {
    match upload
    case None => buffer == arrived
    case Some(started) =>
      && started.id in uploads && started.parts == |uploads[started.id]| > 0 && AllFull(uploads[started.id], PART_SIZE)
      && Flatten(uploads[started.id]) + buffer == arrived
  }

  /** Of the uploads begun since `before`, only the one in hand, which is for `key`, is neither completed nor aborted. */
  ghost predicate InHand(store: ObjectStore, key: string, before: set<UploadId>, upload: Option<Multipart>)
    reads store
  {
    && store.Valid() && before <= store.uploads.Keys
    && (upload.Some? ==>
          (upload.value.id in store.uploads && upload.value.id !in before && store.keys[upload.value.id] == key && upload.value.id !in store.completed))
    && forall id :: id in store.uploads && id !in before && id !in store.completed && id !in store.aborted ==> upload.Some? && upload.value.id == id
  }

  /** `begin`, if nothing has been begun yet. */
  method Begin(store: ObjectStore, key: string, begun: Option<Multipart>, ghost before: set<UploadId>) returns (upload: Option<Multipart>)
    requires InHand(store, key, before, begun) && store.completed <= store.uploads.Keys
    modifies store`answers, store`uploads, store`keys
    ensures InHand(store, key, before, upload) && store.completed <= store.uploads.Keys
    ensures begun.Some? ==> upload == begun && store.uploads == old(store.uploads)
    ensures begun.None? && upload.Some? ==> upload.value.parts == 0 && store.uploads == old(store.uploads)[upload.value.id := []] && upload.value.id !in old(store.uploads)
    ensures begun.None? && upload.None? ==> store.uploads == old(store.uploads)
  {
    if begun.Some? { return begun; }
    var id := store.CreateMultipart(key);
    if id.None? { return None; }
    return Some(Multipart(id.value, 0));
  }

  /** `send_part`. */
  method SendPart(store: ObjectStore, key: string, started: Multipart, part: Bytes, ghost before: set<UploadId>) returns (ok: bool, after: Multipart)
    requires InHand(store, key, before, Some(started)) && started.parts == |store.uploads[started.id]|
    modifies store`answers, store`uploads
    ensures InHand(store, key, before, Some(after)) && after.id == started.id
    ensures ok ==> after.parts == started.parts + 1 && store.uploads == old(store.uploads)[started.id := old(store.uploads)[started.id] + [part]]
    ensures !ok ==> after == started && store.uploads == old(store.uploads)
  {
    ok := store.UploadPart(started.id, started.parts + 1, part);
    after := if ok then Multipart(started.id, started.parts + 1) else started;
  }

  lemma PartSent(sent: seq<Bytes>, part: Bytes, buffer: Bytes, arrived: Bytes)
    requires AllFull(sent, PART_SIZE) && |part| == PART_SIZE && Flatten(sent) + (part + buffer) == arrived
    ensures AllFull(sent + [part], PART_SIZE) && Flatten(sent + [part]) + buffer == arrived
  {
    OneMorePart(sent, part);
    assert Flatten(sent) + part + buffer == Flatten(sent) + (part + buffer);
  }

  /** The inner loop of `stream_into`: full parts are cut off the buffer and sent, an upload begun for the first of them. */
  method SendFull(store: ObjectStore, key: string, filled: Bytes, begun: Option<Multipart>, ghost before: set<UploadId>, ghost arrived: Bytes)
    returns (ok: bool, buffer: Bytes, upload: Option<Multipart>)
    requires InHand(store, key, before, begun) && Cut(store.uploads, begun, filled, arrived)
    modifies store`answers, store`uploads, store`keys
    ensures InHand(store, key, before, upload)
    ensures ok ==> Cut(store.uploads, upload, buffer, arrived) && |buffer| < PART_SIZE
  {
    hide AllFull, Flatten;
    buffer, upload := filled, begun;
    while |buffer| >= PART_SIZE
      invariant InHand(store, key, before, upload) && Cut(store.uploads, upload, buffer, arrived)
      decreases |buffer|
    {
      var part := buffer[..PART_SIZE];
      ghost var whole := buffer;
      buffer := buffer[PART_SIZE..];
      assert whole == part + buffer;
      upload := Begin(store, key, upload, before);
      if upload.None? { return false, buffer, upload; }
      ghost var sent := store.uploads[upload.value.id];
      NothingSent();
      PartSent(sent, part, buffer, arrived);
      var ok, after := SendPart(store, key, upload.value, part, before);
      upload := Some(after);
      if !ok { return false, buffer, upload; }
    }
    return true, buffer, upload;
  }

  lemma NothingSent()
    ensures Flatten([]) == [] && AllFull([], PART_SIZE)
    ensures forall bytes: Bytes :: [] + bytes == bytes
  {
  }

  /**
    `stream_into`: what becomes the object is what the stream carried, in order. On an error the upload
    begun, if there is one, is handed back.
   */
  method StreamInto(store: ObjectStore, key: string, chunks: seq<Chunk>, ghost before: set<UploadId>) returns (r: Result<nat, StorageError>, upload: Option<Multipart>)
    requires InHand(store, key, before, None) && before == store.uploads.Keys
    modifies store`answers, store`uploads, store`keys, store`objects, store`completed
    ensures InHand(store, key, before, upload)
    ensures r.Ok? ==> Whole(chunks) && upload.None? && r.value == |Arrived(chunks)| && store.objects == old(store.objects)[key := Arrived(chunks)]
    ensures r.Err? ==> store.objects == old(store.objects)
    ensures forall id :: id in store.completed && id !in old(store.completed) ==>
              id in store.uploads && Flatten(store.uploads[id]) == Arrived(chunks) && WellCut(store.uploads[id], PART_SIZE)
  {
    hide AllFull, Flatten;
    var size, buffer := 0, [];
    upload := None;
    for i := 0 to |chunks|
      invariant InHand(store, key, before, upload) && Cut(store.uploads, upload, buffer, Arrived(chunks[..i]))
      invariant Whole(chunks[..i]) && size == |Arrived(chunks[..i])| && (upload.None? ==> |buffer| < PART_SIZE) && |buffer| < PART_SIZE
      invariant store.objects == old(store.objects) && store.completed == old(store.completed)
    {
      if chunks[i].None? { return Err(Upstream), upload; }
      var chunk := chunks[i].value;
      assert chunks[..i + 1][..i] == chunks[..i];
      size := size + |chunk|;
      Buffered(store.uploads, upload, buffer, chunk, Arrived(chunks[..i]));
      buffer := buffer + chunk;
      var ok;
      ok, buffer, upload := SendFull(store, key, buffer, upload, before, Arrived(chunks[..i + 1]));
      if !ok { return Err(Refused), upload; }
    }
    assert chunks[..|chunks|] == chunks;
    if upload.None? {
      var put := store.PutObject(key, buffer);
      if !put { return Err(Refused), None; }
      return Ok(size), None;
    }
    var started, outcome := upload.value, true;
    ghost var sent := store.uploads[started.id];
    LastPart(sent, buffer, Arrived(chunks));
    if buffer != [] { outcome, started := SendPart(store, key, started, buffer, before); }
    if outcome {
      outcome := store.Complete(started.id);
      if outcome { return Ok(size), None; }
    }
    return Err(Refused), Some(started);
  }

  lemma Buffered(uploads: map<UploadId, seq<Bytes>>, upload: Option<Multipart>, buffer: Bytes, chunk: Bytes, arrived: Bytes)
    requires Cut(uploads, upload, buffer, arrived)
    ensures Cut(uploads, upload, buffer + chunk, arrived + chunk)
  {
    if upload.Some? { assert Flatten(uploads[upload.value.id]) + (buffer + chunk) == Flatten(uploads[upload.value.id]) + buffer + chunk; }
  }

  lemma LastPart(sent: seq<Bytes>, buffer: Bytes, arrived: Bytes)
    requires AllFull(sent, PART_SIZE) && Flatten(sent) + buffer == arrived && |buffer| < PART_SIZE
    ensures buffer == [] ==> Flatten(sent) == arrived && WellCut(sent, PART_SIZE)
    ensures buffer != [] ==> Flatten(sent + [buffer]) == arrived && WellCut(sent + [buffer], PART_SIZE)
  {
    OneMorePart(sent, buffer);
    if buffer == [] { assert Flatten(sent) + buffer == Flatten(sent); }
  }

  /**
    `stage`: the object is the stream, in parts S3 takes; and however it goes, no multipart upload it
    began is left: each was completed, or handed to an abort.
   */
  method Stage(store: ObjectStore, key: string, chunks: seq<Chunk>) returns (r: Result<nat, StorageError>)
    requires store.Valid()
    modifies store
    ensures store.Valid()
    ensures r.Ok? ==> Whole(chunks) && r.value == |Arrived(chunks)| && store.objects == old(store.objects)[key := Arrived(chunks)]
    ensures r.Err? ==> store.objects == old(store.objects) || store.objects == old(store.objects) - {key}
    ensures forall id :: id in store.uploads && id !in old(store.uploads) ==> id in store.completed || id in store.aborted
    ensures forall id :: id in store.completed && id !in old(store.completed) ==>
              id in store.uploads && Flatten(store.uploads[id]) == Arrived(chunks) && WellCut(store.uploads[id], PART_SIZE)
  {
    hide AllFull, Flatten, Arrived, WellCut;
    var upload;
    r, upload := StreamInto(store, key, chunks, store.uploads.Keys);
    if r.Err? {
      if upload.Some? { store.Abort(upload.value.id); }
      var _ := store.DeleteObject(key);
    }
  }

  // ---------- copying within the store ----------

  /** A span of an object, ends included, as a range header names it. */
  datatype Range = Range(start: nat, end: nat)

  /** Ranges that follow one another from nothing to `reached`, none longer than a copy may be. */
  ghost predicate Tile(ranges: seq<Range>, reached: nat) {
    && (ranges == [] ==> reached == 0)
    && (ranges != [] ==> ranges[0].start == 0 && reached == ranges[|ranges| - 1].end + 1)
    && (forall i :: 0 <= i < |ranges| ==> ranges[i].start <= ranges[i].end < ranges[i].start + LARGEST_SINGLE_COPY)
    && (forall i :: 0 < i < |ranges| ==> ranges[i].start == ranges[i - 1].end + 1)
  }

  /** `copy_parts`: the ranges asked for tile the object, and what is completed is the object. */
  method CopyParts(store: ObjectStore, started: Multipart, from: string, to: string, size: nat, ghost before: set<UploadId>) returns (ok: bool, ghost ranges: seq<Range>)
    requires InHand(store, to, before, Some(started)) && store.uploads[started.id] == [] && started.parts == 0
    requires from in store.objects && |store.objects[from]| == size > 0
    modifies store`answers, store`uploads, store`objects, store`completed
    ensures InHand(store, to, before, if ok then None else Some(started))
    ensures store.objects == if ok then old(store.objects)[to := old(store.objects)[from]] else old(store.objects)
    ensures ok ==> Tile(ranges, size)
    ensures store.aborted == old(store.aborted)
  {
    hide Tile, Flatten;
    var start, parts := 0, started.parts;
    ranges := [];
    NothingSent();
    NothingTiled();
    while start < size
      invariant start <= size && InHand(store, to, before, Some(started)) && parts == |store.uploads[started.id]|
      invariant store.objects == old(store.objects) && store.aborted == old(store.aborted)
      invariant Flatten(store.uploads[started.id]) == store.objects[from][..start] && Tile(ranges, start)
      decreases size - start
    {
      var end := (if start + LARGEST_SINGLE_COPY <= size then start + LARGEST_SINGLE_COPY else size) - 1;
      OneMoreRange(ranges, start, end, store.uploads[started.id], store.objects[from]);
      var copied := store.UploadPartCopy(started.id, parts + 1, from, start, end);
      if !copied { return false, ranges; }
      ranges := ranges + [Range(start, end)];
      parts := parts + 1;
      start := end + 1;
    }
    assert store.objects[from][..size] == store.objects[from];
    ok := store.Complete(started.id);
  }

  lemma NothingTiled()
    ensures Tile([], 0) && forall bytes: Bytes :: bytes[..0] == []
  {
  }

  lemma OneMoreRange(ranges: seq<Range>, start: nat, end: nat, sent: seq<Bytes>, whole: Bytes)
    requires Tile(ranges, start) && start <= end < start + LARGEST_SINGLE_COPY && end < |whole| && Flatten(sent) == whole[..start]
    ensures Tile(ranges + [Range(start, end)], end + 1) && Flatten(sent + [whole[start..end + 1]]) == whole[..end + 1]
  {
    OneMorePart(sent, whole[start..end + 1]);
    assert whole[..start] + whole[start..end + 1] == whole[..end + 1];
  }

  /** `copy_in_parts`: the destination becomes the source or is left alone, and the upload is completed or handed to an abort. */
  method CopyInParts(store: ObjectStore, from: string, to: string, size: nat) returns (ok: bool)
    requires store.Valid() && from in store.objects && |store.objects[from]| == size > 0
    modifies store
    ensures store.Valid()
    ensures store.objects == if ok then old(store.objects)[to := old(store.objects)[from]] else old(store.objects)
    ensures forall id :: id in store.uploads && id !in old(store.uploads) ==> id in store.completed || id in store.aborted
  {
    ghost var before := store.uploads.Keys;
    var upload := Begin(store, to, None, before);
    if upload.None? { return false; }
    ghost var ranges;
    ok, ranges := CopyParts(store, upload.value, from, to, size, before);
    if !ok { store.Abort(upload.value.id); }
  }

  /** `copy`: in one request while one may carry it, in parts beyond. */
  method Copy(store: ObjectStore, from: string, to: string, size: nat) returns (ok: bool)
    requires store.Valid() && from in store.objects && |store.objects[from]| == size
    modifies store
    ensures store.Valid()
    ensures store.objects == if ok then old(store.objects)[to := old(store.objects)[from]] else old(store.objects)
    ensures forall id :: id in store.uploads && id !in old(store.uploads) ==> id in store.completed || id in store.aborted
  {
    if size > LARGEST_SINGLE_COPY {
      ok := CopyInParts(store, from, to, size);
    } else {
      ok := store.CopyObject(from, to);
    }
  }
}
