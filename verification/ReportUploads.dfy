/** Page reports uploaded in chunks (extension/background/report-uploads.js) to a server that stores
    them (src/api/routers/apply_routes/report_uploads.py), over requests that fail, replies that are
    lost and workers that restart. */
module ReportUploads {
  import opened Options
  import Extremes

  type Bytes = seq<bv8>
  type Id = string

  const CHUNK := 65536

  /** A queued report: `details` are the fields the start request repeats. */
  datatype Record = Record(details: string, bytes: Bytes)

  // ---- the chunks of a page ------------------------------------------------------------

  /** Math.max(1, Math.ceil(length / CHUNK)). */
  function ChunkCount(bytes: Bytes): nat {
    if bytes == [] then 1 else (|bytes| + CHUNK - 1) / CHUNK
  }

  function Clamp(i: nat, bytes: Bytes): nat { if i < |bytes| then i else |bytes| }

  /** bytes.subarray(index * CHUNK, (index + 1) * CHUNK). */
  function Part(bytes: Bytes, index: nat): Bytes { bytes[Clamp(index * CHUNK, bytes)..Clamp((index + 1) * CHUNK, bytes)] }

  function Joined(chunks: map<nat, Bytes>, n: nat): Bytes
    requires forall i :: 0 <= i < n ==> i in chunks
  {
    if n == 0 then [] else Joined(chunks, n - 1) + chunks[n - 1]
  }

  lemma {:induction false} PartsJoin(bytes: Bytes, chunks: map<nat, Bytes>, n: nat)
    requires forall i :: 0 <= i < n ==> i in chunks && chunks[i] == Part(bytes, i)
    ensures Joined(chunks, n) == bytes[..Clamp(n * CHUNK, bytes)]
  {
    if n > 0 { PartsJoin(bytes, chunks, n - 1); }
  }

  /** The chunks are the page, none too large, and none empty but an empty page's only one. */
  lemma PartsAreThePage(bytes: Bytes, chunks: map<nat, Bytes>)
    requires forall i :: 0 <= i < ChunkCount(bytes) ==> i in chunks && chunks[i] == Part(bytes, i)
    ensures Joined(chunks, ChunkCount(bytes)) == bytes
    ensures forall i :: 0 <= i < ChunkCount(bytes) ==> |chunks[i]| <= CHUNK && (bytes != [] ==> chunks[i] != [])
  {
    PartsJoin(bytes, chunks, ChunkCount(bytes));
    assert |bytes| <= ChunkCount(bytes) * CHUNK;
    forall i | 0 <= i < ChunkCount(bytes)
      ensures |chunks[i]| <= CHUNK && (bytes != [] ==> chunks[i] != [])
    {
      assert bytes != [] ==> i * CHUNK < |bytes|;
    }
  }

  // ---- the server ----------------------------------------------------------------------

  datatype Upload = Upload(details: string, chunkCount: nat, chunks: map<nat, Bytes>, report: Option<nat>)

  datatype Request = Start(id: Id, details: string, chunkCount: nat) | Put(id: Id, index: nat, data: Bytes) | Complete(id: Id)

  /** What the client makes of a reply. */
  datatype Reply = Receipt(report: Option<nat>) | Refused(status: nat)

  type Uploads = map<Id, Upload>

  function Serve(uploads: Uploads, r: Request): (Uploads, Reply) {
    match r
    case Start(id, details, chunkCount) =>
      if chunkCount < 1 then (uploads, Refused(422))
      else if id !in uploads then (uploads[id := Upload(details, chunkCount, map[], None)], Receipt(None))
      else if uploads[id].details != details || uploads[id].chunkCount != chunkCount then (uploads, Refused(409))
      else (uploads, Receipt(uploads[id].report))
    case Put(id, index, data) =>
      if |data| > CHUNK then (uploads, Refused(413))
      else if data == [] then (uploads, Refused(400))
      else if id !in uploads then (uploads, Refused(404))
      else if index >= uploads[id].chunkCount then (uploads, Refused(400))
      else if index in uploads[id].chunks then
        (uploads, if uploads[id].chunks[index] == data then Receipt(uploads[id].report) else Refused(409))
      else if uploads[id].report.Some? then (uploads, Refused(409))
      else (uploads[id := uploads[id].(chunks := uploads[id].chunks[index := data])], Receipt(None))
    case Complete(id) =>
      if id !in uploads then (uploads, Refused(404))
      else if uploads[id].report.Some? then (uploads, Receipt(uploads[id].report))
      else if |uploads[id].chunks| != uploads[id].chunkCount then (uploads, Refused(409))
      else (uploads[id := uploads[id].(report := Some(NextReport(uploads)))], Receipt(Some(NextReport(uploads))))
  }

  function Reports(uploads: Uploads): set<nat> {
    set id | id in uploads && uploads[id].report.Some? :: uploads[id].report.value
  }

  /** The row id of a new report: beyond every one given. */
  function NextReport(uploads: Uploads): (n: nat)
    ensures n !in Reports(uploads)
  {
    var given := Reports(uploads);
    if given == {} then 1 else Extremes.Greatest(given) + 1
  }

  /** Different uploads complete as different reports. */
  ghost predicate ReportsDiffer(uploads: Uploads) {
    forall a, b :: a in uploads && b in uploads && uploads[a].report.Some? && uploads[a].report == uploads[b].report ==> a == b
  }

  lemma ServeKeepsReportsApart(uploads: Uploads, request: Request)
    requires ReportsDiffer(uploads)
    ensures ReportsDiffer(Serve(uploads, request).0)
  {
    assert forall id :: id in uploads && uploads[id].report.Some? ==> uploads[id].report.value in Reports(uploads);
  }

  // ---- the client ----------------------------------------------------------------------

  /** Where an upload is: at a request, or about to take the record off the queue. */
  datatype Stage = Starting | Putting(index: nat) | Completing | Removing

  datatype Pump = Resting | Working(id: Id, stage: Stage, rest: seq<Id>)

  /** `issued` is a ghost record of every report ever queued, under its random id; `late` are requests
      whose outcome the client never learnt, which may reach the server at any time, or again. */
  datatype State = State(queue: map<Id, Record>, pump: Pump, uploads: Uploads, late: set<Request>, issued: map<Id, Record>)

  const BEGIN := State(map[], Resting, map[], {}, map[])

  datatype Event =
    | Queue(id: Id, record: Record)
    | Wake(keys: seq<Id>)
    | Exchange(delivered: bool)
    | Lose
    | Remove(ok: bool)
    | Arrive(request: Request)
    | Restart

  function RequestAt(id: Id, record: Record, stage: Stage): Request {
    match stage
    case Starting => Start(id, record.details, ChunkCount(record.bytes))
    case Putting(index) => Put(id, index, Part(record.bytes, index))
    case _ => Complete(id)
  }

  /** The next record in the list of keys that is still queued. */
  function Take(queue: map<Id, Record>, keys: seq<Id>): Pump {
    if keys == [] then Resting
    else if keys[0] in queue then Working(keys[0], Starting, keys[1..])
    else Take(queue, keys[1..])
  }

  /** Where a reply leads; None is a thrown error, after which the next record is tried. */
  function Led(record: Record, stage: Stage, reply: Reply): Option<Stage> {
    if reply.Refused? then None
    else
      match stage
      case Starting => if reply.report.Some? then Some(Removing) else Some(Putting(0))
      case Putting(index) => if index + 1 < ChunkCount(record.bytes) then Some(Putting(index + 1)) else Some(Completing)
      case Completing => if reply.report.Some? then Some(Removing) else None
      case Removing => None
  }

  function GoneOn(s: State, record: Record, reply: Reply): Pump
    requires s.pump.Working?
  {
    var next := Led(record, s.pump.stage, reply);
    if next.Some? then s.pump.(stage := next.value) else Take(s.queue, s.pump.rest)
  }

  predicate AtRequest(s: State) { s.pump.Working? && !s.pump.stage.Removing? && s.pump.id in s.issued }

  function Next(s: State, e: Event): State {
    match e
    case Queue(id, record) =>
      if id in s.issued then s else s.(queue := s.queue[id := record], issued := s.issued[id := record])
    case Wake(keys) => if s.pump.Resting? then s.(pump := Take(s.queue, keys)) else s
    case Exchange(delivered) =>
      if !AtRequest(s) then s
      else
        var record := s.issued[s.pump.id];
        var request := RequestAt(s.pump.id, record, s.pump.stage);
        var (uploads, reply) := Serve(s.uploads, request);
        if delivered then s.(uploads := uploads, pump := GoneOn(s, record, reply))
        else s.(uploads := uploads, late := s.late + {request}, pump := Take(s.queue, s.pump.rest))
    case Lose =>
      if !AtRequest(s) then s
      else s.(late := s.late + {RequestAt(s.pump.id, s.issued[s.pump.id], s.pump.stage)}, pump := Take(s.queue, s.pump.rest))
    case Remove(ok) =>
      if !s.pump.Working? || !s.pump.stage.Removing? then s
      else
        var queue := if ok then s.queue - {s.pump.id} else s.queue;
        s.(queue := queue, pump := Take(queue, s.pump.rest))
    case Arrive(request) => if request in s.late then s.(uploads := Serve(s.uploads, request).0) else s
    case Restart =>
      s.(pump := Resting,
         late := if AtRequest(s) then s.late + {RequestAt(s.pump.id, s.issued[s.pump.id], s.pump.stage)} else s.late)
  }

  // ---- what the server keeps -----------------------------------------------------------

  predicate Has(upload: Upload, bytes: Bytes, i: nat) {
    i in upload.chunks && upload.chunks[i] == Part(bytes, i) && upload.chunks[i] != []
  }

  /** An upload is of its record: chunks it holds are the page's, and a completed one holds them all. */
  predicate Fits(upload: Upload, record: Record) {
    && upload.details == record.details && upload.chunkCount == ChunkCount(record.bytes)
    && (forall i :: i in upload.chunks ==> i < upload.chunkCount && Has(upload, record.bytes, i))
    && (upload.report.Some? ==> forall i :: 0 <= i < upload.chunkCount ==> Has(upload, record.bytes, i))
  }

  predicate ServerFits(uploads: Uploads, issued: map<Id, Record>) {
    forall id :: id in uploads ==> id in issued && Fits(uploads[id], issued[id])
  }

  predicate Genuine(r: Request, issued: map<Id, Record>) {
    && r.id in issued
    && match r
       case Start(id, details, chunkCount) => details == issued[id].details && chunkCount == ChunkCount(issued[id].bytes)
       case Put(id, index, data) => index < ChunkCount(issued[id].bytes) && data == Part(issued[id].bytes, index)
       case Complete(_) => true
  }

  predicate Completed(uploads: Uploads, id: Id) { id in uploads && uploads[id].report.Some? }

  /** As many chunks as there are indices are all of them. */
  lemma {:induction false} CountIsAll(keys: set<nat>, n: nat)
    requires |keys| == n && forall i :: i in keys ==> i < n
    ensures forall i :: 0 <= i < n ==> i in keys
  {
    if n > 0 {
      var rest := keys - {n - 1};
      if n - 1 !in keys {
        assert rest == keys;
        NoMoreThan(keys, n - 1);
      }
      CountIsAll(rest, n - 1);
    }
  }

  lemma {:induction false} NoMoreThan(keys: set<nat>, n: nat)
    requires forall i :: i in keys ==> i < n
    ensures |keys| <= n
  {
    if n == 0 {
      assert keys <= {};
    } else {
      NoMoreThan(keys - {n - 1}, n - 1);
    }
  }

  lemma ServeKeeps(uploads: Uploads, r: Request, issued: map<Id, Record>)
    requires ServerFits(uploads, issued) && Genuine(r, issued)
    ensures var (uploads', reply) := Serve(uploads, r);
            && ServerFits(uploads', issued)
            && (forall id :: Completed(uploads, id) ==> Completed(uploads', id))
            && (reply.Receipt? && reply.report.Some? ==> Completed(uploads', r.id))
  {
    hide Part, ChunkCount;
    if r.Complete? && r.id in uploads && |uploads[r.id].chunks| == uploads[r.id].chunkCount {
      assert uploads[r.id].chunks.Keys == set i | i in uploads[r.id].chunks;
      CountIsAll(uploads[r.id].chunks.Keys, uploads[r.id].chunkCount);
    }
  }

  // ---- runs ----------------------------------------------------------------------------

  predicate PumpFits(s: State) {
    s.pump.Working? ==>
      && s.pump.id in s.issued
      && (s.pump.stage.Putting? ==> s.pump.stage.index < ChunkCount(s.issued[s.pump.id].bytes))
      && (s.pump.stage.Removing? ==> Completed(s.uploads, s.pump.id))
  }

  predicate Inv(s: State) {
    && (forall id :: id in s.queue ==> id in s.issued && s.queue[id] == s.issued[id])
    && (forall id :: id in s.issued && id !in s.queue ==> Completed(s.uploads, id))
    && ServerFits(s.uploads, s.issued)
    && (forall r :: r in s.late ==> Genuine(r, s.issued))
    && PumpFits(s)
  }

  lemma {:induction false} TakeIsQueued(queue: map<Id, Record>, keys: seq<Id>)
    ensures var pump := Take(queue, keys); pump.Working? ==> pump.id in queue && pump.stage.Starting?
  {
    if keys != [] && keys[0] !in queue { TakeIsQueued(queue, keys[1..]); }
  }

  lemma RequestIsGenuine(id: Id, issued: map<Id, Record>, stage: Stage)
    requires id in issued && (stage.Putting? ==> stage.index < ChunkCount(issued[id].bytes))
    ensures Genuine(RequestAt(id, issued[id], stage), issued) && RequestAt(id, issued[id], stage).id == id
  {
  }

  lemma GoneOnFits(s: State, record: Record, reply: Reply)
    requires s.pump.Working? && s.pump.id in s.issued && record == s.issued[s.pump.id]
    requires forall id :: id in s.queue ==> id in s.issued
    requires reply.Receipt? && reply.report.Some? ==> Completed(s.uploads, s.pump.id)
    ensures PumpFits(s.(pump := GoneOn(s, record, reply)))
  {
    hide Completed, ChunkCount;
    TakeIsQueued(s.queue, s.pump.rest);
    CountIsPositive(record.bytes);
  }

  lemma ExchangeKeepsInv(s: State, delivered: bool)
    requires Inv(s) && AtRequest(s)
    ensures Inv(Next(s, Exchange(delivered)))
  {
    hide ServerFits, Genuine, Serve, Completed, ChunkCount, Part, GoneOn;
    var record := s.issued[s.pump.id];
    var request := RequestAt(s.pump.id, record, s.pump.stage);
    RequestIsGenuine(s.pump.id, s.issued, s.pump.stage);
    ServeKeeps(s.uploads, request, s.issued);
    var (uploads, reply) := Serve(s.uploads, request);
    if delivered {
      GoneOnFits(s.(uploads := uploads), record, reply);
      assert GoneOn(s.(uploads := uploads), record, reply) == GoneOn(s, record, reply) by { SamePump(s, uploads, record, reply); }
    } else {
      TakeIsQueued(s.queue, s.pump.rest);
    }
  }

  lemma SamePump(s: State, uploads: Uploads, record: Record, reply: Reply)
    requires s.pump.Working?
    ensures GoneOn(s.(uploads := uploads), record, reply) == GoneOn(s, record, reply)
  {
  }

  lemma CountIsPositive(bytes: Bytes)
    ensures ChunkCount(bytes) >= 1
  {
  }

  lemma RemoveKeepsInv(s: State, ok: bool)
    requires Inv(s)
    ensures Inv(Next(s, Remove(ok)))
  {
    hide ServerFits, Genuine, Completed, Take;
    if s.pump.Working? {
      TakeIsQueued(s.queue - {s.pump.id}, s.pump.rest);
      TakeIsQueued(s.queue, s.pump.rest);
    }
  }

  lemma NextKeepsInv(s: State, e: Event)
    requires Inv(s)
    ensures Inv(Next(s, e))
  {
    hide Serve, Completed, Part, ChunkCount, Fits, Take;
    if s.pump.Working? {
      RequestIsGenuine(s.pump.id, s.issued, s.pump.stage);
      TakeIsQueued(s.queue, s.pump.rest);
    }
    match e {
      case Exchange(delivered) => if AtRequest(s) { ExchangeKeepsInv(s, delivered); }
      case Arrive(r) => if r in s.late { ServeKeeps(s.uploads, r, s.issued); }
      case Wake(keys) => TakeIsQueued(s.queue, keys);
      case Remove(ok) => RemoveKeepsInv(s, ok);
      case _ =>
    }
  }

  function RunOf(events: seq<Event>): State {
    if events == [] then BEGIN else Next(RunOf(events[..|events| - 1]), events[|events| - 1])
  }

  lemma {:induction false} RunKeepsInv(events: seq<Event>)
    ensures Inv(RunOf(events))
  {
    hide Inv, Next;
    if events == [] {
      BeginInv();
    } else {
      RunKeepsInv(events[..|events| - 1]);
      NextKeepsInv(RunOf(events[..|events| - 1]), events[|events| - 1]);
    }
  }

  lemma BeginInv()
    ensures Inv(BEGIN)
  {
  }

  /** Whatever fails, is lost or restarts: a report no longer queued is complete on the server, its
      chunks in order exactly the page's bytes, each of at most 65,536. */
  lemma RemovedMeansDelivered(events: seq<Event>, id: Id)
    requires id in RunOf(events).issued && id !in RunOf(events).queue
    ensures var s := RunOf(events);
            && id in s.uploads && s.uploads[id].report.Some?
            && s.uploads[id].chunkCount == ChunkCount(s.issued[id].bytes)
            && (forall i :: 0 <= i < s.uploads[id].chunkCount ==> i in s.uploads[id].chunks && |s.uploads[id].chunks[i]| <= CHUNK)
            && Joined(s.uploads[id].chunks, s.uploads[id].chunkCount) == s.issued[id].bytes
  {
    RunKeepsInv(events);
    var s := RunOf(events);
    assert Fits(s.uploads[id], s.issued[id]);
    forall i | 0 <= i < s.uploads[id].chunkCount
      ensures i in s.uploads[id].chunks && s.uploads[id].chunks[i] == Part(s.issued[id].bytes, i)
    {
      assert Has(s.uploads[id], s.issued[id].bytes, i);
    }
    PartsAreThePage(s.issued[id].bytes, s.uploads[id].chunks);
  }

  /** The server refuses an empty chunk, so a report of an empty page is never taken off the queue. */
  lemma EmptyPageStays(events: seq<Event>, id: Id)
    requires id in RunOf(events).issued && RunOf(events).issued[id].bytes == []
    ensures id in RunOf(events).queue
  {
    RunKeepsInv(events);
    var s := RunOf(events);
    if Completed(s.uploads, id) { CompletedNeedsBytes(s.uploads[id], s.issued[id]); }
  }

  lemma CompletedNeedsBytes(upload: Upload, record: Record)
    requires Fits(upload, record) && upload.report.Some?
    ensures record.bytes != []
  {
    assert Has(upload, record.bytes, 0);
  }

  lemma {:induction false} AllIsCount(keys: set<nat>, n: nat)
    requires forall i :: i in keys <==> 0 <= i < n
    ensures |keys| == n
  {
    if n == 0 {
      assert keys <= {};
    } else {
      AllIsCount(keys - {n - 1}, n - 1);
    }
  }

  lemma PartIsSmall(bytes: Bytes, i: nat)
    requires i < ChunkCount(bytes)
    ensures |Part(bytes, i)| <= CHUNK && (Part(bytes, i) == [] <==> bytes == [])
  {
  }

  function WithChunk(upload: Upload, index: nat, data: Bytes): Upload {
    upload.(chunks := upload.chunks[index := data])
  }

  lemma WithChunkFits(upload: Upload, record: Record, index: nat)
    requires Fits(upload, record) && upload.report.None? && index < ChunkCount(record.bytes) && record.bytes != []
    ensures Fits(WithChunk(upload, index, Part(record.bytes, index)), record)
    ensures Has(WithChunk(upload, index, Part(record.bytes, index)), record.bytes, index)
    ensures forall i :: Has(upload, record.bytes, i) ==> Has(WithChunk(upload, index, Part(record.bytes, index)), record.bytes, i)
  {
    PartIsSmall(record.bytes, index);
    hide Part, ChunkCount;
  }

  /** What a put of one of its chunks does to an upload: none if it is there, or is empty. */
  lemma PutServes(uploads: Uploads, id: Id, record: Record, index: nat)
    requires id in uploads && Fits(uploads[id], record) && index < ChunkCount(record.bytes)
    ensures var (uploads', reply) := Serve(uploads, Put(id, index, Part(record.bytes, index)));
            && (reply.Refused? <==> record.bytes == [])
            && (reply.Receipt? ==> Has(uploads[id], record.bytes, index) || uploads[id].report.None?)
            && uploads' == if reply.Refused? || index in uploads[id].chunks then uploads
                           else uploads[id := WithChunk(uploads[id], index, Part(record.bytes, index))]
  {
    PartIsSmall(record.bytes, index);
    if uploads[id].report.Some? { CompletedNeedsBytes(uploads[id], record); }
    hide Part, ChunkCount;
    assert index in uploads[id].chunks || uploads[id].report.Some? ==> Has(uploads[id], record.bytes, index);
  }

  /** A chunk taken is there from then on, beside those already there. */
  lemma PutHolds(uploads: Uploads, id: Id, record: Record, index: nat)
    requires id in uploads && Fits(uploads[id], record) && index < ChunkCount(record.bytes)
    ensures var (uploads', reply) := Serve(uploads, Put(id, index, Part(record.bytes, index)));
            && (reply.Refused? <==> record.bytes == [])
            && id in uploads' && Fits(uploads'[id], record)
            && (forall i :: 0 <= i < ChunkCount(record.bytes) && Has(uploads[id], record.bytes, i) ==> Has(uploads'[id], record.bytes, i))
            && (reply.Receipt? ==> Has(uploads'[id], record.bytes, index))
  {
    hide Part, ChunkCount, Serve, WithChunk;
    PutServes(uploads, id, record, index);
    var (uploads', reply) := Serve(uploads, Put(id, index, Part(record.bytes, index)));
    if reply.Receipt? && index !in uploads[id].chunks {
      WithChunkFits(uploads[id], record, index);
      assert uploads'[id] == WithChunk(uploads[id], index, Part(record.bytes, index));
    } else {
      assert uploads' == uploads;
    }
  }

  /** With every chunk there, the completion goes through. */
  lemma CompleteHolds(uploads: Uploads, id: Id, record: Record)
    requires id in uploads && Fits(uploads[id], record)
    requires forall i :: 0 <= i < ChunkCount(record.bytes) ==> Has(uploads[id], record.bytes, i)
    ensures var (uploads', reply) := Serve(uploads, Complete(id));
            reply.Receipt? && reply.report.Some? && Completed(uploads', id)
  {
    hide Part, ChunkCount;
    forall i: nat ensures i in uploads[id].chunks.Keys <==> 0 <= i < uploads[id].chunkCount {
      assert i < uploads[id].chunkCount ==> Has(uploads[id], record.bytes, i);
    }
    AllIsCount(uploads[id].chunks.Keys, uploads[id].chunkCount);
  }

  // ---- what an undisturbed pump delivers -----------------------------------------------

  predicate Quiet(events: seq<Event>, all: seq<Event>) {
    events <= all && forall k :: |events| <= k < |all| ==> all[k] in {Exchange(true), Remove(true)}
  }

  lemma RunMore(events: seq<Event>, e: Event)
    ensures RunOf(events + [e]) == Next(RunOf(events), e)
  {
    assert (events + [e])[..|events|] == events;
  }

  /** The record at work is dealt with: off the queue unless its page is empty, and the next is taken up. */
  predicate DealtWith(s: State, s': State, id: Id, rest: seq<Id>) {
    && id in s.issued && s'.issued == s.issued
    && s'.queue == (if s.issued[id].bytes == [] then s.queue else s.queue - {id}) && s'.pump == Take(s'.queue, rest)
  }

  lemma RemovingDeals(events: seq<Event>, id: Id, rest: seq<Id>) returns (all: seq<Event>)
    requires RunOf(events).pump == Working(id, Removing, rest) && id in RunOf(events).issued && RunOf(events).issued[id].bytes != []
    ensures Quiet(events, all) && DealtWith(RunOf(events), RunOf(all), id, rest)
  {
    all := events + [Remove(true)];
    RunMore(events, Remove(true));
    hide Take, RunOf;
  }

  /** One request answered: the reply leads on. */
  lemma Exchanges(events: seq<Event>, id: Id, stage: Stage, rest: seq<Id>)
    requires RunOf(events).pump == Working(id, stage, rest) && !stage.Removing? && id in RunOf(events).issued
    ensures var s, s' := RunOf(events), RunOf(events + [Exchange(true)]);
            var record := s.issued[id];
            var (uploads, reply) := Serve(s.uploads, RequestAt(id, record, stage));
            && s'.uploads == uploads && s'.queue == s.queue && s'.issued == s.issued
            && s'.pump == if Led(record, stage, reply).Some? then Working(id, Led(record, stage, reply).value, rest)
                          else Take(s.queue, rest)
  {
    RunMore(events, Exchange(true));
    hide Serve, RunOf, Take, Led;
  }

  lemma UploadsFit(events: seq<Event>)
    ensures ServerFits(RunOf(events).uploads, RunOf(events).issued)
    ensures forall id :: id in RunOf(events).queue ==> id in RunOf(events).issued && RunOf(events).queue[id] == RunOf(events).issued[id]
    ensures RunOf(events).pump.Working? ==> RunOf(events).pump.id in RunOf(events).issued
  {
    RunKeepsInv(events);
  }

  predicate HasBelow(upload: Upload, bytes: Bytes, n: nat) { forall i :: 0 <= i < n ==> Has(upload, bytes, i) }

  lemma PutBelow(uploads: Uploads, id: Id, record: Record, index: nat)
    requires id in uploads && Fits(uploads[id], record) && index < ChunkCount(record.bytes) && HasBelow(uploads[id], record.bytes, index)
    ensures var (uploads', reply) := Serve(uploads, Put(id, index, Part(record.bytes, index)));
            && (reply.Refused? <==> record.bytes == [])
            && id in uploads' && (reply.Receipt? ==> HasBelow(uploads'[id], record.bytes, index + 1))
  {
    hide Serve, Part, ChunkCount, Fits, Has;
    PutHolds(uploads, id, record, index);
  }

  /** One chunk put, and there from then on. */
  lemma PutExchanged(events: seq<Event>, id: Id, index: nat, rest: seq<Id>)
    requires RunOf(events).pump == Working(id, Putting(index), rest) && id in RunOf(events).issued
    requires id in RunOf(events).uploads && index < ChunkCount(RunOf(events).issued[id].bytes)
    requires HasBelow(RunOf(events).uploads[id], RunOf(events).issued[id].bytes, index)
    ensures var s, s' := RunOf(events), RunOf(events + [Exchange(true)]);
            var bytes := s.issued[id].bytes;
            && s'.issued == s.issued && s'.queue == s.queue && id in s'.uploads
            && (bytes == [] ==> s'.pump == Take(s.queue, rest))
            && (bytes != [] ==> HasBelow(s'.uploads[id], bytes, index + 1)
                                && s'.pump == Working(id, if index + 1 < ChunkCount(bytes) then Putting(index + 1) else Completing, rest))
  {
    var s := RunOf(events);
    UploadsFit(events);
    Exchanges(events, id, Putting(index), rest);
    hide RunOf, Serve, Part, ChunkCount, Take, HasBelow;
    PutBelow(s.uploads, id, s.issued[id], index);
    hide Fits;
  }

  /** From its index-th chunk on. */
  lemma {:induction false} PuttingDeals(events: seq<Event>, id: Id, index: nat, rest: seq<Id>) returns (all: seq<Event>)
    requires RunOf(events).pump == Working(id, Putting(index), rest) && id in RunOf(events).issued
    requires id in RunOf(events).uploads && index < ChunkCount(RunOf(events).issued[id].bytes)
    requires HasBelow(RunOf(events).uploads[id], RunOf(events).issued[id].bytes, index)
    ensures Quiet(events, all) && DealtWith(RunOf(events), RunOf(all), id, rest)
    decreases ChunkCount(RunOf(events).issued[id].bytes) - index
  {
    hide RunOf, ChunkCount, Take, HasBelow;
    var bytes := RunOf(events).issued[id].bytes;
    PutExchanged(events, id, index, rest);
    all := events + [Exchange(true)];
    if bytes != [] {
      if index + 1 < ChunkCount(bytes) {
        all := PuttingDeals(all, id, index + 1, rest);
      } else {
        assert index + 1 == ChunkCount(bytes);
        all := CompletingDeals(all, id, rest);
      }
    }
  }

  lemma CompletingDeals(events: seq<Event>, id: Id, rest: seq<Id>) returns (all: seq<Event>)
    requires RunOf(events).pump == Working(id, Completing, rest) && id in RunOf(events).issued && RunOf(events).issued[id].bytes != []
    requires id in RunOf(events).uploads
    requires HasBelow(RunOf(events).uploads[id], RunOf(events).issued[id].bytes, ChunkCount(RunOf(events).issued[id].bytes))
    ensures Quiet(events, all) && DealtWith(RunOf(events), RunOf(all), id, rest)
  {
    var s := RunOf(events);
    UploadsFit(events);
    Exchanges(events, id, Completing, rest);
    hide RunOf, Serve, Part, ChunkCount, Take, Has;
    CompleteHolds(s.uploads, id, s.issued[id]);
    all := RemovingDeals(events + [Exchange(true)], id, rest);
  }

  /** What a start of its record does to an upload. */
  lemma StartServes(uploads: Uploads, id: Id, record: Record)
    requires id in uploads ==> Fits(uploads[id], record)
    ensures var (uploads', reply) := Serve(uploads, Start(id, record.details, ChunkCount(record.bytes)));
            && reply.Receipt? && id in uploads' && (reply.report.Some? ==> record.bytes != [])
  {
    CountIsPositive(record.bytes);
    if id in uploads && uploads[id].report.Some? { CompletedNeedsBytes(uploads[id], record); }
  }

  lemma StartingDeals(events: seq<Event>, id: Id, rest: seq<Id>) returns (all: seq<Event>)
    requires RunOf(events).pump == Working(id, Starting, rest)
    ensures Quiet(events, all) && DealtWith(RunOf(events), RunOf(all), id, rest)
  {
    var s := RunOf(events);
    UploadsFit(events);
    Exchanges(events, id, Starting, rest);
    CountIsPositive(s.issued[id].bytes);
    StartServes(s.uploads, id, s.issued[id]);
    hide RunOf, Serve, Part, ChunkCount, Take, Has, Fits;
    all := events + [Exchange(true)];
    if RunOf(all).pump.stage.Removing? {
      all := RemovingDeals(all, id, rest);
    } else {
      all := PuttingDeals(all, id, 0, rest);
    }
  }

  /** Those of the keys still queued are dealt with, one after another, and the pump rests. */
  lemma {:induction false} PumpDeals(events: seq<Event>, keys: seq<Id>) returns (all: seq<Event>)
    requires RunOf(events).pump == Take(RunOf(events).queue, keys)
    ensures Quiet(events, all) && RunOf(all).pump.Resting? && RunOf(all).issued == RunOf(events).issued
    ensures forall id :: id in RunOf(all).queue <==>
              id in RunOf(events).queue && (id in keys ==> RunOf(events).queue[id].bytes == [])
    decreases |keys|
  {
    var s := RunOf(events);
    UploadsFit(events);
    if keys == [] {
      all := events;
    } else if keys[0] in s.queue {
      all := StartingDeals(events, keys[0], keys[1..]);
      var s' := RunOf(all);
      hide RunOf, Take;
      all := PumpDeals(all, keys[1..]);
      assert forall id :: id in keys <==> id == keys[0] || id in keys[1..];
    } else {
      all := PumpDeals(events, keys[1..]);
      assert forall id :: id in keys <==> id == keys[0] || id in keys[1..];
    }
  }

  /** Whatever came before: a pump woken to a list of keys, with every request answered and every removal going
      through, ends at rest with each of those reports delivered and off the queue, but for those of
      empty pages; the others queued stay so. */
  lemma WakeDelivers(events: seq<Event>, keys: seq<Id>) returns (all: seq<Event>)
    requires RunOf(events).pump.Resting?
    ensures Quiet(events + [Wake(keys)], all) && RunOf(all).pump.Resting?
    ensures forall id :: id in RunOf(all).queue <==>
              id in RunOf(events).queue && (id in keys ==> RunOf(events).queue[id].bytes == [])
    ensures forall id :: id in keys && id in RunOf(events).queue && RunOf(events).queue[id].bytes != [] ==>
              Completed(RunOf(all).uploads, id)
  {
    RunMore(events, Wake(keys));
    all := PumpDeals(events + [Wake(keys)], keys);
    RunKeepsInv(events);
    RunKeepsInv(all);
    hide RunOf, ServerFits, Take, Quiet;
  }

  // ---- the objects ---------------------------------------------------------------------

  class Server {
    var uploads: Uploads

    constructor ()
      ensures uploads == map[]
    {
      uploads := map[];
    }

    method Begin(id: Id, details: string, chunkCount: nat) returns (reply: Reply)
      modifies this
      ensures (uploads, reply) == Serve(old(uploads), Start(id, details, chunkCount))
      ensures chunkCount < 1 ==> reply == Refused(422) && uploads == old(uploads)
      ensures chunkCount >= 1 && id in old(uploads)
                && (old(uploads)[id].details != details || old(uploads)[id].chunkCount != chunkCount)
              ==> reply == Refused(409) && uploads == old(uploads)
      ensures chunkCount >= 1 && id in old(uploads) && old(uploads)[id].details == details && old(uploads)[id].chunkCount == chunkCount
              ==> reply == Receipt(old(uploads)[id].report) && uploads == old(uploads)
      ensures chunkCount >= 1 && id !in old(uploads)
              ==> reply == Receipt(None) && uploads == old(uploads)[id := Upload(details, chunkCount, map[], None)]
    {
      if chunkCount < 1 { return Refused(422); }
      if id !in uploads { uploads := uploads[id := Upload(details, chunkCount, map[], None)]; }
      var stored := uploads[id];
      if stored.details != details || stored.chunkCount != chunkCount { return Refused(409); }
      reply := Receipt(stored.report);
    }

    method PutChunk(id: Id, index: nat, data: Bytes) returns (reply: Reply)
      modifies this
      ensures (uploads, reply) == Serve(old(uploads), Put(id, index, data))
      ensures reply == Refused(413) <==> |data| > 65536
      ensures reply == Refused(404) <==> 0 < |data| <= 65536 && id !in old(uploads)
      ensures reply == Refused(400) <==> data == [] || (|data| <= 65536 && id in old(uploads) && index >= old(uploads)[id].chunkCount)
      ensures reply == Refused(409) <==>
                && 0 < |data| <= 65536 && id in old(uploads) && index < old(uploads)[id].chunkCount
                && if index in old(uploads)[id].chunks then old(uploads)[id].chunks[index] != data
                   else old(uploads)[id].report.Some?
      ensures reply.Refused? ==> reply.status in {400, 404, 409, 413} && uploads == old(uploads)
      ensures reply.Receipt? ==>
                && id in uploads && index in uploads[id].chunks && uploads[id].chunks[index] == data
                && reply.report == uploads[id].report
                && uploads == if index in old(uploads)[id].chunks then old(uploads)
                              else old(uploads)[id := old(uploads)[id].(chunks := old(uploads)[id].chunks[index := data])]
    {
      if |data| > CHUNK { return Refused(413); }
      if data == [] { return Refused(400); }
      if id !in uploads { return Refused(404); }
      var upload := uploads[id];
      if index >= upload.chunkCount { return Refused(400); }
      if index in upload.chunks {
        if upload.chunks[index] != data { return Refused(409); }
      } else if upload.report.Some? {
        return Refused(409);
      } else {
        uploads := uploads[id := upload.(chunks := upload.chunks[index := data])];
      }
      reply := Receipt(uploads[id].report);
    }

    method Finish(id: Id) returns (reply: Reply)
      modifies this
      ensures (uploads, reply) == Serve(old(uploads), Complete(id))
      ensures id !in old(uploads) ==> reply == Refused(404) && uploads == old(uploads)
      ensures id in old(uploads) && old(uploads)[id].report.Some? ==> reply == Receipt(old(uploads)[id].report) && uploads == old(uploads)
      ensures id in old(uploads) && old(uploads)[id].report.None? ==>
                if |old(uploads)[id].chunks| != old(uploads)[id].chunkCount then reply == Refused(409) && uploads == old(uploads)
                else reply.Receipt? && reply.report.Some? && uploads == old(uploads)[id := old(uploads)[id].(report := reply.report)]
    {
      if id !in uploads { return Refused(404); }
      var upload := uploads[id];
      if upload.report.Some? { return Receipt(upload.report); }
      if |upload.chunks| != upload.chunkCount { return Refused(409); }
      var report := NextReport(uploads);
      uploads := uploads[id := upload.(report := Some(report))];
      reply := Receipt(Some(report));
    }
  }

  class ReportUploadQueue {
    const server: Server

    constructor (server: Server)
      ensures this.server == server
    {
      this.server := server;
    }

    /** `upload`, over a network that may fail any request unless it is `reliable`. It ends well only
        with the report complete, and over a reliable network exactly when the page is not empty. */
    method UploadRecord(id: Id, record: Record, reliable: bool, ghost issued: map<Id, Record>) returns (done: bool)
      requires id in issued && issued[id] == record && ServerFits(server.uploads, issued)
      modifies server
      ensures ServerFits(server.uploads, issued)
      ensures done ==> Completed(server.uploads, id)
      ensures reliable ==> (done <==> record.bytes != [])
    {
      hide Part, ChunkCount, Has;
      CountIsPositive(record.bytes);
      var chunkCount := ChunkCount(record.bytes);
      var failed: bool := *;
      if failed && !reliable { return false; }
      ServeKeeps(server.uploads, Start(id, record.details, chunkCount), issued);
      var started := server.Begin(id, record.details, chunkCount);
      assert id in server.uploads && Fits(server.uploads[id], record);
      if started.Refused? { return false; }
      if started.report.Some? {
        CompletedNeedsBytes(server.uploads[id], record);
        return true;
      }
      var index := 0;
      while index < chunkCount
        invariant index <= chunkCount && chunkCount == ChunkCount(record.bytes)
        invariant ServerFits(server.uploads, issued) && id in server.uploads && Fits(server.uploads[id], record)
        invariant forall i :: 0 <= i < index ==> Has(server.uploads[id], record.bytes, i)
        invariant index > 0 ==> record.bytes != []
      {
        failed := *;
        if failed && !reliable { return false; }
        var part := Part(record.bytes, index);
        ServeKeeps(server.uploads, Put(id, index, part), issued);
        PutHolds(server.uploads, id, record, index);
        var received := server.PutChunk(id, index, part);
        if received.Refused? { return false; }
        index := index + 1;
      }
      failed := *;
      if failed && !reliable { return false; }
      CompleteHolds(server.uploads, id, record);
      ServeKeeps(server.uploads, Complete(id), issued);
      var completed := server.Finish(id);
      done := completed.Receipt? && completed.report.Some?;
    }
  }
}
