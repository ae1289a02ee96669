/** The receipt an extension keeps of an application being submitted
    (extension/background/submissions.js): one run at a time for a tab and frame, each a sequence of
    awaits on storage and the server, any of which a worker restart can be the last. */
module Submissions {
  import opened Options

  type Key = (int, int)
  type FillId = string
  type JobId = nat

  datatype Status = Watching | Confirmed | Recorded

  function Rank(s: Status): nat {
    match s
    case Watching => 0
    case Confirmed => 1
    case Recorded => 2
  }

  /** What storage.session holds under a key. `fields` are deleted once recorded. */
  datatype Attempt = Attempt(
    origin: string, fillId: Option<FillId>, status: Status, fields: Option<string>, result: Option<bool>)

  datatype Action = Get | Clear | Arm | Confirm | Retry | Other

  datatype Message = Message(action: Action, fillId: Option<FillId>, origin: string, fields: string)

  datatype Reply = Ok(state: Option<Attempt>) | Refused(error: string) | Failed

  // ---- one run, await by await ---------------------------------------------------------

  /** The await a run is at, with its `state` variable where it still matters. */
  datatype Run =
    | Loading
    | Removing
    | Arming(state: Attempt)
    | Confirming(state: Attempt)
    | Resolving(state: Attempt)
    | NamingFill(state: Attempt)
    | SavingUnresolved(state: Attempt)
    | Posting(state: Attempt)
    | Recording(state: Attempt)
    | Finished(reply: Reply)

  /** How an await ends. A storage call succeeds or throws; the server's reply may name a fill. */
  datatype Outcome = Success(fill: FillId) | NotOk | Thrown

  /** What the run does when it has read the receipt, up to its next await. */
  function Loaded(stored: Option<Attempt>, m: Message, origin: string): Run {
    var state := if stored.Some? && stored.value.origin != origin then None else stored;
    match m.action
    case Get => Finished(Ok(state))
    case Clear => if state.Some? && state.value.fillId == m.fillId then Removing else Finished(Ok(None))
    case Arm =>
      if m.origin != origin then Finished(Refused("Application origin changed"))
      else if state.Some? && m.fillId.Some? && state.value.fillId == m.fillId && state.value.status == Recorded
      then Finished(Ok(state))
      else Arming(Attempt(m.origin, m.fillId, Watching, Some(m.fields), None))
    case _ =>
      if state.None? || state.value.fillId != m.fillId then Finished(Refused("No matching submission attempt"))
      else if state.value.status == Recorded then Finished(Ok(state))
      else if m.action != Confirm && m.action != Retry then Finished(Refused("Unknown submission action"))
      else if m.action == Retry && state.value.status != Confirmed then Finished(Refused("Submission is not confirmed"))
      else Confirming(state.value.(status := Confirmed))
  }

  /** What storage holds after the await, and the run at its next one. */
  function Advance(stored: Option<Attempt>, run: Run, m: Message, origin: string, outcome: Outcome): (Option<Attempt>, Run) {
    match run
    case Loading => (stored, if outcome.Success? then Loaded(stored, m, origin) else Finished(Failed))
    case Removing => if outcome.Success? then (None, Finished(Ok(None))) else (stored, Finished(Failed))
    case Arming(state) => if outcome.Success? then (Some(state), Finished(Ok(Some(state)))) else (stored, Finished(Failed))
    case Confirming(state) =>
      if !outcome.Success? then (stored, Finished(Failed))
      else (Some(state), if state.fillId.None? then Resolving(state) else Posting(state))
    case Resolving(state) =>
      (stored, match outcome
               case Success(fill) => NamingFill(state.(fillId := Some(fill)))
               case NotOk => SavingUnresolved(state.(result := Some(false)))
               case Thrown => Recording(state.(result := Some(false))))
    case NamingFill(state) =>
      if outcome.Success? then (Some(state), Posting(state)) else (stored, Recording(state.(result := Some(false))))
    case SavingUnresolved(state) =>
      if outcome.Success? then (Some(state), Finished(Ok(Some(state)))) else (stored, Recording(state.(result := Some(false))))
    case Posting(state) =>
      (stored, if outcome.Success? then Recording(state.(result := Some(true), status := Recorded, fields := None))
               else Recording(state.(result := Some(false))))
    case Recording(state) => if outcome.Success? then (Some(state), Finished(Ok(Some(state)))) else (stored, Finished(Failed))
    case Finished(_) => (stored, run)
  }

  // ---- the worker: a promise chain for every key ---------------------------------------

  /** A message handled: it starts once the work it was chained to has settled. */
  datatype Job = Job(key: Key, message: Message, origin: string, after: Option<JobId>, run: Option<Run>, lost: bool) {
    predicate Settled() { lost || (run.Some? && run.value.Finished?) }
    predicate Running() { !lost && run.Some? && !run.value.Finished? }
    predicate Begun() { run.Some? }
  }

  /** `sent` is a ghost record: each POST of a submission, with the receipt stored as it left. */
  datatype Post = Post(key: Key, state: Attempt, stored: Option<Attempt>)

  datatype State = State(storage: map<Key, Attempt>, jobs: seq<Job>, queues: map<Key, JobId>, sent: seq<Post>)

  const BEGIN := State(map[], [], map[], [])

  function Stored(s: State, key: Key): Option<Attempt> { if key in s.storage then Some(s.storage[key]) else None }

  function Store(storage: map<Key, Attempt>, key: Key, state: Option<Attempt>): map<Key, Attempt> {
    if state.Some? then storage[key := state.value] else storage - {key}
  }

  datatype Event =
    | Handle(key: Key, message: Message, origin: string)
    | Begin(id: JobId)
    | Go(id: JobId, outcome: Outcome)
    | Tidy(id: JobId)
    | Restart

  function Lookup(queues: map<Key, JobId>, key: Key): Option<JobId> { if key in queues then Some(queues[key]) else None }

  /** queues.get(key) || Promise.resolve(), whatever its outcome. */
  predicate MayBegin(s: State, id: JobId) {
    && id < |s.jobs| && !s.jobs[id].lost && s.jobs[id].run.None?
    && var after := s.jobs[id].after;
       after.None? || (after.value < |s.jobs| && s.jobs[after.value].Settled())
  }

  function Went(s: State, id: JobId, outcome: Outcome): State
    requires id < |s.jobs| && s.jobs[id].Running()
  {
    var job := s.jobs[id];
    var (stored, run) := Advance(Stored(s, job.key), job.run.value, job.message, job.origin, outcome);
    State(Store(s.storage, job.key, stored), s.jobs[id := job.(run := Some(run))], s.queues,
          if run.Posting? then s.sent + [Post(job.key, run.state, stored)] else s.sent)
  }

  function Next(s: State, e: Event): State {
    match e
    case Handle(key, m, origin) =>
      s.(jobs := s.jobs + [Job(key, m, origin, Lookup(s.queues, key), None, false)], queues := s.queues[key := |s.jobs|])
    case Begin(id) => if MayBegin(s, id) then s.(jobs := s.jobs[id := s.jobs[id].(run := Some(Loading))]) else s
    case Go(id, outcome) => if id < |s.jobs| && s.jobs[id].Running() then Went(s, id, outcome) else s
    case Tidy(id) =>
      if id < |s.jobs| && s.jobs[id].Settled() && Lookup(s.queues, s.jobs[id].key) == Some(id)
      then s.(queues := s.queues - {s.jobs[id].key}) else s
    case Restart => s.(jobs := seq(|s.jobs|, i requires 0 <= i < |s.jobs| => s.jobs[i].(lost := true)), queues := map[])
  }

  // ---- the chain -----------------------------------------------------------------------

  predicate Before(s: State, a: JobId, b: JobId) { a < b < |s.jobs| && s.jobs[a].key == s.jobs[b].key }

  predicate LostTogether(s: State) { forall a, b :: 0 <= a < b < |s.jobs| && s.jobs[b].lost ==> s.jobs[a].lost }

  /** A job that has begun has only settled ones of its key before it. */
  predicate InTurn(s: State) {
    forall a, b :: 0 <= a < b < |s.jobs| && Before(s, a, b) && s.jobs[b].Begun() ==> s.jobs[a].Settled()
  }

  /** A job is chained to one of its key that is no earlier than any unsettled one. */
  predicate Linked(s: State) {
    forall a, b :: 0 <= a < b < |s.jobs| && Before(s, a, b) && !s.jobs[a].Settled() ==>
      s.jobs[b].after.Some? && a <= s.jobs[b].after.value && Before(s, s.jobs[b].after.value, b)
  }

  /** The queue's entry is of its key, and no earlier than any unsettled job of it. */
  predicate QueuesLast(s: State) {
    && (forall k :: k in s.queues ==> s.queues[k] < |s.jobs| && s.jobs[s.queues[k]].key == k)
    && (forall a :: 0 <= a < |s.jobs| && !s.jobs[a].Settled() ==>
          s.jobs[a].key in s.queues && a <= s.queues[s.jobs[a].key])
  }

  predicate Chained(s: State) { LostTogether(s) && InTurn(s) && Linked(s) && QueuesLast(s) }

  lemma SettledInOrder(s: State, b: JobId)
    requires LostTogether(s) && InTurn(s) && b < |s.jobs| && s.jobs[b].Settled()
    ensures forall a :: 0 <= a < b && s.jobs[a].key == s.jobs[b].key ==> s.jobs[a].Settled()
  {
    forall a | 0 <= a < b && s.jobs[a].key == s.jobs[b].key ensures s.jobs[a].Settled() { assert Before(s, a, b); }
  }

  lemma HandleKeepsLinked(s: State, key: Key, m: Message, origin: string)
    requires Chained(s)
    ensures Linked(Next(s, Handle(key, m, origin)))
  {
    var s' := Next(s, Handle(key, m, origin));
    forall a, b | 0 <= a < b < |s'.jobs| && Before(s', a, b) && !s'.jobs[a].Settled()
      ensures s'.jobs[b].after.Some? && a <= s'.jobs[b].after.value && Before(s', s'.jobs[b].after.value, b)
    {
      if b < |s.jobs| {
        assert s'.jobs[b] == s.jobs[b] && s'.jobs[a] == s.jobs[a];
        assert Before(s, a, b);
        assert Before(s, s.jobs[b].after.value, b);
      } else {
        assert s'.jobs[a] == s.jobs[a] && s.jobs[a].key == key;
      }
    }
  }

  lemma HandleKeepsChain(s: State, key: Key, m: Message, origin: string)
    requires Chained(s)
    ensures Chained(Next(s, Handle(key, m, origin)))
  {
    var s' := Next(s, Handle(key, m, origin));
    HandleKeepsLinked(s, key, m, origin);
    hide Linked;
    forall a, b | 0 <= a < b < |s'.jobs| && Before(s', a, b) && s'.jobs[b].Begun() ensures s'.jobs[a].Settled() {
      assert s'.jobs[b] == s.jobs[b] && s'.jobs[a] == s.jobs[a];
      assert Before(s, a, b);
    }
    assert s'.jobs[..|s.jobs|] == s.jobs;
  }

  lemma BeginKeepsChain(s: State, id: JobId)
    requires Chained(s) && MayBegin(s, id)
    ensures Chained(Next(s, Begin(id)))
  {
    var s' := Next(s, Begin(id));
    if s.jobs[id].after.Some? { SettledInOrder(s, s.jobs[id].after.value); }
    forall a | 0 <= a < id && s.jobs[a].key == s.jobs[id].key ensures s.jobs[a].Settled() { assert Before(s, a, id); }
    SameOrder(s, s');
  }

  lemma SameOrder(s: State, s': State)
    requires |s.jobs| == |s'.jobs| && forall i :: 0 <= i < |s.jobs| ==> s.jobs[i].key == s'.jobs[i].key
    ensures forall a, b :: Before(s, a, b) <==> Before(s', a, b)
  {
  }

  lemma GoKeepsChain(s: State, id: JobId, outcome: Outcome)
    requires Chained(s) && id < |s.jobs| && s.jobs[id].Running()
    ensures Chained(Next(s, Go(id, outcome)))
  {
    hide Advance, Loaded;
    SameOrder(s, Next(s, Go(id, outcome)));
  }

  lemma TidyKeepsChain(s: State, id: JobId)
    requires Chained(s)
    ensures Chained(Next(s, Tidy(id)))
  {
    SameOrder(s, Next(s, Tidy(id)));
    if id < |s.jobs| && s.jobs[id].Settled() && Lookup(s.queues, s.jobs[id].key) == Some(id) { SettledInOrder(s, id); }
  }

  lemma RestartKeepsChain(s: State)
    requires Chained(s)
    ensures Chained(Next(s, Restart))
  {
    SameOrder(s, Next(s, Restart));
  }

  lemma NextKeepsChain(s: State, e: Event)
    requires Chained(s)
    ensures Chained(Next(s, e))
  {
    hide Chained, Next, Advance, Loaded;
    match e {
      case Handle(key, m, origin) => HandleKeepsChain(s, key, m, origin);
      case Begin(id) => if MayBegin(s, id) { BeginKeepsChain(s, id); } else { Unmoved(s, e); }
      case Go(id, outcome) => if id < |s.jobs| && s.jobs[id].Running() { GoKeepsChain(s, id, outcome); } else { Unmoved(s, e); }
      case Tidy(id) => TidyKeepsChain(s, id);
      case Restart => RestartKeepsChain(s);
    }
  }

  lemma Unmoved(s: State, e: Event)
    requires e.Begin? ==> !MayBegin(s, e.id)
    requires e.Go? ==> !(e.id < |s.jobs| && s.jobs[e.id].Running())
    requires e.Begin? || e.Go?
    ensures Next(s, e) == s
  {
  }

  // ---- the receipt ---------------------------------------------------------------------

  /** Fields stay until recorded, and go then. */
  predicate KeepsFields(stored: Option<Attempt>) {
    stored.Some? ==> (stored.value.fields.Some? <==> stored.value.status != Recorded)
  }

  /** This attempt, recorded under this fill, is not armed again by the message. */
  predicate SparedBy(stored: Option<Attempt>, m: Message) {
    && stored.Some? && stored.value.status == Recorded && stored.value.origin == m.origin
    && m.fillId.Some? && stored.value.fillId == m.fillId
  }

  predicate Open(stored: Option<Attempt>, state: Attempt) {
    && stored.Some? && stored.value.status == Confirmed && stored.value.fields.Some?
    && state.origin == stored.value.origin && state.fields == stored.value.fields && state.status == Confirmed
  }

  /** What a run knows of the stored receipt at each await. */
  predicate Knows(stored: Option<Attempt>, m: Message, run: Run) {
    match run
    case Loading => true
    case Removing => stored.Some?
    case Arming(state) => state.status == Watching && state.fields.Some? && !SparedBy(stored, m)
    case Confirming(state) =>
      && stored.Some? && stored.value.status != Recorded && stored.value.fields.Some?
      && state == stored.value.(status := Confirmed)
    case Resolving(state) => Open(stored, state) && stored == Some(state) && state.fillId.None?
    case NamingFill(state) => Open(stored, state) && state.fillId.Some?
    case SavingUnresolved(state) => Open(stored, state)
    case Posting(state) => Open(stored, state) && stored == Some(state) && state.fillId.Some?
    case Recording(state) =>
      && stored.Some? && stored.value.status == Confirmed && stored.value.fields.Some? && state.origin == stored.value.origin
      && (Open(stored, state) || (state.status == Recorded && state.fields.None?))
    case Finished(_) => true
  }

  lemma AdvanceKnows(stored: Option<Attempt>, run: Run, m: Message, origin: string, outcome: Outcome)
    requires KeepsFields(stored) && Knows(stored, m, run)
    ensures var (stored', run') := Advance(stored, run, m, origin, outcome);
            KeepsFields(stored') && Knows(stored', m, run')
  {
  }

  /** The write that arms, and the removal that clears. */
  predicate Arms(s: State, e: Event, key: Key) {
    e.Go? && e.id < |s.jobs| && s.jobs[e.id].Running() && s.jobs[e.id].key == key
    && s.jobs[e.id].run.value.Arming? && e.outcome.Success?
  }

  predicate Clears(s: State, e: Event, key: Key) {
    e.Go? && e.id < |s.jobs| && s.jobs[e.id].Running() && s.jobs[e.id].key == key
    && s.jobs[e.id].run.value.Removing? && e.outcome.Success?
  }

  predicate RunsKnow(s: State) {
    forall id :: 0 <= id < |s.jobs| && s.jobs[id].Running() ==>
      Knows(Stored(s, s.jobs[id].key), s.jobs[id].message, s.jobs[id].run.value)
  }

  ghost predicate ReceiptsKeepFields(s: State) { forall key :: KeepsFields(Stored(s, key)) }

  predicate SentConfirmed(s: State) {
    forall i :: 0 <= i < |s.sent| ==>
      && s.sent[i].stored == Some(s.sent[i].state) && s.sent[i].state.status == Confirmed
      && s.sent[i].state.fields.Some? && s.sent[i].state.fillId.Some?
  }

  ghost predicate Inv(s: State) { Chained(s) && RunsKnow(s) && ReceiptsKeepFields(s) && SentConfirmed(s) }

  lemma WentStores(s: State, id: JobId, outcome: Outcome)
    requires id < |s.jobs| && s.jobs[id].Running()
    ensures var job := s.jobs[id];
            var (stored, run) := Advance(Stored(s, job.key), job.run.value, job.message, job.origin, outcome);
            && Stored(Went(s, id, outcome), job.key) == stored && Went(s, id, outcome).jobs[id].run == Some(run)
            && (forall other :: other != job.key ==> Stored(Went(s, id, outcome), other) == Stored(s, other))
            && (forall i :: 0 <= i < |s.jobs| && i != id ==> Went(s, id, outcome).jobs[i] == s.jobs[i])
            && |Went(s, id, outcome).jobs| == |s.jobs|
  {
    hide Advance;
  }

  lemma OnlyOneRuns(s: State, id: JobId, other: JobId)
    requires Chained(s) && id < |s.jobs| && s.jobs[id].Running() && other < |s.jobs| && s.jobs[other].key == s.jobs[id].key
    ensures other != id ==> !s.jobs[other].Running()
  {
    assert other < id ==> Before(s, other, id);
    assert id < other ==> Before(s, id, other);
  }

  lemma GoKeepsReceipts(s: State, id: JobId, outcome: Outcome)
    requires Inv(s) && id < |s.jobs| && s.jobs[id].Running()
    ensures RunsKnow(Went(s, id, outcome)) && ReceiptsKeepFields(Went(s, id, outcome)) && SentConfirmed(Went(s, id, outcome))
  {
    var job := s.jobs[id];
    var s' := Went(s, id, outcome);
    WentStores(s, id, outcome);
    AdvanceKnows(Stored(s, job.key), job.run.value, job.message, job.origin, outcome);
    hide Advance, Stored, KeepsFields, Went;
    forall i | 0 <= i < |s.jobs| && s.jobs[i].key == job.key ensures i != id ==> !s.jobs[i].Running() { OnlyOneRuns(s, id, i); }
    forall i | 0 <= i < |s'.jobs| && s'.jobs[i].Running()
      ensures Knows(Stored(s', s'.jobs[i].key), s'.jobs[i].message, s'.jobs[i].run.value)
    {
      assert i != id ==> s.jobs[i].key != job.key;
    }
    PostsConfirmed(s, id, outcome);
  }

  lemma PostsConfirmed(s: State, id: JobId, outcome: Outcome)
    requires SentConfirmed(s) && RunsKnow(s) && id < |s.jobs| && s.jobs[id].Running()
    requires KeepsFields(Stored(s, s.jobs[id].key))
    ensures SentConfirmed(Went(s, id, outcome))
  {
    var job := s.jobs[id];
    AdvanceKnows(Stored(s, job.key), job.run.value, job.message, job.origin, outcome);
    hide Advance, Stored;
  }

  /** Every step of every run, with the worker restarting anywhere, keeps it. */
  lemma NextKeepsInv(s: State, e: Event)
    requires Inv(s)
    ensures Inv(Next(s, e))
  {
    NextKeepsChain(s, e);
    if e.Go? {
      if e.id < |s.jobs| && s.jobs[e.id].Running() { GoKeepsReceipts(s, e.id, e.outcome); }
    } else {
      QuietKeepsReceipts(s, e);
    }
  }

  lemma QuietKeepsReceipts(s: State, e: Event)
    requires Inv(s) && !e.Go?
    ensures RunsKnow(Next(s, e)) && ReceiptsKeepFields(Next(s, e)) && SentConfirmed(Next(s, e))
  {
    hide Chained, Advance, Knows, KeepsFields, SentConfirmed, Stored;
    StorageOnlyGoes(s, e);
    LoadingKnows();
    var s' := Next(s, e);
    assert SentConfirmed(s') by { SamePosts(s, s'); }
    forall i | 0 <= i < |s'.jobs| && s'.jobs[i].Running()
      ensures Knows(Stored(s', s'.jobs[i].key), s'.jobs[i].message, s'.jobs[i].run.value)
    {
      assert i < |s.jobs|;
    }
  }

  lemma SamePosts(s: State, s': State)
    requires SentConfirmed(s) && s'.sent == s.sent
    ensures SentConfirmed(s')
  {
  }

  lemma LoadingKnows()
    ensures forall stored, m :: Knows(stored, m, Loading)
  {
  }

  lemma StorageOnlyGoes(s: State, e: Event)
    ensures !e.Go? ==> forall key :: Stored(Next(s, e), key) == Stored(s, key)
    ensures !e.Go? ==> Next(s, e).sent == s.sent
  {
  }

  // ---- what runs promise ---------------------------------------------------------------

  /** Between arms a receipt only moves forward, its fields and origin as they were until it is
      recorded; a recorded one stays as it is. It goes only by a clear. */
  lemma ReceiptMovesForward(s: State, e: Event, key: Key)
    requires Inv(s)
    ensures Arms(s, e, key) || Clears(s, e, key) || Stored(Next(s, e), key) == Stored(s, key) || Forward(Stored(s, key), Stored(Next(s, e), key))
  {
    if e.Go? && e.id < |s.jobs| && s.jobs[e.id].Running() {
      var job := s.jobs[e.id];
      WentStores(s, e.id, e.outcome);
      if job.key == key { AdvanceMovesForward(Stored(s, key), job.run.value, job.message, job.origin, e.outcome); }
    } else {
      StorageOnlyGoes(s, e);
    }
  }

  predicate Forward(before: Option<Attempt>, after: Option<Attempt>) {
    && before.Some? && after.Some? && before.value.status != Recorded
    && Rank(before.value.status) <= Rank(after.value.status) && after.value.origin == before.value.origin
    && (after.value.status != Recorded ==> after.value.fields == before.value.fields)
  }

  lemma AdvanceMovesForward(stored: Option<Attempt>, run: Run, m: Message, origin: string, outcome: Outcome)
    requires Knows(stored, m, run)
    ensures var after := Advance(stored, run, m, origin, outcome).0;
            (run.Arming? && outcome.Success?) || (run.Removing? && outcome.Success?) || after == stored || Forward(stored, after)
  {
  }

  function RunOf(events: seq<Event>): State {
    if events == [] then BEGIN else Next(RunOf(events[..|events| - 1]), events[|events| - 1])
  }

  lemma {:induction false} RunKeepsInv(events: seq<Event>)
    ensures Inv(RunOf(events))
  {
    hide Inv, Next;
    if events == [] {
      BeginInv();
    } else {
      RunKeepsInv(events[..|events| - 1]);
      NextKeepsInv(RunOf(events[..|events| - 1]), events[|events| - 1]);
    }
  }

  lemma BeginInv()
    ensures Inv(BEGIN)
  {
  }

  /** Whatever messages came and however the awaits of their runs and the restarts fell: runs of one key
      never overlap, and begin in the order their messages came. */
  lemma OneRunAtATime(events: seq<Event>, a: JobId, b: JobId)
    requires Before(RunOf(events), a, b)
    ensures var s := RunOf(events);
            && !(s.jobs[a].Running() && s.jobs[b].Running())
            && (s.jobs[b].Begun() ==> s.jobs[a].Settled())
  {
    RunKeepsInv(events);
  }

  /** What a job is chained to came before it, of its key. */
  predicate ChainedBack(s: State) {
    forall id :: 0 <= id < |s.jobs| && s.jobs[id].after.Some? ==> Before(s, s.jobs[id].after.value, id)
  }

  lemma NextChainsBack(s: State, e: Event)
    requires ChainedBack(s) && Chained(s)
    ensures ChainedBack(Next(s, e))
  {
    hide Advance, LostTogether, InTurn, Linked;
    var s' := Next(s, e);
    forall id | 0 <= id < |s'.jobs| && s'.jobs[id].after.Some? ensures Before(s', s'.jobs[id].after.value, id) {
      assert id < |s.jobs| ==> s'.jobs[id].after == s.jobs[id].after && s'.jobs[id].key == s.jobs[id].key;
      assert id < |s.jobs| ==> Before(s, s.jobs[id].after.value, id);
    }
  }

  lemma {:induction false} RunChainsBack(events: seq<Event>)
    ensures ChainedBack(RunOf(events))
  {
    hide Next, ChainedBack;
    if events == [] {
      NoneChained();
    } else {
      RunChainsBack(events[..|events| - 1]);
      RunKeepsInv(events[..|events| - 1]);
      NextChainsBack(RunOf(events[..|events| - 1]), events[|events| - 1]);
    }
  }

  lemma NoneChained()
    ensures ChainedBack(BEGIN)
  {
  }

  /** A message is taken up as soon as, and not before, every earlier one of its key has been dealt with. */
  lemma BeginsInTurn(events: seq<Event>, id: JobId)
    requires id < |RunOf(events).jobs| && !RunOf(events).jobs[id].lost && !RunOf(events).jobs[id].Begun()
    ensures var s := RunOf(events);
            MayBegin(s, id) <==> forall a :: 0 <= a < id && s.jobs[a].key == s.jobs[id].key ==> s.jobs[a].Settled()
  {
    RunKeepsInv(events);
    RunChainsBack(events);
    hide Next, RunsKnow, ReceiptsKeepFields, SentConfirmed;
    var s := RunOf(events);
    if MayBegin(s, id) {
      forall a | 0 <= a < id && s.jobs[a].key == s.jobs[id].key ensures s.jobs[a].Settled() {
        assert Before(s, a, id);
        ChainSettles(s, a, id);
      }
    }
  }

  lemma ChainSettles(s: State, a: JobId, id: JobId)
    requires Chained(s) && ChainedBack(s) && Before(s, a, id) && MayBegin(s, id)
    ensures s.jobs[a].Settled()
  {
    var after := s.jobs[id].after;
    assert Before(s, a, id) && !s.jobs[a].Settled() ==> after.Some? && a <= after.value;
    if after.Some? {
      assert Before(s, after.value, id);
      assert a < after.value ==> Before(s, a, after.value);
      SettledInOrder(s, after.value);
    }
  }

  /** A submission is posted only with a confirmed receipt stored, the fields it was armed with in it. */
  lemma PostsFollowConfirmation(events: seq<Event>, i: nat)
    requires i < |RunOf(events).sent|
    ensures var post := RunOf(events).sent[i];
            && post.stored == Some(post.state) && post.state.status == Confirmed
            && post.state.fields.Some? && post.state.fillId.Some?
  {
    RunKeepsInv(events);
  }

  /** An arm that writes anew: its message does not name the recorded attempt's fill, or comes from
      another origin. */
  predicate Rearms(events: seq<Event>, k: nat, key: Key, recorded: Attempt)
    requires k < |events|
  {
    && Arms(RunOf(events[..k]), events[k], key)
    && !SparedBy(Some(recorded), RunOf(events[..k]).jobs[events[k].id].message)
  }

  predicate Cleared(events: seq<Event>, k: nat, key: Key)
    requires k < |events|
  {
    Clears(RunOf(events[..k]), events[k], key)
  }

  /** A recorded receipt is still there, unless it was cleared or armed anew since. */
  lemma {:induction false} RecordedStays(events: seq<Event>, i: nat, j: nat, key: Key)
    requires i <= j <= |events|
    requires Stored(RunOf(events[..i]), key).Some? && Stored(RunOf(events[..i]), key).value.status == Recorded
    requires forall k :: i <= k < j ==> !Cleared(events, k, key) && !Rearms(events, k, key, Stored(RunOf(events[..i]), key).value)
    ensures Stored(RunOf(events[..j]), key) == Stored(RunOf(events[..i]), key)
  {
    hide Inv, Next;
    if i < j {
      RecordedStays(events, i, j - 1, key);
      var before := RunOf(events[..j - 1]);
      RunKeepsInv(events[..j - 1]);
      assert events[..j][..j - 1] == events[..j - 1];
      ReceiptMovesForward(before, events[j - 1], key);
      assert !Cleared(events, j - 1, key) && !Rearms(events, j - 1, key, Stored(RunOf(events[..i]), key).value);
      if Arms(before, events[j - 1], key) { ArmingSpares(before, events[j - 1], key); }
    }
  }

  lemma ArmingSpares(s: State, e: Event, key: Key)
    requires Inv(s) && Arms(s, e, key)
    ensures !SparedBy(Stored(s, key), s.jobs[e.id].message)
  {
  }

  /** A step that posts for a key finds its receipt not recorded. */
  lemma PostingIsOpen(s: State, e: Event)
    requires Inv(s) && |Next(s, e).sent| > |s.sent|
    ensures var post := Next(s, e).sent[|s.sent|];
            Stored(s, post.key).Some? && Stored(s, post.key).value.status != Recorded
  {
    hide Chained, SentConfirmed, KeepsFields, Stored;
    StorageOnlyGoes(s, e);
    assert e.Go? && e.id < |s.jobs| && s.jobs[e.id].Running();
    var job := s.jobs[e.id];
    AdvanceToPosting(Stored(s, job.key), job.run.value, job.message, job.origin, e.outcome);
  }

  lemma AdvanceToPosting(stored: Option<Attempt>, run: Run, m: Message, origin: string, outcome: Outcome)
    requires Knows(stored, m, run) && Advance(stored, run, m, origin, outcome).1.Posting?
    ensures stored.Some? && stored.value.status != Recorded
  {
  }

  /** Once recorded, an attempt sends nothing more until it is cleared or armed anew. */
  lemma RecordedSendsNothing(events: seq<Event>, i: nat, j: nat, key: Key)
    requires i <= j < |events|
    requires Stored(RunOf(events[..i]), key).Some? && Stored(RunOf(events[..i]), key).value.status == Recorded
    requires |RunOf(events[..j + 1]).sent| > |RunOf(events[..j]).sent|
    requires RunOf(events[..j + 1]).sent[|RunOf(events[..j]).sent|].key == key
    ensures exists k :: i <= k < j && (Cleared(events, k, key) || Rearms(events, k, key, Stored(RunOf(events[..i]), key).value))
  {
    hide Inv, Next;
    assert events[..j + 1][..j] == events[..j];
    RunKeepsInv(events[..j]);
    PostingIsOpen(RunOf(events[..j]), events[j]);
    if forall k :: i <= k < j ==> !Cleared(events, k, key) && !Rearms(events, k, key, Stored(RunOf(events[..i]), key).value) {
      RecordedStays(events, i, j, key);
    }
  }

  // ---- what it takes to be recorded ----------------------------------------------------

  /** The job had posted this receipt and, at the k-th event, was answered that the server took it. */
  ghost predicate Took(events: seq<Event>, k: nat, id: JobId, key: Key, posted: Attempt)
    requires k < |events|
  {
    var s := RunOf(events[..k]);
    && events[k].Go? && events[k].id == id && events[k].outcome.Success?
    && id < |s.jobs| && s.jobs[id].Running() && s.jobs[id].key == key && s.jobs[id].run == Some(Posting(posted))
    && exists i :: 0 <= i < |s.sent| && s.sent[i] == Post(key, posted, Some(posted))
  }

  /** A recorded receipt is one that was posted, less its fields. */
  predicate RecordOf(recorded: Attempt, posted: Attempt) {
    recorded == Attempt(posted.origin, posted.fillId, Recorded, None, Some(true))
  }

  ghost predicate TakenBefore(events: seq<Event>, n: nat, id: JobId, key: Key, recorded: Attempt)
    requires n <= |events|
  {
    exists k, posted :: 0 <= k < n && Took(events, k, id, key, posted) && RecordOf(recorded, posted)
  }

  /** A run that waits at its POST has sent it. */
  ghost predicate PostsAreSent(s: State) {
    forall id :: 0 <= id < |s.jobs| && s.jobs[id].Running() && s.jobs[id].run.value.Posting? ==>
      exists i :: 0 <= i < |s.sent| && s.sent[i].key == s.jobs[id].key && s.sent[i].state == s.jobs[id].run.value.state
  }

  lemma NextSends(s: State, e: Event)
    requires PostsAreSent(s)
    ensures PostsAreSent(Next(s, e))
  {
    hide Advance, Store, Stored;
    var s' := Next(s, e);
    assert forall i :: 0 <= i < |s.sent| ==> i < |s'.sent| && s'.sent[i] == s.sent[i];
    forall id | 0 <= id < |s'.jobs| && s'.jobs[id].Running() && s'.jobs[id].run.value.Posting?
      ensures exists i :: 0 <= i < |s'.sent| && s'.sent[i].key == s'.jobs[id].key && s'.sent[i].state == s'.jobs[id].run.value.state
    {
      if e.Go? && e.id == id && s.jobs[id].Running() {
        assert s'.sent[|s.sent|].key == s'.jobs[id].key;
      } else {
        assert id < |s.jobs| && s.jobs[id] == s'.jobs[id];
      }
    }
  }

  lemma {:induction false} RunSends(events: seq<Event>)
    ensures PostsAreSent(RunOf(events))
  {
    hide Next, PostsAreSent;
    if events == [] {
      NothingToSend();
    } else {
      RunSends(events[..|events| - 1]);
      NextSends(RunOf(events[..|events| - 1]), events[|events| - 1]);
    }
  }

  lemma NothingToSend()
    ensures PostsAreSent(BEGIN)
  {
  }

  lemma PostedIsSent(s: State, id: JobId)
    requires Inv(s) && PostsAreSent(s) && id < |s.jobs| && s.jobs[id].Running() && s.jobs[id].run.value.Posting?
    ensures exists i :: 0 <= i < |s.sent| && s.sent[i] == Post(s.jobs[id].key, s.jobs[id].run.value.state, Some(s.jobs[id].run.value.state))
  {
    hide Chained, RunsKnow, ReceiptsKeepFields;
    var i :| 0 <= i < |s.sent| && s.sent[i].key == s.jobs[id].key && s.sent[i].state == s.jobs[id].run.value.state;
    assert s.sent[i] == Post(s.sent[i].key, s.sent[i].state, s.sent[i].stored);
  }

  /** Only the server's taking it makes a run record its receipt. */
  lemma AdvanceRecords(stored: Option<Attempt>, run: Run, m: Message, origin: string, outcome: Outcome)
    requires Knows(stored, m, run)
    ensures var run' := Advance(stored, run, m, origin, outcome).1;
            run'.Recording? && run'.state.status == Recorded ==>
              && run.Posting? && outcome.Success? && RecordOf(run'.state, run.state)
    ensures var stored' := Advance(stored, run, m, origin, outcome).0;
            stored'.Some? && stored'.value.status == Recorded ==>
              stored' == stored || (run.Recording? && outcome.Success? && stored' == Some(run.state))
  {
  }

  /** A run about to record is one whose POST was taken. */
  lemma {:induction false} RecordingWasTaken(events: seq<Event>, n: nat, id: JobId)
    requires n <= |events| && id < |RunOf(events[..n]).jobs|
    requires var job := RunOf(events[..n]).jobs[id];
             job.Running() && job.run.value.Recording? && job.run.value.state.status == Recorded
    ensures var job := RunOf(events[..n]).jobs[id]; TakenBefore(events, n, id, job.key, job.run.value.state)
  {
    assert n > 0;
    assert events[..n][..n - 1] == events[..n - 1];
    var s, e := RunOf(events[..n - 1]), events[n - 1];
    RunKeepsInv(events[..n - 1]);
    RunSends(events[..n - 1]);
    hide Inv, PostsAreSent, Advance, Knows, Store, Stored, RecordOf;
    if e.Go? && e.id == id && id < |s.jobs| && s.jobs[id].Running() {
      var job := s.jobs[id];
      KnowsNow(s, id);
      AdvanceRecords(Stored(s, job.key), job.run.value, job.message, job.origin, e.outcome);
      PostedIsSent(s, id);
      assert Took(events, n - 1, id, job.key, job.run.value.state);
    } else {
      OthersStand(s, e, id);
      RecordingWasTaken(events, n - 1, id);
    }
  }

  lemma KnowsNow(s: State, id: JobId)
    requires Inv(s) && id < |s.jobs| && s.jobs[id].Running()
    ensures Knows(Stored(s, s.jobs[id].key), s.jobs[id].message, s.jobs[id].run.value)
  {
  }

  /** A run past its first await moves by its own awaits only. */
  lemma OthersStand(s: State, e: Event, id: JobId)
    requires id < |Next(s, e).jobs| && Next(s, e).jobs[id].Running() && !Next(s, e).jobs[id].run.value.Loading?
    requires !(e.Go? && e.id == id && id < |s.jobs| && s.jobs[id].Running())
    ensures id < |s.jobs| && s.jobs[id] == Next(s, e).jobs[id]
  {
    hide Advance;
  }

  /** Over every run of messages, awaits, failures and restarts: a receipt is recorded only by a job that posted
      it and was answered that the server took it. What is recorded is what was posted, with a good
      result and no fields. */
  lemma {:induction false} RecordedWasTaken(events: seq<Event>, key: Key)
    requires Stored(RunOf(events), key).Some? && Stored(RunOf(events), key).value.status == Recorded
    ensures exists id :: TakenBefore(events, |events|, id, key, Stored(RunOf(events), key).value)
  {
    assert events != [];
    var n := |events| - 1;
    var s, e := RunOf(events[..n]), events[n];
    RunKeepsInv(events[..n]);
    hide Inv, Advance, Knows, Store, RecordOf, Took;
    if e.Go? && e.id < |s.jobs| && s.jobs[e.id].Running() {
      var job := s.jobs[e.id];
      WentStores(s, e.id, e.outcome);
      KnowsNow(s, e.id);
      AdvanceRecords(Stored(s, job.key), job.run.value, job.message, job.origin, e.outcome);
      if Stored(RunOf(events), key) != Stored(s, key) {
        RecordingWasTaken(events, n, e.id);
        TakenStill(events, n, |events|, e.id, key, Stored(RunOf(events), key).value);
      }
    } else {
      StorageOnlyGoes(s, e);
    }
    if Stored(RunOf(events), key) == Stored(s, key) {
      RecordedWasTaken(events[..n], key);
      var id :| TakenBefore(events[..n], n, id, key, Stored(s, key).value);
      TakenLonger(events, n, id, key, Stored(s, key).value);
    }
  }

  lemma TakenStill(events: seq<Event>, n: nat, m: nat, id: JobId, key: Key, recorded: Attempt)
    requires n <= m <= |events| && TakenBefore(events, n, id, key, recorded)
    ensures TakenBefore(events, m, id, key, recorded)
  {
    hide Took, RecordOf;
  }

  lemma TakenLonger(events: seq<Event>, n: nat, id: JobId, key: Key, recorded: Attempt)
    requires n <= |events| && TakenBefore(events[..n], n, id, key, recorded)
    ensures TakenBefore(events, |events|, id, key, recorded)
  {
    hide RunOf, RecordOf;
    var k, posted :| 0 <= k < n && Took(events[..n], k, id, key, posted) && RecordOf(recorded, posted);
    assert events[..n][..k] == events[..k];
    assert Took(events, k, id, key, posted);
  }

  /** A POST that is refused or lost leaves the receipt confirmed with its fields, the result not good, to be
      retried; that is what its run stores next. */
  lemma FailedPostKeepsFields(s: State, id: JobId, outcome: Outcome)
    requires Inv(s) && id < |s.jobs| && s.jobs[id].Running() && s.jobs[id].run.value.Posting? && !outcome.Success?
    ensures var key, posted := s.jobs[id].key, s.jobs[id].run.value.state;
            var s' := Went(s, id, outcome);
            && Stored(s', key) == Stored(s, key) == Some(posted) && posted.status == Confirmed && posted.fields.Some?
            && s'.jobs[id].run == Some(Recording(Attempt(posted.origin, posted.fillId, Confirmed, posted.fields, Some(false))))
  {
    WentStores(s, id, outcome);
    KnowsNow(s, id);
  }

  // ---- the object ----------------------------------------------------------------------

  function Left(run: Run): nat {
    match run
    case Loading => 6
    case Confirming(_) => 5
    case Resolving(_) => 4
    case NamingFill(_) => 3
    case SavingUnresolved(_) => 3
    case Posting(_) => 2
    case Recording(_) => 1
    case Removing => 1
    case Arming(_) => 1
    case Finished(_) => 0
  }

  /** How the awaits of an undisturbed run end: storage works, the server answers as given. */
  function Answer(run: Run, resolve: Outcome, submit: Outcome): Outcome {
    if run.Resolving? then resolve else if run.Posting? then submit else Success("")
  }

  /** A run carried through all its awaits. */
  function Through(stored: Option<Attempt>, run: Run, m: Message, origin: string, resolve: Outcome, submit: Outcome)
    : (Option<Attempt>, Reply)
    decreases Left(run)
  {
    if run.Finished? then (stored, run.reply)
    else
      var (stored', run') := Advance(stored, run, m, origin, Answer(run, resolve, submit));
      Through(stored', run', m, origin, resolve, submit)
  }

  function Submitted(state: Attempt, submit: Outcome): Attempt {
    if submit.Success? then state.(result := Some(true), status := Recorded, fields := None)
    else state.(result := Some(false))
  }

  /** The receipt a confirmed attempt ends with. */
  function EndOf(state: Attempt, resolve: Outcome, submit: Outcome): Attempt {
    if state.fillId.Some? then Submitted(state, submit)
    else if resolve.Success? then Submitted(state.(fillId := Some(resolve.fill)), submit)
    else state.(result := Some(false))
  }

  lemma PostedEnds(state: Attempt, m: Message, origin: string, resolve: Outcome, submit: Outcome)
    ensures var end := Submitted(state, submit);
            Through(Some(state), Posting(state), m, origin, resolve, submit) == (Some(end), Ok(Some(end)))
  {
    var end := Submitted(state, submit);
    assert Through(Some(state), Recording(end), m, origin, resolve, submit) == (Some(end), Ok(Some(end)));
  }

  lemma ConfirmedEnds(state: Attempt, m: Message, origin: string, resolve: Outcome, submit: Outcome)
    ensures var end := EndOf(state, resolve, submit);
            Through(Some(state), if state.fillId.None? then Resolving(state) else Posting(state), m, origin, resolve, submit)
            == (Some(end), Ok(Some(end)))
  {
    var end := EndOf(state, resolve, submit);
    if state.fillId.Some? {
      PostedEnds(state, m, origin, resolve, submit);
    } else if resolve.Success? {
      var named := state.(fillId := Some(resolve.fill));
      PostedEnds(named, m, origin, resolve, submit);
      assert Through(Some(state), NamingFill(named), m, origin, resolve, submit)
          == Through(Some(named), Posting(named), m, origin, resolve, submit);
    } else if resolve.NotOk? {
      assert Through(Some(state), SavingUnresolved(end), m, origin, resolve, submit) == (Some(end), Ok(Some(end)));
    } else {
      assert Through(Some(state), Recording(end), m, origin, resolve, submit) == (Some(end), Ok(Some(end)));
    }
  }

  /** How a run that has read the receipt ends. */
  function Ended(stored: Option<Attempt>, run: Run, resolve: Outcome, submit: Outcome): (Option<Attempt>, Reply) {
    match run
    case Finished(reply) => (stored, reply)
    case Removing => (None, Ok(None))
    case Arming(state) => (Some(state), Ok(Some(state)))
    case Confirming(state) => (Some(EndOf(state, resolve, submit)), Ok(Some(EndOf(state, resolve, submit))))
    case _ => (stored, Failed)
  }

  lemma LoadedEnds(stored: Option<Attempt>, m: Message, origin: string, resolve: Outcome, submit: Outcome)
    ensures Through(stored, Loading, m, origin, resolve, submit) == Ended(stored, Loaded(stored, m, origin), resolve, submit)
  {
    var run := Loaded(stored, m, origin);
    assert Through(stored, Loading, m, origin, resolve, submit) == Through(stored, run, m, origin, resolve, submit);
    if run.Confirming? { ConfirmedEnds(run.state, m, origin, resolve, submit); }
  }

  /** The fill a submission is posted under: the one named, else the one the server finds. */
  function FillOf(named: Option<FillId>, resolve: Outcome): Option<FillId> {
    match named
    case Some(_) => named
    case None => match resolve case Success(fill) => Some(fill) case _ => None
  }

  lemma EndIs(state: Attempt, resolve: Outcome, submit: Outcome)
    ensures EndOf(state, resolve, submit)
         == if FillOf(state.fillId, resolve).Some? && submit.Success?
            then Attempt(state.origin, FillOf(state.fillId, resolve), Recorded, None, Some(true))
            else Attempt(state.origin, FillOf(state.fillId, resolve), state.status, state.fields, Some(false))
  {
  }

  /** What a message does to the receipt it finds, and what it is answered: a confirm, or a retry of what is
      confirmed, leaves it recorded exactly when there is a fill to submit it under and the server took
      it, and otherwise confirmed, its fields kept. */
  predicate Handled(before: map<Key, Attempt>, after: map<Key, Attempt>, key: Key, m: Message, origin: string,
                    resolve: Outcome, submit: Outcome, reply: Reply) {
    var seen := if key in before && before[key].origin == origin then Some(before[key]) else None;
    match m.action
    case Get => after == before && reply == Ok(seen)
    case Clear =>
      && reply == Ok(None)
      && after == if seen.Some? && seen.value.fillId == m.fillId then before - {key} else before
    case Arm =>
      if m.origin != origin then after == before && reply == Refused("Application origin changed")
      else if seen.Some? && m.fillId.Some? && seen.value.fillId == m.fillId && seen.value.status == Recorded
      then after == before && reply == Ok(seen)
      else
        var armed := Attempt(origin, m.fillId, Watching, Some(m.fields), None);
        after == before[key := armed] && reply == Ok(Some(armed))
    case _ =>
      if seen.None? || seen.value.fillId != m.fillId
      then after == before && reply == Refused("No matching submission attempt")
      else if seen.value.status == Recorded then after == before && reply == Ok(seen)
      else if m.action == Other then after == before && reply == Refused("Unknown submission action")
      else if m.action == Retry && seen.value.status == Watching
      then after == before && reply == Refused("Submission is not confirmed")
      else
        var fill := FillOf(m.fillId, resolve);
        var end := if fill.Some? && submit.Success? then Attempt(origin, fill, Recorded, None, Some(true))
                   else Attempt(origin, fill, Confirmed, seen.value.fields, Some(false));
        after == before[key := end] && reply == Ok(Some(end))
  }

  lemma HandledIsTheRun(before: map<Key, Attempt>, after: map<Key, Attempt>, key: Key, m: Message, origin: string,
                        resolve: Outcome, submit: Outcome, reply: Reply)
    requires Handled(before, after, key, m, origin, resolve, submit, reply)
    ensures forall other :: other != key ==> (other in after <==> other in before) && (other in after ==> after[other] == before[other])
    ensures var stored := if key in before then Some(before[key]) else None;
            (if key in after then Some(after[key]) else None, reply) == Through(stored, Loading, m, origin, resolve, submit)
  {
    var stored := if key in before then Some(before[key]) else None;
    LoadedEnds(stored, m, origin, resolve, submit);
    var run := Loaded(stored, m, origin);
    if run.Confirming? { EndIs(run.state, resolve, submit); }
    hide Through, Advance, EndOf, FillOf;
  }

  class SubmissionStore {
    var storage: map<Key, Attempt>

    constructor ()
      ensures storage == map[]
    {
      storage := map[];
    }

    method Save(key: Key, state: Attempt)
      modifies this
      ensures storage == old(storage)[key := state]
    {
      storage := storage[key := state];
    }

    /** The tail of `run`: name the fill if it has no name, then post. */
    method Record(key: Key, confirmed: Attempt, resolve: Outcome, submit: Outcome) returns (state: Attempt)
      modifies this
      ensures state == EndOf(confirmed, resolve, submit) && storage == old(storage)[key := state]
    {
      state := confirmed;
      var response := resolve;
      if state.fillId.None? {
        if resolve.NotOk? {
          state := state.(result := Some(false));
          Save(key, state);
          return;
        }
        if resolve.Success? {
          state := state.(fillId := Some(resolve.fill));
          Save(key, state);
          response := submit;
        }
      } else {
        response := submit;
      }
      state := state.(result := Some(response.Success?));
      if response.Success? { state := state.(status := Recorded, fields := None); }
      Save(key, state);
    }

    /** `run`: the server answers `resolve` to user/apply/resolve and `submit` to the submission. */
    method Run(key: Key, m: Message, origin: string, resolve: Outcome, submit: Outcome) returns (reply: Reply)
      modifies this
      ensures Handled(old(storage), storage, key, m, origin, resolve, submit, reply)
    {
      hide EndOf, FillOf;
      var state := if key in storage then Some(storage[key]) else None;
      if state.Some? && state.value.origin != origin { state := None; }
      if m.action == Get { return Ok(state); }
      if m.action == Clear {
        if state.Some? && state.value.fillId == m.fillId { storage := storage - {key}; }
        return Ok(None);
      }
      if m.action == Arm {
        if m.origin != origin { return Refused("Application origin changed"); }
        if state.Some? && m.fillId.Some? && state.value.fillId == m.fillId && state.value.status == Recorded {
          return Ok(state);
        }
        state := Some(Attempt(m.origin, m.fillId, Watching, Some(m.fields), None));
        Save(key, state.value);
        return Ok(state);
      }
      if state.None? || state.value.fillId != m.fillId { return Refused("No matching submission attempt"); }
      if state.value.status == Recorded { return Ok(state); }
      if m.action != Confirm && m.action != Retry { return Refused("Unknown submission action"); }
      if m.action == Retry && state.value.status != Confirmed { return Refused("Submission is not confirmed"); }
      var now := state.value.(status := Confirmed);
      Save(key, now);
      EndIs(now, resolve, submit);
      var end := Record(key, now, resolve, submit);
      reply := Ok(Some(end));
    }

    /** `handle` of a message with no other of its key under way: what it does and answers, which is what the
        awaits of its run, one by one, come to. */
    method Handle(key: Key, m: Message, origin: string, resolve: Outcome, submit: Outcome) returns (reply: Reply)
      modifies this
      ensures Handled(old(storage), storage, key, m, origin, resolve, submit, reply)
      ensures forall other :: other != key ==> (other in storage <==> other in old(storage))
                                               && (other in storage ==> storage[other] == old(storage)[other])
      ensures var stored := if key in old(storage) then Some(old(storage)[key]) else None;
              (if key in storage then Some(storage[key]) else None, reply)
              == Through(stored, Loading, m, origin, resolve, submit)
    {
      reply := Run(key, m, origin, resolve, submit);
      HandledIsTheRun(old(storage), storage, key, m, origin, resolve, submit, reply);
    }
  }
}
