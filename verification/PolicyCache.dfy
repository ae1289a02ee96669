/** The store that answers with a policy (extension/background/policy.js): one refresh of a key at a
    time, and a cached response reused only inside the max_age the server gave it. */
module PolicyCache {
  import opened Options
  import opened RecipeValidation
  import opened PolicyResponse

  /** The adapter; `${prefix}:${schema}:${adapter}` is one key for each. */
  type Key = string
  type JobId = nat

  /** A response as received, and when. */
  datatype Entry = Entry(fetchedAt: int, raw: Json)

  datatype Response = Received(raw: Json) | Failed(reason: string)

  datatype Result = Fresh(config: Policy) | Cached(config: Policy, reason: string) | Unavailable(reason: string) | Rejected

  // ---- one refresh ---------------------------------------------------------------------

  /** `cached`: the stored response while it is still inside the server's max_age. */
  function Usable(entry: Option<Entry>, key: Key, now: int): Option<Policy> {
    if entry.None? then None
    else
      var config := ValidPolicy(entry.value.raw, key);
      if config.None? || config.value.maxAge <= 0 then None
      else if entry.value.fetchedAt > now then None
      else if now - entry.value.fetchedAt > config.value.maxAge * 1000 then None
      else config
  }

  /** The await a refresh is at. `began` is the clock when it read the cache. */
  datatype Refresh =
    | Reading
    | Fetching(began: int, cached: Option<Policy>)
    | Keeping(began: int, cached: Option<Policy>, entry: Entry, own: Policy)
    | Settled(result: Result)

  function Answered(key: Key, began: int, cached: Option<Policy>, response: Response, now: int): Refresh {
    var own := if response.Received? then ValidPolicy(response.raw, key) else None;
    if own.Some? then Keeping(began, cached, Entry(now, response.raw), own.value)
    else
      var reason := if response.Received? then "INVALID_RESPONSE" else response.reason;
      Settled(if cached.Some? then Cached(cached.value, reason) else Unavailable(reason))
  }

  /** What is stored once a valid response has been dealt with. */
  function Kept(own: Policy, entry: Entry): Option<Entry> { if own.maxAge > 0 then Some(entry) else None }

  // ---- the worker ----------------------------------------------------------------------

  datatype Job = Job(key: Key, refresh: Refresh, lost: bool) {
    predicate Live() { !lost && !refresh.Settled? }
  }

  /** `latest` is a ghost record: under each key, the last valid response whose refresh completed. */
  datatype State = State(storage: map<Key, Entry>, jobs: seq<Job>, inflight: map<Key, JobId>, latest: map<Key, Entry>)

  const BEGIN := State(map[], [], map[], map[])

  /** A storage call may throw; the clock says whatever it says. */
  datatype Event =
    | Resolve(adapter: string)
    | Read(id: JobId, ok: bool, now: int)
    | Answer(id: JobId, response: Response, now: int)
    | Keep(id: JobId, ok: bool)
    | Tidy(id: JobId)
    | Restart

  function Stored(s: State, key: Key): Option<Entry> { if key in s.storage then Some(s.storage[key]) else None }

  function Latest(s: State, key: Key): Option<Entry> { if key in s.latest then Some(s.latest[key]) else None }

  function Put(storage: map<Key, Entry>, key: Key, entry: Option<Entry>): map<Key, Entry> {
    if entry.Some? then storage[key := entry.value] else storage - {key}
  }

  function With(s: State, id: JobId, refresh: Refresh): State
    requires id < |s.jobs|
  {
    s.(jobs := s.jobs[id := s.jobs[id].(refresh := refresh)])
  }

  predicate At(s: State, id: JobId) { id < |s.jobs| && s.jobs[id].Live() }

  function Next(s: State, e: Event): State {
    match e
    case Resolve(adapter) =>
      if !AdapterId(adapter) || adapter in s.inflight then s
      else s.(jobs := s.jobs + [Job(adapter, Reading, false)], inflight := s.inflight[adapter := |s.jobs|])
    case Read(id, ok, now) =>
      if !At(s, id) || !s.jobs[id].refresh.Reading? then s
      else With(s, id, if ok then Fetching(now, Usable(Stored(s, s.jobs[id].key), s.jobs[id].key, now)) else Settled(Rejected))
    case Answer(id, response, now) =>
      if !At(s, id) || !s.jobs[id].refresh.Fetching? then s
      else With(s, id, Answered(s.jobs[id].key, s.jobs[id].refresh.began, s.jobs[id].refresh.cached, response, now))
    case Keep(id, ok) =>
      if !At(s, id) || !s.jobs[id].refresh.Keeping? then s
      else if !ok then With(s, id, Settled(Rejected))
      else
        var key, refresh := s.jobs[id].key, s.jobs[id].refresh;
        With(s, id, Settled(Fresh(refresh.own)))
          .(storage := Put(s.storage, key, Kept(refresh.own, refresh.entry)), latest := s.latest[key := refresh.entry])
    case Tidy(id) =>
      if id < |s.jobs| && s.jobs[id].refresh.Settled? && s.jobs[id].key in s.inflight && s.inflight[s.jobs[id].key] == id
      then s.(inflight := s.inflight - {s.jobs[id].key}) else s
    case Restart => s.(jobs := seq(|s.jobs|, i requires 0 <= i < |s.jobs| => s.jobs[i].(lost := true)), inflight := map[])
  }

  // ---- the invariant -------------------------------------------------------------------

  /** The cache holds the last valid response, unless the server gave it no age to be kept for. */
  predicate HoldsLatest(stored: Option<Entry>, latest: Option<Entry>, key: Key) {
    if latest.None? then stored.None?
    else
      var config := ValidPolicy(latest.value.raw, key);
      config.Some? && stored == Kept(config.value, latest.value)
  }

  /** The response, if it was given an age at all, is not from the future and inside its own max_age. */
  predicate InAge(entry: Entry, key: Key, now: int) {
    var config := ValidPolicy(entry.raw, key);
    config.Some? && config.value.maxAge > 0 && entry.fetchedAt <= now <= entry.fetchedAt + config.value.maxAge * 1000
  }

  /** A configuration is in hand exactly if the last valid response was in its age at `began`, and is its. */
  predicate InHand(cached: Option<Policy>, latest: Option<Entry>, key: Key, began: int) {
    && (cached.Some? <==> latest.Some? && InAge(latest.value, key, began))
    && (cached.Some? ==> ValidPolicy(latest.value.raw, key) == cached)
  }

  predicate Sound(refresh: Refresh, latest: Option<Entry>, key: Key) {
    match refresh
    case Reading => true
    case Fetching(began, cached) => InHand(cached, latest, key, began)
    case Keeping(began, cached, entry, own) => InHand(cached, latest, key, began) && ValidPolicy(entry.raw, key) == Some(own)
    case Settled(_) => true
  }

  /** The refresh in flight is the only live one of its key. */
  predicate SingleFlight(s: State) {
    forall i :: 0 <= i < |s.jobs| && s.jobs[i].Live() ==> s.jobs[i].key in s.inflight && s.inflight[s.jobs[i].key] == i
  }

  ghost predicate Inv(s: State) {
    && SingleFlight(s)
    && (forall key :: HoldsLatest(Stored(s, key), Latest(s, key), key))
    && (forall i :: 0 <= i < |s.jobs| && s.jobs[i].Live() ==> Sound(s.jobs[i].refresh, Latest(s, s.jobs[i].key), s.jobs[i].key))
  }

  lemma UsableIsInHand(stored: Option<Entry>, latest: Option<Entry>, key: Key, now: int)
    requires HoldsLatest(stored, latest, key)
    ensures InHand(Usable(stored, key, now), latest, key, now)
  {
    hide ValidPolicy;
  }

  lemma NextKeepsInv(s: State, e: Event)
    requires Inv(s)
    ensures Inv(Next(s, e))
  {
    match e {
      case Read(id, ok, now) =>
        if At(s, id) && s.jobs[id].refresh.Reading? { ReadKeepsInv(s, id, ok, now); }
      case Keep(id, ok) =>
        if At(s, id) && s.jobs[id].refresh.Keeping? && ok { KeepKeepsInv(s, id); } else { QuietKeepsInv(s, e); }
      case _ => QuietKeepsInv(s, e);
    }
  }

  /** A step that reads and stores nothing. */
  lemma QuietKeepsInv(s: State, e: Event)
    requires Inv(s) && !e.Read? && Next(s, e).storage == s.storage && Next(s, e).latest == s.latest
    ensures Inv(Next(s, e))
  {
    hide ValidPolicy, AdapterId, HoldsLatest, InHand;
    var s' := Next(s, e);
    assert forall key :: Stored(s', key) == Stored(s, key) && Latest(s', key) == Latest(s, key);
    forall i | 0 <= i < |s'.jobs| && s'.jobs[i].Live()
      ensures Sound(s'.jobs[i].refresh, Latest(s', s'.jobs[i].key), s'.jobs[i].key)
      ensures s'.jobs[i].key in s'.inflight && s'.inflight[s'.jobs[i].key] == i
    {
      assert i < |s.jobs| && s.jobs[i].Live() ==> Sound(s.jobs[i].refresh, Latest(s, s.jobs[i].key), s.jobs[i].key);
    }
  }

  lemma ReadKeepsInv(s: State, id: JobId, ok: bool, now: int)
    requires Inv(s) && At(s, id) && s.jobs[id].refresh.Reading?
    ensures Inv(Next(s, Read(id, ok, now)))
  {
    hide ValidPolicy, InHand, HoldsLatest, Usable;
    var s' := Next(s, Read(id, ok, now));
    UsableIsInHand(Stored(s, s.jobs[id].key), Latest(s, s.jobs[id].key), s.jobs[id].key, now);
    forall i | 0 <= i < |s'.jobs| && s'.jobs[i].Live()
      ensures Sound(s'.jobs[i].refresh, Latest(s', s'.jobs[i].key), s'.jobs[i].key)
    {
      assert i != id ==> s'.jobs[i] == s.jobs[i];
    }
    assert forall key :: Stored(s', key) == Stored(s, key) && Latest(s', key) == Latest(s, key);
  }

  lemma KeepKeepsInv(s: State, id: JobId)
    requires Inv(s) && At(s, id) && s.jobs[id].refresh.Keeping?
    ensures Inv(Next(s, Keep(id, true)))
  {
    hide ValidPolicy, InHand;
    var s' := Next(s, Keep(id, true));
    var key := s.jobs[id].key;
    forall k ensures HoldsLatest(Stored(s', k), Latest(s', k), k) {
      assert HoldsLatest(Stored(s, k), Latest(s, k), k);
    }
    forall i | 0 <= i < |s'.jobs| && s'.jobs[i].Live()
      ensures Sound(s'.jobs[i].refresh, Latest(s', s'.jobs[i].key), s'.jobs[i].key)
    {
      assert s'.jobs[i] == s.jobs[i] && s.jobs[i].key != key;
    }
  }

  function RunOf(events: seq<Event>): State {
    if events == [] then BEGIN else Next(RunOf(events[..|events| - 1]), events[|events| - 1])
  }

  lemma {:induction false} RunKeepsInv(events: seq<Event>)
    ensures Inv(RunOf(events))
  {
    hide Inv, Next;
    if events == [] {
      BeginInv();
    } else {
      RunKeepsInv(events[..|events| - 1]);
      NextKeepsInv(RunOf(events[..|events| - 1]), events[|events| - 1]);
    }
  }

  /** Whatever was asked of it and however the worker restarted: two live refreshes are of two keys. */
  lemma NoOverlap(events: seq<Event>, i: JobId, j: JobId)
    requires i < |RunOf(events).jobs| && j < |RunOf(events).jobs| && i != j
    requires RunOf(events).jobs[i].Live() && RunOf(events).jobs[j].Live()
    ensures RunOf(events).jobs[i].key != RunOf(events).jobs[j].key
  {
    RunKeepsInv(events);
  }

  lemma BeginInv()
    ensures Inv(BEGIN)
  {
  }

  /** The step in which a refresh settles, and its result. */
  predicate Settles(s: State, e: Event, id: JobId, result: Result) {
    At(s, id) && id < |Next(s, e).jobs| && !Next(s, e).jobs[id].lost && Next(s, e).jobs[id].refresh == Settled(result)
  }

  /** Whatever responses came, valid, invalid or failing, however the clock moved and the worker
      restarted: a result of the server's own is this refresh's response, by now the last valid one; a
      cached result is the last valid one, of no later refresh, and was inside its own max_age when this
      refresh read the cache. Either validates for the adapter. There is none only if there was no such
      response in its age. */
  lemma ResultsAreHonest(events: seq<Event>, e: Event, id: JobId, result: Result)
    requires Settles(RunOf(events), e, id, result)
    ensures var s := RunOf(events); var key := s.jobs[id].key;
            match result
            case Fresh(config) =>
              && s.jobs[id].refresh.Keeping? && ValidPolicy(s.jobs[id].refresh.entry.raw, key) == Some(config)
              && Latest(Next(s, e), key) == Some(s.jobs[id].refresh.entry)
            case Cached(config, _) =>
              && s.jobs[id].refresh.Fetching? && Latest(s, key).Some?
              && ValidPolicy(Latest(s, key).value.raw, key) == Some(config)
              && Latest(s, key).value.fetchedAt <= s.jobs[id].refresh.began
                                                <= Latest(s, key).value.fetchedAt + config.maxAge * 1000
            case Unavailable(_) =>
              && s.jobs[id].refresh.Fetching?
              && (Latest(s, key).Some? ==> !InAge(Latest(s, key).value, key, s.jobs[id].refresh.began))
            case Rejected => true
  {
    hide ValidPolicy, AdapterId, HoldsLatest, Usable;
    RunKeepsInv(events);
  }

  // ---- the object ----------------------------------------------------------------------

  class PolicyStore {
    var storage: map<Key, Entry>

    constructor ()
      ensures storage == map[]
    {
      storage := map[];
    }

    /** `refresh`, undisturbed: the clock reads `began` with the cache and `now` with the response. The
        steps of the worker above, taken one after another, end in the same result and storage. */
    method Refresh(key: Key, response: Response, began: int, now: int) returns (result: Result)
      modifies this
      ensures var stored := if key in old(storage) then Some(old(storage)[key]) else None;
              match Answered(key, began, Usable(stored, key, began), response, now)
              case Keeping(_, _, entry, own) => result == Fresh(own) && storage == Put(old(storage), key, Kept(own, entry))
              case Settled(r) => result == r && storage == old(storage)
              case _ => false
      ensures response.Received? && ValidPolicy(response.raw, key).Some? ==>
                var own := ValidPolicy(response.raw, key).value;
                && result == Fresh(own)
                && storage == if own.maxAge > 0 then old(storage)[key := Entry(now, response.raw)] else old(storage) - {key}
      ensures (response.Received? ==> ValidPolicy(response.raw, key).None?) ==>
                var reason := if response.Received? then "INVALID_RESPONSE" else response.reason;
                && storage == old(storage)
                && result == if key in storage && InAge(storage[key], key, began)
                             then Cached(ValidPolicy(storage[key].raw, key).value, reason) else Unavailable(reason)
    {
      var stored := if key in storage then Some(storage[key]) else None;
      var cached := Usable(stored, key, began);
      var own: Option<Policy> := None;
      var reason := "UNAVAILABLE";
      if response.Received? {
        own := ValidPolicy(response.raw, key);
        if own.None? { reason := "INVALID_RESPONSE"; }
      } else {
        reason := response.reason;
      }
      if own.Some? {
        if own.value.maxAge > 0 {
          storage := storage[key := Entry(now, response.raw)];
        } else {
          storage := storage - {key};
        }
        return Fresh(own.value);
      }
      if cached.Some? { return Cached(cached.value, reason); }
      result := Unavailable(reason);
    }
  }
}
