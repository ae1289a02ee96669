/** The refresh that keeps the hourly table and the read that trusts it (src/api/ledger_rollup.py),
    interleaved with writers: a read is exact whatever the refresh has done. */
module RollupRefresh {
  import opened Options
  import opened Ledger
  import opened Rollup
  import opened LedgerTriggers
  import Extremes

  // ---- the aggregate over a list of ranges ---------------------------------------------

  /** [lo, hi); without one it is infinite that way. */
  datatype Range = Range(lo: Option<int>, hi: Option<int>) {
    predicate Holds(at: int) { (lo.Some? ==> lo.value <= at) && (hi.Some? ==> at < hi.value) }
  }

  function Span(lo: int, hi: int): Range { Range(Some(lo), Some(hi)) }

  function Times(db: Db): set<int> {
    (set id | id in db.answers :: db.answers[id].createdAt) + (set id | id in db.fetches :: db.fetches[id].createdAt)
  }

  /** Bounds no row passes, standing for the infinite ones. */
  function Floor(db: Db): int { if Times(db) == {} then 0 else Extremes.Least(Times(db)) }

  function Ceiling(db: Db): int { if Times(db) == {} then 0 else Extremes.Greatest(Times(db)) + 1 }

  function Lo(db: Db, r: Range): int { r.lo.OrElse(Floor(db)) }

  function Hi(db: Db, r: Range): int { r.hi.OrElse(Ceiling(db)) }

  /** A row counts once for every range it falls in. */
  function GroupOver(db: Db, ranges: seq<Range>, key: Key): Measures {
    if ranges == [] then NOTHING
    else Add(Group(db, Lo(db, ranges[0]), Hi(db, ranges[0]), key), GroupOver(db, ranges[1..], key))
  }

  predicate Within(at: int, ranges: seq<Range>) { exists r :: r in ranges && r.Holds(at) }

  function KeysOver(db: Db, ranges: seq<Range>): set<Key> {
    set i | 0 <= i < Bound(db) && EntryAt(db, i).Some? && Within(EntryAt(db, i).value.at, ranges)
      :: Key(HourOf(EntryAt(db, i).value.at), EntryAt(db, i).value.dimensions)
  }

  /** GROUP BY: a row for every group that has one. */
  function Aggregate(db: Db, ranges: seq<Range>): map<Key, Measures> {
    map key | key in KeysOver(db, ranges) :: GroupOver(db, ranges, key)
  }

  function HourRanges(hours: seq<Hour>): seq<Range> {
    seq(|hours|, i requires 0 <= i < |hours| => Span(hours[i] * SECONDS, (hours[i] + 1) * SECONDS))
  }

  predicate Distinct(hours: seq<Hour>) { forall i, j :: 0 <= i < j < |hours| ==> hours[i] != hours[j] }

  /** sorted({...}) */
  function Sorted(hours: set<Hour>): (s: seq<Hour>)
    ensures forall h :: h in s <==> h in hours
    ensures forall i, j :: 0 <= i < j < |s| ==> s[i] < s[j]
  {
    if hours == {} then [] else
      var least := Extremes.Least(hours);
      [least] + Sorted(hours - {least})
  }

  function Entry(table: map<Key, Measures>, key: Key): Option<Measures> {
    if key in table then Some(table[key]) else None
  }

  function Listed(m: Measures): Option<Measures> { if m.answers == 0 then None else Some(m) }

  // ---- what the aggregate lists --------------------------------------------------------

  lemma AddAnswers(a: Measures, b: Measures)
    ensures Add(a, b).answers == a.answers + b.answers
  {
  }

  /** A group is empty exactly when no row falls in it. */
  lemma {:induction false} SumCounts(rows: seq<Option<Rollup.Entry>>, n: nat, lo: int, hi: int, key: Key)
    requires n <= |rows| && forall i :: 0 <= i < n && rows[i].Some? ==> rows[i].value.measures.answers == 1
    ensures Sum(rows, n, lo, hi, key).answers > 0 <==> exists i :: 0 <= i < n && Counts(rows[i], lo, hi, key)
    ensures Sum(rows, n, lo, hi, key).answers == 0 ==> Sum(rows, n, lo, hi, key) == NOTHING
  {
    hide Add, Counts;
    if n > 0 {
      SumCounts(rows, n - 1, lo, hi, key);
      AddAnswers(Sum(rows, n - 1, lo, hi, key), Contribution(rows[n - 1], lo, hi, key));
      AddNothing(NOTHING);
      assert Counts(rows[n - 1], lo, hi, key) ==> rows[n - 1].Some? by { CountsIsARow(rows[n - 1], lo, hi, key); }
    }
  }

  lemma CountsIsARow(e: Option<Rollup.Entry>, lo: int, hi: int, key: Key)
    ensures Counts(e, lo, hi, key) ==> e.Some?
  {
  }

  lemma GroupCounts(db: Db, lo: int, hi: int, key: Key)
    ensures Group(db, lo, hi, key).answers > 0 <==> exists i :: 0 <= i < Bound(db) && Counts(EntryAt(db, i), lo, hi, key)
    ensures Group(db, lo, hi, key).answers == 0 ==> Group(db, lo, hi, key) == NOTHING
  {
    hide Counts, Contribution, Add;
    var n := Bound(db);
    forall i | 0 <= i < n && Rows(db, n)[i].Some? ensures Rows(db, n)[i].value.measures.answers == 1 {
      EveryRowIsOne(db, i);
    }
    SumCounts(Rows(db, n), n, lo, hi, key);
    assert forall i :: 0 <= i < n ==> Rows(db, n)[i] == EntryAt(db, i);
  }

  lemma EveryRowIsOne(db: Db, i: nat)
    ensures EntryAt(db, i).Some? ==> EntryAt(db, i).value.measures.answers == 1
  {
  }

  lemma {:induction false} GroupOverCounts(db: Db, ranges: seq<Range>, key: Key)
    ensures GroupOver(db, ranges, key).answers > 0 <==> exists r :: r in ranges && Group(db, Lo(db, r), Hi(db, r), key).answers > 0
    ensures GroupOver(db, ranges, key).answers == 0 ==> GroupOver(db, ranges, key) == NOTHING
  {
    hide Group, Add;
    if ranges != [] {
      var first, rest := ranges[0], ranges[1..];
      GroupOverCounts(db, rest, key);
      GroupCounts(db, Lo(db, first), Hi(db, first), key);
      AddAnswers(Group(db, Lo(db, first), Hi(db, first), key), GroupOver(db, rest, key));
      AddNothing(NOTHING);
      assert forall r :: r in ranges <==> r == first || r in rest;
    }
  }

  /** The bounds for the infinite ones let every row through. */
  lemma BoundsHold(db: Db, r: Range, i: nat)
    ensures EntryAt(db, i).Some? ==>
              (r.Holds(EntryAt(db, i).value.at) <==> Lo(db, r) <= EntryAt(db, i).value.at < Hi(db, r))
  {
    if EntryAt(db, i).Some? {
      var at := EntryAt(db, i).value.at;
      assert at in Times(db) by { RowHasItsTime(db, i); }
    }
  }

  lemma RowHasItsTime(db: Db, i: nat)
    ensures EntryAt(db, i).Some? ==> EntryAt(db, i).value.at in Times(db)
  {
  }

  /** The aggregate lists exactly the groups that have a row, each once and with its sum. */
  lemma AggregateLists(db: Db, ranges: seq<Range>, key: Key)
    ensures Entry(Aggregate(db, ranges), key) == Listed(GroupOver(db, ranges, key))
  {
    hide Group, Add, EntryAt, Lo, Hi, Range.Holds;
    GroupOverCounts(db, ranges, key);
    if key in KeysOver(db, ranges) {
      var i :| 0 <= i < Bound(db) && EntryAt(db, i).Some? && Within(EntryAt(db, i).value.at, ranges)
               && Key(HourOf(EntryAt(db, i).value.at), EntryAt(db, i).value.dimensions) == key;
      var r :| r in ranges && r.Holds(EntryAt(db, i).value.at);
      BoundsHold(db, r, i);
      GroupCounts(db, Lo(db, r), Hi(db, r), key);
      assert Counts(EntryAt(db, i), Lo(db, r), Hi(db, r), key);
    } else {
      forall r | r in ranges ensures Group(db, Lo(db, r), Hi(db, r), key).answers == 0 {
        GroupCounts(db, Lo(db, r), Hi(db, r), key);
        forall i | 0 <= i < Bound(db) ensures !Counts(EntryAt(db, i), Lo(db, r), Hi(db, r), key) {
          BoundsHold(db, r, i);
          assert EntryAt(db, i).Some? && r.Holds(EntryAt(db, i).value.at) ==> Within(EntryAt(db, i).value.at, ranges);
        }
      }
    }
  }

  function HourPart(db: Db, listed: bool, key: Key): Measures { if listed then HourGroup(db, key) else NOTHING }

  /** Distinct hours, each a range: a group is there once or not at all. */
  lemma {:induction false} HoursOver(db: Db, hours: seq<Hour>, key: Key)
    requires Distinct(hours)
    ensures GroupOver(db, HourRanges(hours), key) == HourPart(db, key.hour in hours, key)
  {
    hide Group, Add;
    if hours != [] {
      var rest := hours[1..];
      assert HourRanges(hours)[1..] == HourRanges(rest);
      HoursOver(db, rest, key);
      assert key.hour in hours <==> key.hour == hours[0] || key.hour in rest;
      if key.hour == hours[0] {
        assert hours[0] !in rest by {
          forall j | 0 <= j < |rest| ensures rest[j] != hours[0] { assert rest[j] == hours[j + 1]; }
        }
      } else {
        GroupOutsideHour(db, hours[0] * SECONDS, (hours[0] + 1) * SECONDS, key);
      }
      AddNothing(HourPart(db, key.hour in hours, key));
      AddNothing(NOTHING);
    }
  }

  /** A range of whole hours holds each of its hours whole. */
  lemma WholeHours(db: Db, a: Hour, b: Hour, key: Key)
    ensures Group(db, a * SECONDS, b * SECONDS, key) == HourPart(db, a <= key.hour < b, key)
  {
    hide Group, Add;
    if a <= key.hour < b {
      var lo, hi := key.hour * SECONDS, (key.hour + 1) * SECONDS;
      GroupSplits(db, a * SECONDS, lo, b * SECONDS, key);
      GroupSplits(db, lo, hi, b * SECONDS, key);
      GroupOutsideHour(db, a * SECONDS, lo, key);
      GroupOutsideHour(db, hi, b * SECONDS, key);
      AddNothing(HourGroup(db, key));
      AddNothing(Group(db, lo, b * SECONDS, key));
    } else {
      GroupOutsideHour(db, a * SECONDS, b * SECONDS, key);
    }
  }

  // ---- the tables and the refresh's transaction ----------------------------------------

  /** How far one refresh has got. `staged` is the hourly table as its transaction sees it,
      `seen` the log rows it read and deletes; nobody else sees either before it commits. */
  datatype Txn =
    | Idle
    | Started(from: Hour, target: Hour)
    | Noted(from: Hour, target: Hour, seen: map<Id, Hour>)
    | Restated(from: Hour, target: Hour, seen: map<Id, Hour>, staged: map<Key, Measures>)
    | Advanced(upto: Hour, seen: map<Id, Hour>, staged: map<Key, Measures>)

  datatype State = State(db: Db, log: map<Id, Hour>, hourly: map<Key, Measures>, until: Option<Hour>, txn: Txn)

  /** LEAST of the two min(created_at), NULLs passed over. */
  ghost predicate IsFirstHour(db: Db, first: Option<Hour>) {
    && (first.None? <==> db.answers == map[] && db.fetches == map[])
    && (first.Some? ==>
          && (forall id :: id in db.answers ==> first.value <= HourOf(db.answers[id].createdAt))
          && (forall id :: id in db.fetches ==> first.value <= HourOf(db.fetches[id].createdAt)))
  }

  function Min(a: int, b: int): int { if a < b then a else b }

  function Max(a: int, b: int): int { if a < b then b else a }

  /** DELETE ... WHERE hour = ANY(hours), and ... WHERE hour >= from AND hour < to. */
  function DropHours(table: map<Key, Measures>, hours: set<Hour>): map<Key, Measures> {
    map key | key in table && key.hour !in hours :: table[key]
  }

  function WholeRange(from: Hour, to: Hour): seq<Range> { [Span(from * SECONDS, to * SECONDS)] }

  function DropRange(table: map<Key, Measures>, from: Hour, to: Hour): map<Key, Measures> {
    map key | key in table && !(from <= key.hour < to) :: table[key]
  }

  function DirtyBelow(seen: map<Id, Hour>, from: Hour): set<Hour> {
    set id | id in seen && seen[id] < from :: seen[id]
  }

  datatype Action =
    | Commit(write: Write, saw: Db)
    | Begin(now: int, first: Option<Hour>)
    | ReadLog
    | RestateDirty
    | Advance(span: int)
    | Finish
    | Abort

  /** Log rows appended for the hours, one at least for each, under new ids. */
  ghost predicate Appended(log: map<Id, Hour>, log': map<Id, Hour>, hours: set<Hour>) {
    && (forall id :: id in log ==> id in log' && log'[id] == log[id])
    && (forall id :: id in log' && id !in log ==> log'[id] in hours)
    && (forall h :: h in hours ==> exists id :: id in log' && id !in log && log'[id] == h)
  }

  /** One statement of the refresh; each reads the tables as committed when it starts. */
  ghost predicate Refreshes(s: State, a: Action, s': State)
    requires !a.Commit?
  {
    && s'.db == s.db
    && match a
       case Begin(now, first) =>
         && s.txn.Idle? && IsFirstHour(s.db, first)
         && s' == s.(txn := Started(s.until.OrElse(first.OrElse(HourOf(now))), HourOf(now)))
       case ReadLog =>
         s.txn.Started? && s' == s.(txn := Noted(s.txn.from, s.txn.target, s.log))
       case RestateDirty =>
         && s.txn.Noted?
         && var dirty := DirtyBelow(s.txn.seen, s.txn.from);
            s' == s.(txn := Restated(s.txn.from, s.txn.target, s.txn.seen,
                       DropHours(s.hourly, dirty) + Aggregate(s.db, HourRanges(Sorted(dirty)))))
       case Advance(span) =>
         && s.txn.Restated?
         && var from, to := s.txn.from, Min(s.txn.target, s.txn.from + span);
            s' == s.(txn := Advanced(Max(from, to), s.txn.seen,
                       if from < to
                       then DropRange(s.txn.staged, from, to) + Aggregate(s.db, WholeRange(from, to))
                       else s.txn.staged))
       case Finish =>
         && s.txn.Advanced?
         && s' == s.(log := s.log - s.txn.seen.Keys, hourly := s.txn.staged, until := Some(s.txn.upto), txn := Idle)
       case Abort => s' == s.(txn := Idle)
  }

  ghost predicate Next(s: State, a: Action, s': State) {
    match a
    case Commit(w, saw) =>
      && Applies(s.db, w) && Orderly(s.db, saw, w)
      && Appended(s.log, s'.log, Dirty(w, Apply(saw, w)))
      && s' == s.(db := Apply(s.db, w), log := s'.log)
    case _ => Refreshes(s, a, s')
  }

  // ---- the invariant -------------------------------------------------------------------

  /** Every hour below `until` that the log does not name holds exactly the source's groups. */
  ghost predicate Right(table: map<Key, Measures>, db: Db, log: map<Id, Hour>, until: Hour) {
    forall key: Key :: key.hour < until && key.hour !in log.Values ==> Entry(table, key) == Listed(HourGroup(db, key))
  }

  ghost predicate TxnRight(s: State) {
    match s.txn
    case Idle => true
    case Started(from, _) => Right(s.hourly, s.db, s.log, from)
    case Noted(from, _, seen) => Right(s.hourly, s.db, s.log, from) && seen.Keys <= s.log.Keys
    case Restated(from, _, seen, staged) => Right(staged, s.db, s.log - seen.Keys, from) && seen.Keys <= s.log.Keys
    case Advanced(upto, seen, staged) => Right(staged, s.db, s.log - seen.Keys, upto) && seen.Keys <= s.log.Keys
  }

  ghost predicate Inv(s: State) {
    && (s.until.None? ==> s.hourly == map[])
    && (s.until.Some? ==> Right(s.hourly, s.db, s.log, s.until.value))
    && (s.txn.Noted? ==> forall id :: id in s.txn.seen ==> id in s.log && s.log[id] == s.txn.seen[id])
    && TxnRight(s)
  }

  // ---- what a write keeps --------------------------------------------------------------

  lemma WriteKeepsRight(table: map<Key, Measures>, db: Db, saw: Db, w: Write, log: map<Id, Hour>, log': map<Id, Hour>, until: Hour)
    requires Right(table, db, log, until) && Applies(db, w) && Orderly(db, saw, w)
    requires Appended(log, log', Dirty(w, Apply(saw, w)))
    ensures Right(table, Apply(db, w), log', until)
  {
    hide Applies, Orderly, Apply, Dirty, HourGroup;
    forall key: Key | key.hour < until && key.hour !in log'.Values
      ensures Entry(table, key) == Listed(HourGroup(Apply(db, w), key))
    {
      ChangedHoursAreLogged(db, saw, w, key);
      forall id | id in log ensures log[id] != key.hour { assert log'[id] == log[id]; }
    }
  }

  lemma AppendedBeside(log: map<Id, Hour>, log': map<Id, Hour>, seen: set<Id>, hours: set<Hour>)
    requires Appended(log, log', hours) && seen <= log.Keys
    ensures Appended(log - seen, log' - seen, hours) && seen <= log'.Keys
  {
    forall h | h in hours ensures exists id :: id in log' - seen && id !in log - seen && (log' - seen)[id] == h {
      var id :| id in log' && id !in log && log'[id] == h;
      assert id in log' - seen;
    }
  }

  lemma WriteKeepsInv(s: State, a: Action, s': State)
    requires Inv(s) && a.Commit? && Next(s, a, s')
    ensures Inv(s')
  {
    hide Applies, Orderly, Apply, Dirty, Right, Appended;
    var w, saw := a.write, a.saw;
    if s.until.Some? { WriteKeepsRight(s.hourly, s.db, saw, w, s.log, s'.log, s.until.value); }
    match s.txn {
      case Idle =>
      case Started(from, _) => WriteKeepsRight(s.hourly, s.db, saw, w, s.log, s'.log, from);
      case Noted(from, _, seen) =>
        WriteKeepsRight(s.hourly, s.db, saw, w, s.log, s'.log, from);
        AppendedKeeps(s.log, s'.log, Dirty(w, Apply(saw, w)));
      case Restated(from, _, seen, staged) =>
        AppendedBeside(s.log, s'.log, seen.Keys, Dirty(w, Apply(saw, w)));
        WriteKeepsRight(staged, s.db, saw, w, s.log - seen.Keys, s'.log - seen.Keys, from);
      case Advanced(upto, seen, staged) =>
        AppendedBeside(s.log, s'.log, seen.Keys, Dirty(w, Apply(saw, w)));
        WriteKeepsRight(staged, s.db, saw, w, s.log - seen.Keys, s'.log - seen.Keys, upto);
    }
  }

  lemma AppendedKeeps(log: map<Id, Hour>, log': map<Id, Hour>, hours: set<Hour>)
    requires Appended(log, log', hours)
    ensures forall id :: id in log ==> id in log' && log'[id] == log[id]
  {
  }

  // ---- what the refresh keeps ----------------------------------------------------------

  lemma NothingBefore(db: Db, first: Option<Hour>, key: Key)
    requires IsFirstHour(db, first) && (first.Some? ==> key.hour < first.value)
    ensures HourGroup(db, key) == NOTHING
  {
    var lo, hi := key.hour * SECONDS, (key.hour + 1) * SECONDS;
    GroupCounts(db, lo, hi, key);
    forall i: nat ensures !Counts(EntryAt(db, i), lo, hi, key) { NotBefore(db, first, key, i); }
  }

  lemma NotBefore(db: Db, first: Option<Hour>, key: Key, i: nat)
    requires IsFirstHour(db, first) && (first.Some? ==> key.hour < first.value)
    ensures !Counts(EntryAt(db, i), key.hour * SECONDS, (key.hour + 1) * SECONDS, key)
  {
  }

  lemma BeginKeepsInv(s: State, a: Action, s': State)
    requires Inv(s) && a.Begin? && Refreshes(s, a, s')
    ensures Inv(s')
  {
    hide HourGroup, IsFirstHour;
    if s.until.None? {
      forall key: Key | key.hour < s'.txn.from && key.hour !in s.log.Values
        ensures Entry(s.hourly, key) == Listed(HourGroup(s.db, key))
      {
        NothingBefore(s.db, a.first, key);
      }
    }
  }

  lemma RestateKeepsInv(s: State, a: Action, s': State)
    requires Inv(s) && a.RestateDirty? && Refreshes(s, a, s')
    ensures Inv(s')
  {
    hide HourGroup, Aggregate, Listed;
    var from, seen := s.txn.from, s.txn.seen;
    var dirty := DirtyBelow(seen, from);
    var hours := Sorted(dirty);
    var staged := s'.txn.staged;
    assert Distinct(hours);
    forall key: Key | key.hour < from && key.hour !in (s.log - seen.Keys).Values
      ensures Entry(staged, key) == Listed(HourGroup(s.db, key))
    {
      AggregateLists(s.db, HourRanges(hours), key);
      HoursOver(s.db, hours, key);
      ListedNothing();
      if key.hour !in dirty {
        forall id | id in s.log ensures s.log[id] != key.hour {
          assert id in seen || id in s.log - seen.Keys;
        }
      }
    }
  }

  lemma ListedNothing()
    ensures Listed(NOTHING) == None
  {
  }

  lemma AdvanceKeepsInv(s: State, a: Action, s': State)
    requires Inv(s) && a.Advance? && Refreshes(s, a, s')
    ensures Inv(s')
  {
    hide Right;
    var from, to := s.txn.from, Min(s.txn.target, s.txn.from + a.span);
    if from < to { RangeAdvances(s.txn.staged, s.db, s.log - s.txn.seen.Keys, from, to); }
  }

  lemma RangeAdvances(table: map<Key, Measures>, db: Db, log: map<Id, Hour>, from: Hour, to: Hour)
    requires Right(table, db, log, from)
    ensures Right(DropRange(table, from, to) + Aggregate(db, WholeRange(from, to)), db, log, to)
  {
    hide HourGroup, Aggregate, Listed, WholeRange;
    var ranges := WholeRange(from, to);
    var table' := DropRange(table, from, to) + Aggregate(db, ranges);
    forall key: Key | key.hour < to && key.hour !in log.Values ensures Entry(table', key) == Listed(HourGroup(db, key)) {
      AggregateLists(db, ranges, key);
      OneRange(db, from, to, key);
      ListedNothing();
    }
  }

  lemma OneRange(db: Db, a: Hour, b: Hour, key: Key)
    ensures GroupOver(db, WholeRange(a, b), key) == HourPart(db, a <= key.hour < b, key)
  {
    hide Group, Add;
    WholeHours(db, a, b, key);
    AddNothing(HourPart(db, a <= key.hour < b, key));
    assert WholeRange(a, b)[1..] == [];
  }

  /** Every step, of any writer and of the refresh, keeps the invariant. */
  lemma NextKeepsInv(s: State, a: Action, s': State)
    requires Inv(s) && Next(s, a, s')
    ensures Inv(s')
  {
    match a {
      case Commit(_, _) => WriteKeepsInv(s, a, s');
      case Begin(_, _) => BeginKeepsInv(s, a, s');
      case RestateDirty => RestateKeepsInv(s, a, s');
      case Advance(_) => AdvanceKeepsInv(s, a, s');
      case _ =>
    }
  }

  /** The tables as the migration leaves them: nothing stored, nothing logged, whatever was written before. */
  ghost predicate Init(s: State) {
    s.log == map[] && s.hourly == map[] && s.until == None && s.txn == Idle
  }

  ghost predicate Run(states: seq<State>, actions: seq<Action>) {
    && |states| == |actions| + 1 && Init(states[0])
    && forall i :: 0 <= i < |actions| ==> Next(states[i], actions[i], states[i + 1])
  }

  lemma {:induction false} RunKeepsInv(states: seq<State>, actions: seq<Action>, n: nat)
    requires Run(states, actions) && n < |states|
    ensures Inv(states[n])
  {
    hide Next, Inv;
    if n == 0 {
      InitInv(states[0]);
    } else {
      RunKeepsInv(states, actions, n - 1);
      NextKeepsInv(states[n - 1], actions[n - 1], states[n]);
    }
  }

  lemma InitInv(s: State)
    requires Init(s)
    ensures Inv(s)
  {
  }

  // ---- the read ------------------------------------------------------------------------

  /** The first whole hour of a window, None for -infinity. */
  function CeilHour(start: Option<int>): Option<Hour> {
    if start.None? then None
    else Some(if HourOf(start.value) * SECONDS == start.value then HourOf(start.value) else HourOf(start.value) + 1)
  }

  /** LEAST of the watermark and the window's last hour, None for -infinity: where stored hours end. */
  function StoredEnd(until: Option<Hour>, end: Option<int>): Option<Hour> {
    if until.None? then None else Some(if end.None? then until.value else Min(until.value, HourOf(end.value)))
  }

  /** The hours the table may answer for. */
  predicate Stored(until: Option<Hour>, start: Option<int>, end: Option<int>, hour: Hour) {
    && (start.Some? ==> CeilHour(start).value <= hour)
    && StoredEnd(until, end).Some? && hour < StoredEnd(until, end).value
  }

  function DirtyIn(s: State, start: Option<int>, end: Option<int>): set<Hour> {
    set id | id in s.log && Stored(s.until, start, end, s.log[id]) :: s.log[id]
  }

  /** GREATEST(stored_end, ceil_s). */
  function TailFrom(until: Option<Hour>, start: Option<int>, end: Option<int>): Option<Hour> {
    var stored, ceil := StoredEnd(until, end), CeilHour(start);
    if stored.None? then ceil else if ceil.None? then stored else Some(Max(stored.value, ceil.value))
  }

  /** The partial hour at the start; nothing comes before -infinity. */
  function Head(start: Option<int>, end: Option<int>): seq<Range> {
    if start.None? then []
    else
      var ceil := CeilHour(start).value * SECONDS;
      var hi := if end.None? then ceil else Min(ceil, end.value);
      if start.value < hi then [Span(start.value, hi)] else []
  }

  /** Everything from the watermark on. */
  function Tail(until: Option<Hour>, start: Option<int>, end: Option<int>): seq<Range> {
    var from := TailFrom(until, start, end);
    var lo := if from.None? then None else Some(from.value * SECONDS);
    if lo.None? || end.None? || lo.value < end.value then [Range(lo, end)] else []
  }

  /** What is aggregated now. */
  function LiveRanges(s: State, start: Option<int>, end: Option<int>): seq<Range> {
    Head(start, end) + Tail(s.until, start, end) + HourRanges(Sorted(DirtyIn(s, start, end)))
  }

  function StoredRows(s: State, start: Option<int>, end: Option<int>): map<Key, Measures> {
    map key | key in s.hourly && Stored(s.until, start, end, key.hour) && key.hour !in DirtyIn(s, start, end)
      :: s.hourly[key]
  }

  /** How often the read lists a row, the filter `keep` on the dimensions applied to both halves. */
  function ReadTimes(s: State, start: Option<int>, end: Option<int>, keep: Dimensions -> bool, key: Key, m: Measures): nat {
    if !keep(key.dimensions) then 0
    else One(Entry(StoredRows(s, start, end), key) == Some(m))
         + One(Entry(Aggregate(s.db, LiveRanges(s, start, end)), key) == Some(m))
  }

  /** The same of aggregating the whole window from the source. */
  function DirectTimes(db: Db, start: Option<int>, end: Option<int>, keep: Dimensions -> bool, key: Key, m: Measures): nat {
    if !keep(key.dimensions) then 0 else One(Entry(Aggregate(db, [Range(start, end)]), key) == Some(m))
  }

  lemma {:induction false} OverBoth(db: Db, a: seq<Range>, b: seq<Range>, key: Key)
    ensures GroupOver(db, a + b, key) == Add(GroupOver(db, a, key), GroupOver(db, b, key))
  {
    hide Group, Add, Lo, Hi;
    if a == [] {
      assert a + b == b;
      AddNothing(GroupOver(db, b, key));
    } else {
      assert (a + b)[1..] == a[1..] + b;
      OverBoth(db, a[1..], b, key);
      AddLaws(Group(db, Lo(db, a[0]), Hi(db, a[0]), key), GroupOver(db, a[1..], key), GroupOver(db, b, key));
    }
  }

  lemma OverOne(db: Db, r: Range, key: Key)
    ensures GroupOver(db, [r], key) == Group(db, Lo(db, r), Hi(db, r), key)
  {
    hide Group, Add, Lo, Hi;
    AddNothing(Group(db, Lo(db, r), Hi(db, r), key));
    assert [r][1..] == [];
  }

  /** Two ranges the same rows of an hour fall in hold the same of its groups. */
  lemma {:induction false} SumOfSameRows(rows: seq<Option<Rollup.Entry>>, n: nat, lo: int, hi: int, lo': int, hi': int, key: Key)
    requires n <= |rows|
    requires forall i :: 0 <= i < n ==> Contribution(rows[i], lo, hi, key) == Contribution(rows[i], lo', hi', key)
    ensures Sum(rows, n, lo, hi, key) == Sum(rows, n, lo', hi', key)
  {
    hide Contribution, Add;
    if n > 0 { SumOfSameRows(rows, n - 1, lo, hi, lo', hi', key); }
  }

  predicate SameSide(r: Range, r': Range, at: int) { r.Holds(at) <==> r'.Holds(at) }

  lemma SameGroup(db: Db, r: Range, r': Range, key: Key)
    requires forall at :: at in Times(db) && HourOf(at) == key.hour ==> SameSide(r, r', at)
    ensures Group(db, Lo(db, r), Hi(db, r), key) == Group(db, Lo(db, r'), Hi(db, r'), key)
  {
    var n := Bound(db);
    var rows := Rows(db, n);
    forall i | 0 <= i < n
      ensures Contribution(rows[i], Lo(db, r), Hi(db, r), key) == Contribution(rows[i], Lo(db, r'), Hi(db, r'), key)
    {
      BoundsHold(db, r, i);
      BoundsHold(db, r', i);
      RowHasItsTime(db, i);
      hide Times, Lo, Hi, EntryAt;
      assert EntryAt(db, i).Some? && HourOf(EntryAt(db, i).value.at) == key.hour ==> SameSide(r, r', EntryAt(db, i).value.at);
    }
    SumOfSameRows(rows, n, Lo(db, r), Hi(db, r), Lo(db, r'), Hi(db, r'), key);
  }

  const NEVER := Span(0, 0)

  /** At most one range, holding just the rows of an hour that another does. */
  lemma PieceIs(db: Db, piece: seq<Range>, r: Range, key: Key)
    requires |piece| <= 1
    requires forall at :: at in Times(db) && HourOf(at) == key.hour ==> (Within(at, piece) <==> r.Holds(at))
    ensures GroupOver(db, piece, key) == Group(db, Lo(db, r), Hi(db, r), key)
  {
    hide Group, Add, Times, Lo, Hi, Range.Holds;
    var one := if piece == [] then NEVER else piece[0];
    NeverHolds(db, key);
    forall at | at in Times(db) && HourOf(at) == key.hour ensures SameSide(one, r, at) {
      assert Within(at, piece) <==> piece != [] && piece[0].Holds(at);
    }
    SameGroup(db, one, r, key);
    if piece != [] {
      assert piece == [piece[0]];
      OverOne(db, piece[0], key);
    }
  }

  lemma NeverHolds(db: Db, key: Key)
    ensures Group(db, Lo(db, NEVER), Hi(db, NEVER), key) == NOTHING
    ensures forall at :: !NEVER.Holds(at)
  {
    hide Group;
    GroupOutsideHour(db, 0, 0, key);
  }

  function HourRange(hour: Hour): Range { Span(hour * SECONDS, (hour + 1) * SECONDS) }

  /** A row at an instant of a stored hour is in the window but in neither end; one of another hour is
      in the window just when it is in the one end its hour belongs to. */
  predicate Sides(until: Option<Hour>, start: Option<int>, end: Option<int>, hour: Hour, at: int) {
    var inHead, inTail, inside := Within(at, Head(start, end)), Within(at, Tail(until, start, end)), Range(start, end).Holds(at);
    if Stored(until, start, end, hour) then !inHead && !inTail && inside
    else if start.Some? && hour < CeilHour(start).value then !inTail && (inHead <==> inside)
    else !inHead && (inTail <==> inside)
  }

  lemma HourIsSomewhere(until: Option<Hour>, start: Option<int>, end: Option<int>, at: int)
    ensures Sides(until, start, end, HourOf(at), at)
  {
    var head, tail := Head(start, end), Tail(until, start, end);
    assert Within(at, head) <==> head != [] && head[0].Holds(at);
    assert Within(at, tail) <==> tail != [] && tail[0].Holds(at);
  }

  /** The two ends of the window and its dirty hours hold what the stored rows do not. */
  lemma LivePart(s: State, start: Option<int>, end: Option<int>, key: Key)
    ensures GroupOver(s.db, LiveRanges(s, start, end), key)
         == if Stored(s.until, start, end, key.hour) then HourPart(s.db, key.hour in DirtyIn(s, start, end), key)
            else Group(s.db, Lo(s.db, Range(start, end)), Hi(s.db, Range(start, end)), key)
  {
    hide Group, Add, Stored, Head, Tail, Lo, Hi, Times, Within;
    var db, r, head, tail := s.db, Range(start, end), Head(start, end), Tail(s.until, start, end);
    var hours := Sorted(DirtyIn(s, start, end));
    OverBoth(db, head + tail, HourRanges(hours), key);
    OverBoth(db, head, tail, key);
    assert Distinct(hours);
    HoursOver(db, hours, key);
    forall at ensures HourOf(at) == key.hour ==> Sides(s.until, start, end, key.hour, at) { HourIsSomewhere(s.until, start, end, at); }
    EndsLength(s.until, start, end);
    NeverHolds(db, key);
    AddNothing(NOTHING);
    AddNothing(Group(db, Lo(db, r), Hi(db, r), key));
    AddNothing(HourPart(db, key.hour in DirtyIn(s, start, end), key));
    if Stored(s.until, start, end, key.hour) {
      PieceIs(db, head, NEVER, key);
      PieceIs(db, tail, NEVER, key);
    } else if start.Some? && key.hour < CeilHour(start).value {
      PieceIs(db, head, r, key);
      PieceIs(db, tail, NEVER, key);
    } else {
      PieceIs(db, head, NEVER, key);
      PieceIs(db, tail, r, key);
    }
  }

  lemma EndsLength(until: Option<Hour>, start: Option<int>, end: Option<int>)
    ensures |Head(start, end)| <= 1 && |Tail(until, start, end)| <= 1
  {
  }

  /** A stored hour is in the window whole. */
  lemma StoredIsWhole(db: Db, until: Option<Hour>, start: Option<int>, end: Option<int>, key: Key)
    requires Stored(until, start, end, key.hour)
    ensures var r := Range(start, end); Group(db, Lo(db, r), Hi(db, r), key) == HourGroup(db, key)
  {
    var r := Range(start, end);
    forall at | at in Times(db) && HourOf(at) == key.hour ensures SameSide(r, HourRange(key.hour), at) {
      HourIsSomewhere(until, start, end, at);
    }
    hide Group;
    SameGroup(db, r, HourRange(key.hour), key);
  }

  /** A read lists the rows that aggregating its whole window would list, each as often. */
  lemma ReadIsExact(s: State, start: Option<int>, end: Option<int>, keep: Dimensions -> bool, key: Key, m: Measures)
    requires Inv(s)
    ensures ReadTimes(s, start, end, keep, key, m) == DirectTimes(s.db, start, end, keep, key, m)
  {
    hide Group, Add, Aggregate, LiveRanges, TxnRight, Listed, KeysOver, Lo, Hi;
    AggregateLists(s.db, LiveRanges(s, start, end), key);
    AggregateLists(s.db, [Range(start, end)], key);
    OverOne(s.db, Range(start, end), key);
    LivePart(s, start, end, key);
    ListedNothing();
    if Stored(s.until, start, end, key.hour) {
      StoredIsWhole(s.db, s.until, start, end, key);
      if key.hour !in DirtyIn(s, start, end) {
        assert key.hour !in s.log.Values;
      }
    }
  }

  /** Over every run of writers and refreshes, begun, broken off or finished, from the migration
      on: at every moment a read of any window, bounded or not, cut by any dimensions, is exact. */
  lemma EveryReadIsExact(states: seq<State>, actions: seq<Action>, n: nat, start: Option<int>, end: Option<int>,
                         keep: Dimensions -> bool, key: Key, m: Measures)
    requires Run(states, actions) && n < |states|
    ensures ReadTimes(states[n], start, end, keep, key, m) == DirectTimes(states[n].db, start, end, keep, key, m)
  {
    hide Run, Inv, ReadTimes, DirectTimes;
    RunKeepsInv(states, actions, n);
    ReadIsExact(states[n], start, end, keep, key, m);
  }
}
