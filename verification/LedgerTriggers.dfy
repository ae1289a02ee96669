/** The triggers that log the hours a write changes (alembic/versions/d4428913f75e): which hours each
    statement appends, and that no other hour's groups change. */
module LedgerTriggers {
  import opened Options
  import opened Ledger
  import opened Rollup

  datatype Operation = Insert | Update | Delete

  /** A statement's transition tables: the rows before and the rows after. */
  datatype Write =
    | Answers(op: Operation, oldRows: map<Id, Answer>, newRows: map<Id, Answer>)
    | Calls(op: Operation, oldCalls: map<Id, Call>, newCalls: map<Id, Call>)
    | Fetches(op: Operation, oldFetches: map<Id, Fetch>, newFetches: map<Id, Fetch>)

  function Replace<T>(table: map<Id, T>, old': map<Id, T>, new': map<Id, T>): map<Id, T> {
    (table - old'.Keys) + new'
  }

  function Apply(db: Db, w: Write): Db {
    match w
    case Answers(_, old', new') => db.(answers := Replace(db.answers, old', new'))
    case Calls(_, old', new') => db.(calls := Replace(db.calls, old', new'))
    case Fetches(_, old', new') => db.(fetches := Replace(db.fetches, old', new'))
  }

  /** The transition tables of one statement over a table. */
  ghost predicate Transition<T>(table: map<Id, T>, op: Operation, old': map<Id, T>, new': map<Id, T>) {
    && (forall id :: id in old' ==> id in table && table[id] == old'[id])
    && match op
       case Insert => old' == map[] && forall id :: id in new' ==> id !in table
       case Update => old'.Keys == new'.Keys
       case Delete => new' == map[]
  }

  ghost predicate Applies(db: Db, w: Write) {
    match w
    case Answers(op, old', new') => Transition(db.answers, op, old', new')
    case Calls(op, old', new') => Transition(db.calls, op, old', new')
    case Fetches(op, old', new') => Transition(db.fetches, op, old', new')
  }

  // ---- the three trigger functions -----------------------------------------------------

  function AnswerHours(rows: map<Id, Answer>): set<Hour> {
    set id | id in rows :: HourOf(rows[id].createdAt)
  }

  function FetchHours(rows: map<Id, Fetch>): set<Hour> {
    set id | id in rows :: HourOf(rows[id].createdAt)
  }

  /** model_call_id IS NOT NULL. */
  function CallsNamed(rows: map<Id, Answer>): set<Id> {
    set id | id in rows && rows[id].callId.Some? :: rows[id].callId.value
  }

  /** The hours of the answers naming one of the calls. */
  function HoursNaming(answers: map<Id, Answer>, calls: set<Id>): set<Hour> {
    set id | id in answers && answers[id].callId.Some? && answers[id].callId.value in calls
      :: HourOf(answers[id].createdAt)
  }

  function DirtyAnswers(op: Operation, old': map<Id, Answer>, new': map<Id, Answer>,
                        after: map<Id, Answer>): set<Hour> {
    (if op in {Insert, Update} then AnswerHours(new') else {})
    + (if op in {Update, Delete} then AnswerHours(old') + HoursNaming(after, CallsNamed(old')) else {})
    + (if op == Update then HoursNaming(after, CallsNamed(new')) else {})
  }

  function DirtyCalls(old': map<Id, Call>, after: map<Id, Answer>): set<Hour> {
    HoursNaming(after, old'.Keys)
  }

  function DirtyFetches(op: Operation, old': map<Id, Fetch>, new': map<Id, Fetch>): set<Hour> {
    (if op in {Insert, Update} then FetchHours(new') else {})
    + (if op in {Update, Delete} then FetchHours(old') else {})
  }

  /** What the statement logs, its trigger reading the tables as the statement left them. No
      trigger fires when calls are inserted. */
  function Dirty(w: Write, after: Db): set<Hour> {
    match w
    case Answers(op, old', new') => DirtyAnswers(op, old', new', after.answers)
    case Calls(op, old', _) => if op == Insert then {} else DirtyCalls(old', after.answers)
    case Fetches(op, old', new') => DirtyFetches(op, old', new')
  }

  predicate At(hour: Hour, t: int) { hour * 3600 <= t < hour * 3600 + 3600 }

  ghost predicate Writes(old': map<Id, Answer>, new': map<Id, Answer>, call: Option<Id>) {
    || (exists id :: id in old' && old'[id].callId == call)
    || (exists id :: id in new' && new'[id].callId == call)
  }

  /** The hours a statement logs: those of the answers or fetches it writes, as they were and as they become; and,
      unless it inserts, those of every answer that names a call it or an answer it writes is of. */
  lemma DirtyIs(db: Db, w: Write, after: Db, hour: Hour)
    requires Applies(db, w)
    ensures hour in Dirty(w, after) <==>
            match w
            case Answers(op, old', new') =>
              || (exists id :: id in old' && At(hour, old'[id].createdAt)) || (exists id :: id in new' && At(hour, new'[id].createdAt))
              || (op != Insert && exists o :: o in after.answers && At(hour, after.answers[o].createdAt)
                                               && after.answers[o].callId.Some? && Writes(old', new', after.answers[o].callId))
            case Calls(op, old', new') =>
              op != Insert && exists o :: o in after.answers && At(hour, after.answers[o].createdAt)
                                          && after.answers[o].callId.Some? && after.answers[o].callId.value in old'
            case Fetches(op, old', new') =>
              (exists id :: id in old' && At(hour, old'[id].createdAt)) || (exists id :: id in new' && At(hour, new'[id].createdAt))
  {
    forall t: int ensures At(hour, t) <==> HourOf(t) == hour {}
    hide HourOf, At;
  }

  // ---- what writers keep to ------------------------------------------------------------

  /** No new answer takes the first place from an answer already there, unless in an hour the
      statement logs anyway. Ids that only grow keep to it. */
  ghost predicate KeepsFirsts(db: Db, new': map<Id, Answer>) {
    forall id, o: Id :: id in new' && new'[id].callId.Some? && Names(db, o, new'[id].callId.value)
                        && First(db, o) && id < o
      ==> HourOf(db.answers[o].createdAt) in AnswerHours(new')
  }

  /** A call's row is there before any answer names it. */
  ghost predicate NotYetNamed(db: Db, new': map<Id, Call>) {
    forall id, o: Id :: id in new' ==> !Names(db, o, id)
  }

  function Touched(w: Write): set<Id> {
    match w
    case Answers(op, old', new') => CallsNamed(old') + CallsNamed(new')
    case Calls(_, old', _) => old'.Keys
    case Fetches(_, _, _) => {}
  }

  function OldAnswers(w: Write): set<Id> { if w.Answers? then w.oldRows.Keys else {} }

  /** The statement's snapshot holds, as they are when it commits, all other answers naming a call it
      touches: no other writer of such an answer overlaps it. */
  ghost predicate SawSiblings(db: Db, seen: Db, w: Write) {
    forall o: Id, call :: call in Touched(w) && Names(db, o, call) && o !in OldAnswers(w)
      ==> o in seen.answers && seen.answers[o] == db.answers[o]
  }

  /** Answers come in the order of their ids, calls before their answers. */
  ghost predicate InOrder(db: Db, w: Write) {
    match w
    case Answers(op, _, new') => op == Insert ==> KeepsFirsts(db, new')
    case Calls(op, _, new') => op == Insert ==> NotYetNamed(db, new')
    case Fetches(_, _, _) => true
  }

  predicate Inserts(w: Write) {
    match w
    case Answers(op, _, _) => op == Insert
    case Calls(op, _, _) => op == Insert
    case Fetches(op, _, _) => op == Insert
  }

  ghost predicate Orderly(db: Db, seen: Db, w: Write) { InOrder(db, w) && (!Inserts(w) ==> SawSiblings(db, seen, w)) }

  // ---- every changed hour is logged ----------------------------------------------------

  lemma SameShare(db: Db, db': Db, id: Id)
    requires id in db.answers && id in db'.answers && db.answers[id] == db'.answers[id]
    requires db.answers[id].callId.Some? ==>
               var call := db.answers[id].callId.value;
               && First(db, id) == First(db', id)
               && (call in db.calls <==> call in db'.calls)
               && (call in db.calls ==> db.calls[call] == db'.calls[call])
    ensures AnswerEntry(db, id) == AnswerEntry(db', id)
  {
  }

  /** The same answers name a call: the same one is first. */
  lemma SameFirst(db: Db, db': Db, id: Id)
    requires id in db.answers && id in db'.answers && db.answers[id] == db'.answers[id]
    requires db.answers[id].callId.Some?
    requires forall o: Id :: Names(db, o, db.answers[id].callId.value) <==> Names(db', o, db.answers[id].callId.value)
    ensures First(db, id) == First(db', id)
  {
    var call := db.answers[id].callId.value;
    assert forall o :: o in db.answers && db.answers[o].callId == Some(call) ==> Names(db, o, call);
    assert forall o :: o in db'.answers && db'.answers[o].callId == Some(call) ==> Names(db', o, call);
  }

  /** The hour of every other answer that names a touched call as the statement commits is logged. */
  ghost predicate LogsSiblings(db: Db, seen: Db, w: Write) {
    forall o: Id, call :: call in Touched(w) && Names(db, o, call) && o !in OldAnswers(w)
      ==> HourOf(db.answers[o].createdAt) in Dirty(w, Apply(seen, w))
  }

  /** A trigger that sees every answer naming a touched call logs the hours of all of them. */
  lemma SeenSiblingsAreLogged(db: Db, seen: Db, w: Write)
    requires Applies(db, w) && !w.Fetches? && !Inserts(w) && SawSiblings(db, seen, w)
    ensures LogsSiblings(db, seen, w)
  {
    var after := Apply(seen, w).answers;
    forall o: Id, call | call in Touched(w) && Names(db, o, call) && o !in OldAnswers(w)
      ensures HourOf(db.answers[o].createdAt) in Dirty(w, Apply(seen, w))
    {
      assert o in after && after[o] == db.answers[o];
    }
  }

  /** What the proof below takes from the trigger: it logs the siblings of what it touches. */
  ghost predicate Covered(db: Db, seen: Db, w: Write) {
    InOrder(db, w) && (!Inserts(w) && !w.Fetches? ==> LogsSiblings(db, seen, w))
  }

  lemma OrderlyIsCovered(db: Db, seen: Db, w: Write)
    requires Applies(db, w) && Orderly(db, seen, w)
    ensures Covered(db, seen, w)
  {
    if !Inserts(w) && !w.Fetches? { SeenSiblingsAreLogged(db, seen, w); }
  }

  /** An answer the statement leaves alone, whose hour it does not log, keeps its share. */
  lemma UpdateLeavesOthers(db: Db, seen: Db, w: Write, id: Id)
    requires w.Answers? && w.op != Insert && Applies(db, w) && LogsSiblings(db, seen, w)
    requires id in db.answers && id !in w.oldRows
    requires HourOf(db.answers[id].createdAt) !in Dirty(w, Apply(seen, w))
    ensures id in Apply(db, w).answers && AnswerEntry(Apply(db, w), id) == AnswerEntry(db, id)
  {
    var db' := Apply(db, w);
    assert id !in w.newRows;
    if db.answers[id].callId.Some? {
      var call := db.answers[id].callId.value;
      assert Names(db, id, call);
      forall o: Id ensures Names(db, o, call) <==> Names(db', o, call) {
        if o in w.oldRows { assert w.oldRows[o].callId != Some(call); }
        if o in w.newRows { assert w.newRows[o].callId != Some(call); }
      }
      SameFirst(db, db', id);
    }
    SameShare(db, db', id);
  }

  lemma InsertLeavesOthers(db: Db, w: Write, id: Id)
    requires w.Answers? && w.op == Insert && Applies(db, w) && KeepsFirsts(db, w.newRows)
    requires id in db.answers
    requires HourOf(db.answers[id].createdAt) !in AnswerHours(w.newRows)
    ensures id in Apply(db, w).answers && AnswerEntry(Apply(db, w), id) == AnswerEntry(db, id)
  {
    var db' := Apply(db, w);
    if db.answers[id].callId.Some? && First(db, id) {
      var call := db.answers[id].callId.value;
      assert Names(db, id, call);
      forall o | o in db'.answers && db'.answers[o].callId == Some(call) ensures id <= o {
        assert o in w.newRows || (o in db.answers && db.answers[o] == db'.answers[o]);
      }
    }
    if db.answers[id].callId.Some? && !First(db, id) {
      var o :| o in db.answers && db.answers[o].callId == db.answers[id].callId && o < id;
      assert o in db'.answers && db'.answers[o] == db.answers[o];
    }
    SameShare(db, db', id);
  }

  lemma CallsLeaveOthers(db: Db, seen: Db, w: Write, id: Id)
    requires w.Calls? && Applies(db, w) && Covered(db, seen, w)
    requires id in db.answers && HourOf(db.answers[id].createdAt) !in Dirty(w, Apply(seen, w))
    ensures AnswerEntry(Apply(db, w), id) == AnswerEntry(db, id)
  {
    if db.answers[id].callId.Some? {
      var call := db.answers[id].callId.value;
      assert Names(db, id, call);
      SameFirst(db, Apply(db, w), id);
    }
    SameShare(db, Apply(db, w), id);
  }

  ghost predicate KeepsRow(db: Db, db': Db, i: nat, key: Key) {
    SameContribution(db, db', i, key.hour * SECONDS, (key.hour + 1) * SECONDS, key)
  }

  lemma AnswerRowKept(db: Db, seen: Db, w: Write, id: Id, key: Key)
    requires w.Answers? && Applies(db, w) && Covered(db, seen, w) && key.hour !in Dirty(w, Apply(seen, w))
    ensures KeepsRow(db, Apply(db, w), 2 * id, key)
  {
    hide Share, MeasuresOf, First, LogsSiblings, KeepsFirsts;
    if id in db.answers && id !in w.oldRows && HourOf(db.answers[id].createdAt) == key.hour {
      if w.op == Insert { InsertLeavesOthers(db, w, id); } else { UpdateLeavesOthers(db, seen, w, id); }
    }
  }

  lemma CallRowKept(db: Db, seen: Db, w: Write, id: Id, key: Key)
    requires w.Calls? && Applies(db, w) && Covered(db, seen, w) && key.hour !in Dirty(w, Apply(seen, w))
    ensures KeepsRow(db, Apply(db, w), 2 * id, key)
  {
    if id in db.answers && HourOf(db.answers[id].createdAt) == key.hour { CallsLeaveOthers(db, seen, w, id); }
  }

  lemma FetchRowKept(db: Db, seen: Db, w: Write, id: Id, key: Key)
    requires w.Fetches? && Applies(db, w) && key.hour !in Dirty(w, Apply(seen, w))
    ensures KeepsRow(db, Apply(db, w), 2 * id + 1, key)
  {
    hide AnswerEntry, MeasuresOf;
    assert (2 * id + 1) / 2 == id && (2 * id + 1) % 2 == 1;
  }

  lemma FetchRowIgnoresAnswers(db: Db, db': Db, id: Id, key: Key)
    requires db.fetches == db'.fetches
    ensures KeepsRow(db, db', 2 * id + 1, key)
  {
    assert (2 * id + 1) / 2 == id && (2 * id + 1) % 2 == 1;
  }

  lemma AnswerRowIgnoresFetches(db: Db, db': Db, id: Id, key: Key)
    requires db.answers == db'.answers && db.calls == db'.calls
    ensures KeepsRow(db, db', 2 * id, key)
  {
    if id in db.answers {
      assert First(db, id) == First(db', id);
    }
  }

  lemma RowKept(db: Db, seen: Db, w: Write, i: nat, key: Key)
    requires Applies(db, w) && Covered(db, seen, w) && key.hour !in Dirty(w, Apply(seen, w))
    ensures KeepsRow(db, Apply(db, w), i, key)
  {
    hide KeepsRow, Dirty, Covered, Applies;
    var id := i / 2;
    if i % 2 == 0 {
      assert i == 2 * id;
      match w {
        case Answers(_, _, _) => AnswerRowKept(db, seen, w, id, key);
        case Calls(_, _, _) => CallRowKept(db, seen, w, id, key);
        case Fetches(_, _, _) => AnswerRowIgnoresFetches(db, Apply(db, w), id, key);
      }
    } else {
      assert i == 2 * id + 1;
      if w.Fetches? {
        FetchRowKept(db, seen, w, id, key);
      } else {
        FetchRowIgnoresAnswers(db, Apply(db, w), id, key);
      }
    }
  }

  lemma CoveredHoursAreLogged(db: Db, seen: Db, w: Write, key: Key)
    requires Applies(db, w) && Covered(db, seen, w)
    ensures key.hour in Dirty(w, Apply(seen, w)) || HourGroup(Apply(db, w), key) == HourGroup(db, key)
  {
    hide Dirty, Covered, Applies, Apply, EntryAt, Contribution, SameContribution;
    if key.hour !in Dirty(w, Apply(seen, w)) {
      var db' := Apply(db, w);
      var lo, hi := key.hour * SECONDS, (key.hour + 1) * SECONDS;
      forall i: nat ensures SameContribution(db, db', i, lo, hi, key) {
        RowKept(db, seen, w, i, key);
        assert KeepsRow(db, db', i, key);
      }
      GroupDependsOnRows(db, db', lo, hi, key);
    }
  }

  /** Only logged hours change: every group of an hour the statement does not log is as before. */
  lemma ChangedHoursAreLogged(db: Db, seen: Db, w: Write, key: Key)
    requires Applies(db, w) && Orderly(db, seen, w)
    ensures key.hour in Dirty(w, Apply(seen, w)) || HourGroup(Apply(db, w), key) == HourGroup(db, key)
  {
    hide Dirty, Orderly, Applies, Apply, HourGroup, Covered;
    OrderlyIsCovered(db, seen, w);
    CoveredHoursAreLogged(db, seen, w, key);
  }

  // ---- and what writers keep to is needed ----------------------------------------------

  /** Every hour whose groups the statement changes is logged. */
  ghost predicate AllLogged(db: Db, seen: Db, w: Write) {
    forall key: Key :: key.hour in Dirty(w, Apply(seen, w)) || HourGroup(Apply(db, w), key) == HourGroup(db, key)
  }

  /** The counts and sums a group is told apart by, either way up. */
  datatype Counted = SumOf(column: Column) | UnknownCacheWrites | Unpriced

  datatype Tally = Tally(what: Counted, up: bool)

  function CountOf(what: Counted, m: Measures): int {
    match what
    case SumOf(column) => Amount(Of(m.usage, None, column))
    case UnknownCacheWrites => m.cacheWriteUnknown
    case Unpriced => m.unpriced
  }

  function Tallied(t: Tally, m: Measures): int { if t.up then CountOf(t.what, m) else -CountOf(t.what, m) }

  lemma AmountsAdd(a: Option<int>, b: Option<int>)
    ensures Amount(Plus(a, b)) == Amount(a) + Amount(b)
  {
  }

  lemma TalliesAdd(t: Tally, a: Measures, b: Measures)
    ensures Tallied(t, Add(a, b)) == Tallied(t, a) + Tallied(t, b) && Tallied(t, NOTHING) == 0
  {
    match t.what
    case SumOf(column) =>
      AmountsAdd(Of(a.usage, None, column), Of(b.usage, None, column));
      hide Plus, Least, Greatest;
    case UnknownCacheWrites => hide PlusUsage, Least, Greatest;
    case Unpriced => hide PlusUsage, Least, Greatest;
  }

  /** If no row's part of a tally grows and one row's falls, the group's falls. */
  lemma {:induction false} SumFalls(rows: seq<Option<Entry>>, rows': seq<Option<Entry>>, n: nat, lo: int, hi: int,
                                    key: Key, t: Tally, j: nat)
    requires n <= |rows| && n <= |rows'|
    requires forall i :: 0 <= i < n ==> Tallied(t, Contribution(rows'[i], lo, hi, key)) <= Tallied(t, Contribution(rows[i], lo, hi, key))
    requires j < n ==> Tallied(t, Contribution(rows'[j], lo, hi, key)) < Tallied(t, Contribution(rows[j], lo, hi, key))
    ensures Tallied(t, Sum(rows', n, lo, hi, key)) <= Tallied(t, Sum(rows, n, lo, hi, key))
    ensures j < n ==> Tallied(t, Sum(rows', n, lo, hi, key)) < Tallied(t, Sum(rows, n, lo, hi, key))
  {
    hide Add, Contribution, Tallied;
    if n > 0 {
      SumFalls(rows, rows', n - 1, lo, hi, key, t, j);
      TalliesAdd(t, Sum(rows, n - 1, lo, hi, key), Contribution(rows[n - 1], lo, hi, key));
      TalliesAdd(t, Sum(rows', n - 1, lo, hi, key), Contribution(rows'[n - 1], lo, hi, key));
    }
  }

  function PartOf(db: Db, i: nat, key: Key): Measures {
    Contribution(EntryAt(db, i), key.hour * SECONDS, (key.hour + 1) * SECONDS, key)
  }

  lemma GroupFalls(db: Db, db': Db, key: Key, t: Tally, j: nat)
    requires forall i: nat :: Tallied(t, PartOf(db', i, key)) <= Tallied(t, PartOf(db, i, key))
    requires Tallied(t, PartOf(db', j, key)) < Tallied(t, PartOf(db, j, key))
    ensures HourGroup(db', key) != HourGroup(db, key)
  {
    hide Add, EntryAt, Contribution, Tallied;
    var lo, hi := key.hour * SECONDS, (key.hour + 1) * SECONDS;
    var n := Bound(db) + Bound(db') + j + 1;
    GroupAtAnyBound(db, n, lo, hi, key);
    GroupAtAnyBound(db', n, lo, hi, key);
    forall i | 0 <= i < n
      ensures Tallied(t, Contribution(Rows(db', n)[i], lo, hi, key)) <= Tallied(t, Contribution(Rows(db, n)[i], lo, hi, key))
    {
      assert Tallied(t, PartOf(db', i, key)) <= Tallied(t, PartOf(db, i, key));
    }
    SumFalls(Rows(db, n), Rows(db', n), n, lo, hi, key, t, j);
  }

  function KeyOf(db: Db, id: Id): Key
    requires id in db.answers
  {
    Key(HourOf(db.answers[id].createdAt), AnswerEntry(db, id).dimensions)
  }

  /** An answer's row counts in its own group, with its share. */
  lemma OwnPart(db: Db, id: Id)
    requires id in db.answers
    ensures PartOf(db, 2 * id, KeyOf(db, id)) == AnswerEntry(db, id).measures
  {
  }

  lemma EvenPart(db: Db, i: nat, key: Key)
    ensures i % 2 == 0 ==> PartOf(db, i, key) == PartOf(db, 2 * (i / 2), key)
  {
  }

  // ---- a new answer --------------------------------------------------------------------

  function InsertOf(id: Id, a: Answer): Write { Answers(Insert, map[], map[id := a]) }

  /** Some column holds a number other than zero. */
  predicate Weighs(u: Usage) { exists column: Column :: Amount(Of(u, None, column)) != 0 }

  /** What tells a call's numbers from a sibling's zeros. */
  predicate ShowsFirst(u: Usage) { Weighs(u) || u.cacheWrite.None? }

  predicate Zeros(u: Usage) {
    u == Usage(Some(0), Some(0), Some(0), Some(0), Some(0), Some(0), u.cost) && (u.cost.Some? ==> u.cost.value == 0)
  }

  lemma FirstIsTold(u: Usage, zeros: Usage, status: Option<string>, at: int) returns (t: Tally)
    requires ShowsFirst(u) && Zeros(zeros)
    ensures Tallied(t, MeasuresOf(zeros, status, at)) < Tallied(t, MeasuresOf(u, status, at))
  {
    if column: Column :| Amount(Of(u, None, column)) != 0 {
      t := Tally(SumOf(column), Amount(Of(u, None, column)) > 0);
    } else {
      t := Tally(UnknownCacheWrites, true);
    }
  }

  lemma InsertedPart(db: Db, id: Id, a: Answer, o: Id, x: Id, key: Key)
    requires id !in db.answers && a.callId.Some? && Names(db, o, a.callId.value) && First(db, o)
    requires x != o && key.hour != HourOf(a.createdAt)
    ensures PartOf(Apply(db, InsertOf(id, a)), 2 * x, key) == PartOf(db, 2 * x, key)
  {
    var db' := Apply(db, InsertOf(id, a));
    if x != id && x in db.answers {
      if db.answers[x].callId == a.callId {
        assert db.answers[o].callId == db.answers[x].callId && o < x;
        assert db'.answers[o] == db.answers[o];
      } else if db.answers[x].callId.Some? {
        SameFirst(db, db', x);
      }
      SameShare(db, db', x);
    }
  }

  /** A single new answer to a call whose numbers are not all zeros: the triggers log every hour it
      changes exactly when it takes no first place in another hour. */
  lemma FirstsDecideInserts(db: Db, id: Id, a: Answer)
    requires id !in db.answers && a.callId.Some? && a.callId.value in db.calls
    requires ShowsFirst(db.calls[a.callId.value].usage)
    ensures AllLogged(db, db, InsertOf(id, a)) <==> KeepsFirsts(db, map[id := a])
  {
    var w := InsertOf(id, a);
    var db' := Apply(db, w);
    hide Weighs;
    if KeepsFirsts(db, map[id := a]) {
      forall key: Key ensures key.hour in Dirty(w, db') || HourGroup(db', key) == HourGroup(db, key) {
        ChangedHoursAreLogged(db, db, w, key);
      }
    } else {
      var o: Id :| Names(db, o, a.callId.value) && First(db, o) && id < o
                   && HourOf(db.answers[o].createdAt) !in AnswerHours(map[id := a]);
      assert HourOf(a.createdAt) in AnswerHours(map[id := a]) by { assert id in map[id := a]; }
      LostFirstPlace(db, id, a, o);
    }
  }

  lemma LostFirstPlace(db: Db, id: Id, a: Answer, o: Id)
    requires id !in db.answers && a.callId.Some? && a.callId.value in db.calls
    requires ShowsFirst(db.calls[a.callId.value].usage)
    requires Names(db, o, a.callId.value) && First(db, o) && id < o
    requires HourOf(db.answers[o].createdAt) != HourOf(a.createdAt)
    ensures KeyOf(db, o).hour !in Dirty(InsertOf(id, a), Apply(db, InsertOf(id, a)))
    ensures HourGroup(Apply(db, InsertOf(id, a)), KeyOf(db, o)) != HourGroup(db, KeyOf(db, o))
  {
    hide Tallied, MeasuresOf, Contribution, EntryAt, ShowsFirst, HourGroup;
    var w := InsertOf(id, a);
    var db' := Apply(db, w);
    var key := KeyOf(db, o);
    var call := db.calls[a.callId.value].usage;
    assert db'.answers[id].callId == db'.answers[o].callId && !First(db', o);
    var t := FirstIsTold(call, Siblings(db', a.callId.value), db.answers[o].status, db.answers[o].createdAt);
    OwnPart(db, o);
    OwnPart(db', o);
    assert AnswerEntry(db, o).measures == MeasuresOf(call, db.answers[o].status, db.answers[o].createdAt);
    assert AnswerEntry(db', o).measures
        == MeasuresOf(Siblings(db', a.callId.value), db.answers[o].status, db.answers[o].createdAt);
    forall i: nat ensures Tallied(t, PartOf(db', i, key)) <= Tallied(t, PartOf(db, i, key)) {
      EvenPart(db, i, key);
      EvenPart(db', i, key);
      if i % 2 == 0 && i / 2 != o { InsertedPart(db, id, a, o, i / 2, key); }
      if i % 2 == 1 { FetchPart(db, w, i, key); }
    }
    GroupFalls(db, db', key, t, 2 * o);
  }

  lemma FetchPart(db: Db, w: Write, i: nat, key: Key)
    requires !w.Fetches? && i % 2 == 1
    ensures PartOf(Apply(db, w), i, key) == PartOf(db, i, key)
  {
  }

  // ---- a late call ---------------------------------------------------------------------

  function InsertCallOf(id: Id, c: Call): Write { Calls(Insert, map[], map[id := c]) }

  /** What tells a call's numbers from there being no call. */
  predicate ShowsCall(u: Usage) { Weighs(u) || u.cost.Some? || u.cacheWrite.Some? }

  /** A new call with anything to show: the triggers, none of which fires, log every hour it changes
      exactly when no answer names it yet. */
  lemma NamesDecideCallInserts(db: Db, id: Id, c: Call)
    requires id !in db.calls && ShowsCall(c.usage)
    ensures AllLogged(db, db, InsertCallOf(id, c)) <==> NotYetNamed(db, map[id := c])
  {
    var w := InsertCallOf(id, c);
    hide ShowsCall;
    if NotYetNamed(db, map[id := c]) {
      forall key: Key ensures key.hour in Dirty(w, Apply(db, w)) || HourGroup(Apply(db, w), key) == HourGroup(db, key) {
        ChangedHoursAreLogged(db, db, w, key);
      }
    } else {
      var o: Id :| Names(db, o, id);
      var least := LeastNaming(db, id, o);
      LateCall(db, id, c, least);
    }
  }

  /** Some answer is the first to name a named call. */
  lemma {:induction false} LeastNaming(db: Db, call: Id, o: Id) returns (least: Id)
    requires Names(db, o, call)
    ensures Names(db, least, call) && First(db, least)
    decreases o
  {
    least := o;
    if !First(db, o) {
      var x :| x in db.answers && db.answers[x].callId == db.answers[o].callId && x < o;
      least := LeastNaming(db, call, x);
    }
  }

  /** A tally in which the call's first answer rises from nothing, and its siblings do not fall. */
  predicate Rises(t: Tally, u: Usage) {
    match t.what
    case SumOf(column) => Amount(Of(u, None, column)) != 0 && t.up == (Amount(Of(u, None, column)) > 0)
    case UnknownCacheWrites => u.cacheWrite.Some? && !t.up
    case Unpriced => u.cost.Some? && !t.up
  }

  lemma LateCall(db: Db, id: Id, c: Call, o: Id)
    requires id !in db.calls && ShowsCall(c.usage)
    requires Names(db, o, id) && First(db, o)
    ensures HourGroup(Apply(db, InsertCallOf(id, c)), KeyOf(db, o)) != HourGroup(db, KeyOf(db, o))
  {
    var w := InsertCallOf(id, c);
    var db' := Apply(db, w);
    var key := KeyOf(db, o);
    var t := Tally(UnknownCacheWrites, false);
    if column: Column :| Amount(Of(c.usage, None, column)) != 0 {
      t := Tally(SumOf(column), Amount(Of(c.usage, None, column)) > 0);
    } else if c.usage.cost.Some? {
      t := Tally(Unpriced, false);
    }
    assert Rises(t, c.usage);
    LateCallPart(db, id, c, o, key, t);
    hide Tallied, Contribution, EntryAt, Rises, HourGroup;
    forall i: nat ensures Tallied(t, PartOf(db, i, key)) <= Tallied(t, PartOf(db', i, key)) {
      EvenPart(db, i, key);
      EvenPart(db', i, key);
      if i % 2 == 0 { LateCallPart(db, id, c, i / 2, key, t); } else { FetchPart(db, w, i, key); }
    }
    GroupFalls(db', db, key, t, 2 * o);
  }

  lemma LateCallPart(db: Db, id: Id, c: Call, x: Id, key: Key, t: Tally)
    requires id !in db.calls && Rises(t, c.usage)
    ensures Tallied(t, PartOf(db, 2 * x, key)) <= Tallied(t, PartOf(Apply(db, InsertCallOf(id, c)), 2 * x, key))
    ensures Names(db, x, id) && First(db, x) && key == KeyOf(db, x) ==>
              Tallied(t, PartOf(db, 2 * x, key)) < Tallied(t, PartOf(Apply(db, InsertCallOf(id, c)), 2 * x, key))
  {
    var db' := Apply(db, InsertCallOf(id, c));
    if x in db.answers {
      assert First(db, x) == First(db', x);
      if db.answers[x].callId != Some(id) {
        SameShare(db, db', x);
      } else {
        LateShare(db, id, c, x, t);
      }
    }
  }

  lemma LateShare(db: Db, id: Id, c: Call, x: Id, t: Tally)
    requires id !in db.calls && Rises(t, c.usage) && Names(db, x, id)
    ensures var before, after := AnswerEntry(db, x), AnswerEntry(Apply(db, InsertCallOf(id, c)), x);
            && before.at == after.at && before.dimensions == after.dimensions
            && Tallied(t, before.measures) <= Tallied(t, after.measures)
            && (First(db, x) ==> Tallied(t, before.measures) < Tallied(t, after.measures))
  {
    assert First(db, x) == First(Apply(db, InsertCallOf(id, c)), x);
  }

  // ---- an overlapping writer -----------------------------------------------------------

  function PriceOf(db: Db, call: Id, price: int): Write
    requires call in db.calls
  {
    var c := db.calls[call];
    Calls(Update, map[call := c], map[call := c.(usage := c.usage.(cost := Some(price)))])
  }

  /** Every answer naming the call as the statement commits shares its hour with one the statement's
      snapshot holds. */
  ghost predicate HoursSeen(db: Db, seen: Db, call: Id) {
    forall o: Id :: Names(db, o, call) ==> HourIsSeen(seen, call, HourOf(db.answers[o].createdAt))
  }

  ghost predicate HourIsSeen(seen: Db, call: Id, hour: Hour) {
    exists x: Id :: Names(seen, x, call) && HourOf(seen.answers[x].createdAt) == hour
  }

  lemma SeenHoursAreLogged(db: Db, seen: Db, call: Id, price: int)
    requires call in db.calls
    ensures LogsSiblings(db, seen, PriceOf(db, call, price)) <==> HoursSeen(db, seen, call)
  {
    var w := PriceOf(db, call, price);
    forall hour: Hour ensures hour in Dirty(w, Apply(seen, w)) <==> HourIsSeen(seen, call, hour) {
      if x: Id :| Names(seen, x, call) && HourOf(seen.answers[x].createdAt) == hour {
        assert x in Apply(seen, w).answers;
      }
    }
    assert call in Touched(w);
  }

  /** Pricing a call that had no price: the trigger logs every hour it changes exactly when every
      answer naming the call as the statement commits shares its hour with one the trigger saw. An
      overlapping writer's answer, in an hour of its own, is what breaks this. */
  lemma SiblingsDecidePricing(db: Db, seen: Db, call: Id, price: int)
    requires call in db.calls && db.calls[call].usage.cost.None?
    ensures AllLogged(db, seen, PriceOf(db, call, price)) <==> HoursSeen(db, seen, call)
  {
    var w := PriceOf(db, call, price);
    SeenHoursAreLogged(db, seen, call, price);
    if LogsSiblings(db, seen, w) {
      forall key: Key ensures key.hour in Dirty(w, Apply(seen, w)) || HourGroup(Apply(db, w), key) == HourGroup(db, key) {
        CoveredHoursAreLogged(db, seen, w, key);
      }
    } else {
      var o: Id :| Names(db, o, call) && HourOf(db.answers[o].createdAt) !in Dirty(w, Apply(seen, w));
      PricedUnseen(db, call, price, o);
    }
  }

  lemma PricedUnseen(db: Db, call: Id, price: int, o: Id)
    requires call in db.calls && db.calls[call].usage.cost.None?
    requires Names(db, o, call)
    ensures HourGroup(Apply(db, PriceOf(db, call, price)), KeyOf(db, o)) != HourGroup(db, KeyOf(db, o))
  {
    var w := PriceOf(db, call, price);
    var db' := Apply(db, w);
    var key := KeyOf(db, o);
    var t := Tally(Unpriced, true);
    PricedPart(db, call, price, o, key);
    hide Tallied, Contribution, EntryAt, HourGroup;
    forall i: nat ensures Tallied(t, PartOf(db', i, key)) <= Tallied(t, PartOf(db, i, key)) {
      EvenPart(db, i, key);
      EvenPart(db', i, key);
      if i % 2 == 0 { PricedPart(db, call, price, i / 2, key); } else { FetchPart(db, w, i, key); }
    }
    GroupFalls(db, db', key, t, 2 * o);
  }

  lemma PricedPart(db: Db, call: Id, price: int, x: Id, key: Key)
    requires call in db.calls && db.calls[call].usage.cost.None?
    ensures var t := Tally(Unpriced, true);
            var before, after := PartOf(db, 2 * x, key), PartOf(Apply(db, PriceOf(db, call, price)), 2 * x, key);
            && Tallied(t, after) <= Tallied(t, before)
            && (Names(db, x, call) && key == KeyOf(db, x) ==> Tallied(t, after) < Tallied(t, before))
  {
    var db' := Apply(db, PriceOf(db, call, price));
    if x in db.answers {
      assert First(db, x) == First(db', x);
      if db.answers[x].callId != Some(call) { SameShare(db, db', x); }
    }
  }
}
