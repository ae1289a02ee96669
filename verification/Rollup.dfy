/** The ledger summed per UTC hour (src/api/ledger_rollup.py) and the triggers that log the hours
    a write changes (alembic/versions/d4428913f75e): a cache whose every read is exact. */
module Rollup {
  import opened Options
  import opened Ledger
  import Extremes

  type Hour = int

  const SECONDS := 3600

  /** date_trunc('hour', t, 'UTC'), as the hour's number. */
  function HourOf(t: int): Hour { t / SECONDS }

  // ---- measures ------------------------------------------------------------------------

  datatype Dimensions = Dimensions(
    arm: Arm, model: Option<string>, checkType: Option<string>, status: Option<string>,
    configName: Option<string>, promptHash: Option<string>, batched: bool)

  datatype Key = Key(hour: Hour, dimensions: Dimensions)

  datatype Measures = Measures(
    answers: nat, unpriced: nat, cacheWriteUnknown: nat, jointCallRows: nat,
    usage: Usage, firstAt: Option<int>, lastAt: Option<int>)

  /** A group of no rows: it has no row in the table and none in a result. */
  const NOTHING := Measures(0, 0, 0, 0, NO_USAGE, None, None)

  function Plus(a: Option<int>, b: Option<int>): Option<int> {
    if a.None? then b else if b.None? then a else Some(a.value + b.value)
  }

  function Least(a: Option<int>, b: Option<int>): Option<int> {
    if a.None? then b else if b.None? || a.value <= b.value then a else b
  }

  function Greatest(a: Option<int>, b: Option<int>): Option<int> {
    if a.None? then b else if b.None? || a.value >= b.value then a else b
  }

  function PlusUsage(a: Usage, b: Usage): Usage {
    Usage(Plus(a.prompt, b.prompt), Plus(a.completion, b.completion), Plus(a.total, b.total),
          Plus(a.cached, b.cached), Plus(a.cacheWrite, b.cacheWrite), Plus(a.reasoning, b.reasoning),
          Plus(a.cost, b.cost))
  }

  function Add(a: Measures, b: Measures): Measures {
    Measures(a.answers + b.answers, a.unpriced + b.unpriced, a.cacheWriteUnknown + b.cacheWriteUnknown,
             a.jointCallRows + b.jointCallRows, PlusUsage(a.usage, b.usage),
             Least(a.firstAt, b.firstAt), Greatest(a.lastAt, b.lastAt))
  }

  lemma PlusLaws(a: Option<int>, b: Option<int>, c: Option<int>)
    ensures Plus(Plus(a, b), c) == Plus(a, Plus(b, c)) && Plus(a, b) == Plus(b, a)
  {
  }

  lemma BoundLaws(a: Option<int>, b: Option<int>, c: Option<int>)
    ensures Least(Least(a, b), c) == Least(a, Least(b, c)) && Least(a, b) == Least(b, a)
    ensures Greatest(Greatest(a, b), c) == Greatest(a, Greatest(b, c)) && Greatest(a, b) == Greatest(b, a)
  {
  }

  lemma AddLaws(a: Measures, b: Measures, c: Measures)
    ensures Add(Add(a, b), c) == Add(a, Add(b, c)) && Add(a, b) == Add(b, a)
  {
    PlusLaws(a.usage.prompt, b.usage.prompt, c.usage.prompt);
    PlusLaws(a.usage.completion, b.usage.completion, c.usage.completion);
    PlusLaws(a.usage.total, b.usage.total, c.usage.total);
    PlusLaws(a.usage.cached, b.usage.cached, c.usage.cached);
    PlusLaws(a.usage.cacheWrite, b.usage.cacheWrite, c.usage.cacheWrite);
    PlusLaws(a.usage.reasoning, b.usage.reasoning, c.usage.reasoning);
    PlusLaws(a.usage.cost, b.usage.cost, c.usage.cost);
    BoundLaws(a.firstAt, b.firstAt, c.firstAt);
    BoundLaws(a.lastAt, b.lastAt, c.lastAt);
  }

  lemma AddNothing(a: Measures)
    ensures Add(a, NOTHING) == a == Add(NOTHING, a)
  {
  }

  // ---- one ledger row as the aggregate sees it -----------------------------------------

  datatype Entry = Entry(at: int, dimensions: Dimensions, measures: Measures)

  /** COUNT(*) and its FILTERs, over one row. */
  function MeasuresOf(usage: Usage, status: Option<string>, at: int): Measures {
    Measures(1, One(usage.cost.None?), One(usage.cacheWrite.None?),
             One(usage.total.OrElse(0) == 0 && status in {Some("passed"), Some("rejected")}),
             usage, Some(at), Some(at))
  }

  function AnswerEntry(db: Db, id: Id): Entry
    requires id in db.answers
  {
    var a := db.answers[id];
    Entry(a.createdAt,
          Dimensions(AnswerArm, a.model, a.checkType, a.status, a.configName, a.promptHash, a.batchId.Some?),
          MeasuresOf(Share(db, id), a.status, a.createdAt))
  }

  function FetchEntry(f: Fetch): Entry {
    Entry(f.createdAt,
          Dimensions(FetchArm, None, Some("content"), Some(f.status), Some("content-cache"), None, false),
          MeasuresOf(NO_USAGE, Some(f.status), f.createdAt))
  }

  /** The ledger's rows in one numbering: answer n at 2n, fetch n at 2n + 1. */
  function EntryAt(db: Db, i: nat): Option<Entry> {
    if i % 2 == 0 then
      if i / 2 in db.answers then Some(AnswerEntry(db, i / 2)) else None
    else if i / 2 in db.fetches && Differs(db.fetches[i / 2].fetchedBy, "verification") == True
         then Some(FetchEntry(db.fetches[i / 2])) else None
  }

  predicate Counts(e: Option<Entry>, lo: int, hi: int, key: Key) {
    e.Some? && lo <= e.value.at < hi && Key(HourOf(e.value.at), e.value.dimensions) == key
  }

  function Contribution(e: Option<Entry>, lo: int, hi: int, key: Key): Measures {
    if Counts(e, lo, hi, key) then e.value.measures else NOTHING
  }

  /** SUM, COUNT, MIN and MAX over the first n rows, those in [lo, hi) that fall in a group. */
  function Sum(rows: seq<Option<Entry>>, n: nat, lo: int, hi: int, key: Key): Measures
    requires n <= |rows|
  {
    if n == 0 then NOTHING else Add(Sum(rows, n - 1, lo, hi, key), Contribution(rows[n - 1], lo, hi, key))
  }

  ghost predicate Covers(db: Db, n: nat) {
    && (forall id :: id in db.answers ==> 2 * id < n)
    && (forall id :: id in db.fetches ==> 2 * id + 1 < n)
  }

  function MaxOf(s: set<nat>): (m: nat)
    ensures forall i :: i in s ==> i <= m
  {
    if s == {} then 0 else Extremes.Greatest(s)
  }

  /** A number no row reaches. */
  function Bound(db: Db): (n: nat)
    ensures Covers(db, n)
  {
    var a, f := MaxOf(db.answers.Keys), MaxOf(db.fetches.Keys);
    assert forall id :: id in db.answers ==> id in db.answers.Keys;
    assert forall id :: id in db.fetches ==> id in db.fetches.Keys;
    2 * (a + f) + 2
  }

  function Rows(db: Db, n: nat): seq<Option<Entry>> { seq(n, i requires i >= 0 => EntryAt(db, i)) }

  /** One group of the aggregate over [lo, hi). */
  function Group(db: Db, lo: int, hi: int, key: Key): Measures {
    Sum(Rows(db, Bound(db)), Bound(db), lo, hi, key)
  }

  function HourGroup(db: Db, key: Key): Measures {
    Group(db, key.hour * SECONDS, (key.hour + 1) * SECONDS, key)
  }

  lemma {:induction false} SumStable(rows: seq<Option<Entry>>, n: nat, m: nat, lo: int, hi: int, key: Key)
    requires n <= m <= |rows| && forall i :: n <= i < m ==> rows[i] == None
    ensures Sum(rows, m, lo, hi, key) == Sum(rows, n, lo, hi, key)
  {
    if n < m {
      SumStable(rows, n, m - 1, lo, hi, key);
      AddNothing(Sum(rows, n, lo, hi, key));
    }
  }

  lemma ContributionSplits(e: Option<Entry>, lo: int, mid: int, hi: int, key: Key)
    requires lo <= mid <= hi
    ensures Contribution(e, lo, hi, key) == Add(Contribution(e, lo, mid, key), Contribution(e, mid, hi, key))
  {
    AddNothing(Contribution(e, lo, hi, key));
  }

  /** Cutting a range in two cuts every group in two. */
  lemma {:induction false} SumSplits(rows: seq<Option<Entry>>, n: nat, lo: int, mid: int, hi: int, key: Key)
    requires n <= |rows| && lo <= mid <= hi
    ensures Sum(rows, n, lo, hi, key) == Add(Sum(rows, n, lo, mid, key), Sum(rows, n, mid, hi, key))
  {
    if n == 0 {
      AddNothing(NOTHING);
    } else {
      var e := rows[n - 1];
      SumSplits(rows, n - 1, lo, mid, hi, key);
      ContributionSplits(e, lo, mid, hi, key);
      Exchange(Sum(rows, n - 1, lo, mid, key), Sum(rows, n - 1, mid, hi, key),
               Contribution(e, lo, mid, key), Contribution(e, mid, hi, key));
    }
  }

  lemma Exchange(a: Measures, b: Measures, x: Measures, y: Measures)
    ensures Add(Add(a, b), Add(x, y)) == Add(Add(a, x), Add(b, y))
  {
    AddLaws(a, b, Add(x, y));
    AddLaws(b, x, y);
    AddLaws(x, b, y);
    AddLaws(a, x, Add(b, y));
  }

  predicate OutsideHour(lo: int, hi: int, hour: Hour) {
    hi <= hour * SECONDS || (hour + 1) * SECONDS <= lo || hi <= lo
  }

  lemma NoContribution(e: Option<Entry>, lo: int, hi: int, key: Key)
    requires OutsideHour(lo, hi, key.hour)
    ensures Contribution(e, lo, hi, key) == NOTHING
  {
  }

  lemma {:induction false} SumOfNothing(rows: seq<Option<Entry>>, n: nat, lo: int, hi: int, key: Key)
    requires n <= |rows| && forall i :: 0 <= i < n ==> Contribution(rows[i], lo, hi, key) == NOTHING
    ensures Sum(rows, n, lo, hi, key) == NOTHING
  {
    hide Add;
    if n > 0 {
      SumOfNothing(rows, n - 1, lo, hi, key);
      AddNothing(NOTHING);
    }
  }

  /** Equal contributions row by row give equal sums. */
  lemma {:induction false} SumDependsOnRows(rows: seq<Option<Entry>>, rows': seq<Option<Entry>>, n: nat, lo: int, hi: int, key: Key)
    requires n <= |rows| && n <= |rows'|
    requires forall i :: 0 <= i < n ==> Contribution(rows[i], lo, hi, key) == Contribution(rows'[i], lo, hi, key)
    ensures Sum(rows, n, lo, hi, key) == Sum(rows', n, lo, hi, key)
  {
    if n > 0 { SumDependsOnRows(rows, rows', n - 1, lo, hi, key); }
  }

  lemma GroupAtAnyBound(db: Db, n: nat, lo: int, hi: int, key: Key)
    requires Bound(db) <= n
    ensures Group(db, lo, hi, key) == Sum(Rows(db, n), n, lo, hi, key)
  {
    var b := Bound(db);
    forall i | b <= i < n ensures Rows(db, n)[i] == None { NoRowBeyond(db, b, i); }
    SumStable(Rows(db, n), b, n, lo, hi, key);
    SumDependsOnRows(Rows(db, b), Rows(db, n), b, lo, hi, key);
  }

  lemma NoRowBeyond(db: Db, n: nat, i: nat)
    requires Covers(db, n) && n <= i
    ensures EntryAt(db, i) == None
  {
  }

  ghost predicate SameContribution(db: Db, db': Db, i: nat, lo: int, hi: int, key: Key) {
    Contribution(EntryAt(db, i), lo, hi, key) == Contribution(EntryAt(db', i), lo, hi, key)
  }

  /** A group of two databases is the same when every row that counts in it is. */
  lemma GroupDependsOnRows(db: Db, db': Db, lo: int, hi: int, key: Key)
    requires forall i: nat :: SameContribution(db, db', i, lo, hi, key)
    ensures Group(db, lo, hi, key) == Group(db', lo, hi, key)
  {
    hide EntryAt, Contribution, Add;
    var n := if Bound(db) < Bound(db') then Bound(db') else Bound(db);
    GroupAtAnyBound(db, n, lo, hi, key);
    GroupAtAnyBound(db', n, lo, hi, key);
    forall i | 0 <= i < n
      ensures Contribution(Rows(db, n)[i], lo, hi, key) == Contribution(Rows(db', n)[i], lo, hi, key)
    {
      assert SameContribution(db, db', i, lo, hi, key);
    }
    SumDependsOnRows(Rows(db, n), Rows(db', n), n, lo, hi, key);
  }

  lemma GroupSplits(db: Db, lo: int, mid: int, hi: int, key: Key)
    requires lo <= mid <= hi
    ensures Group(db, lo, hi, key) == Add(Group(db, lo, mid, key), Group(db, mid, hi, key))
  {
    SumSplits(Rows(db, Bound(db)), Bound(db), lo, mid, hi, key);
  }

  /** A group holds rows of its own hour only. */
  lemma GroupOutsideHour(db: Db, lo: int, hi: int, key: Key)
    requires OutsideHour(lo, hi, key.hour)
    ensures Group(db, lo, hi, key) == NOTHING
  {
    var n := Bound(db);
    var rows := Rows(db, n);
    forall i | 0 <= i < n ensures Contribution(rows[i], lo, hi, key) == NOTHING {
      NoContribution(rows[i], lo, hi, key);
    }
    SumOfNothing(rows, n, lo, hi, key);
  }
}
