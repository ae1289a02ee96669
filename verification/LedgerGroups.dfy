/** What a row of the view, a group of the hourly ledger and a read say, told of the answers, calls and
    fetches themselves (src/api/ledger_rollup.py, alembic/versions/a0e5b60bf58d). */
module LedgerGroups {
  import opened Options
  import opened Ledger
  import opened Rollup
  import opened RollupRefresh
  import Extremes

  // ---- an answer's numbers -------------------------------------------------------------

  /** An answer before it names its call. */
  predicate HasElder(db: Db, id: Id) {
    id in db.answers && db.answers[id].callId.Some?
    && exists o :: o in db.answers && o < id && db.answers[o].callId == db.answers[id].callId
  }

  function CallOf(db: Db, id: Id): Option<Call> {
    if id in db.answers && db.answers[id].callId.Some? && db.answers[id].callId.value in db.calls
    then Some(db.calls[db.answers[id].callId.value]) else None
  }

  /** NULL of an answer that names no call; of a call's first answer the call's number; of the others
      zero, but no duration, and no cost where the call has none. */
  function Given(db: Db, id: Id, column: Column): Option<int> {
    if id !in db.answers || db.answers[id].callId.None? then None
    else if !HasElder(db, id) then
      if CallOf(db, id).Some? then Of(CallOf(db, id).value.usage, CallOf(db, id).value.durationMs, column) else None
    else if column == Duration then None
    else if column == Cost then
      if CallOf(db, id).Some? && CallOf(db, id).value.usage.cost.Some? then Some(0) else None
    else Some(0)
  }

  lemma FirstHasNoElder(db: Db, id: Id)
    requires id in db.answers && db.answers[id].callId.Some?
    ensures First(db, id) <==> !HasElder(db, id)
  {
  }

  lemma SharesAreGiven(db: Db, id: Id, column: Column)
    requires id in db.answers
    ensures Of(AnswerRow(db, id).usage, AnswerRow(db, id).durationMs, column) == Given(db, id, column)
  {
    if db.answers[id].callId.Some? { FirstHasNoElder(db, id); }
  }

  /** The row lists the answer's own columns and, of its call's, those it is given. */
  predicate AnswerLists(db: Db, row: Row) {
    && row.id in db.answers
    && var a := db.answers[row.id];
       && row.createdAt == a.createdAt && row.configName == a.configName && row.checkType == a.checkType
       && row.status == a.status && row.reason == a.reason && row.model == a.model && row.promptHash == a.promptHash
       && row.batchId == a.batchId && row.others == a.others
       && forall column :: Of(row.usage, row.durationMs, column) == Given(db, row.id, column)
  }

  /** The row lists a fetch by a known method that is no verification copy; it has no call's numbers. */
  predicate FetchLists(db: Db, row: Row) {
    && row.id in db.fetches
    && var f := db.fetches[row.id];
       && f.fetchedBy.Some? && f.fetchedBy.value != "verification"
       && row.createdAt == f.createdAt && row.configName == Some("content-cache") && row.checkType == Some("content")
       && row.status == Some(f.status) && row.reason == f.fetchedBy && row.model == None && row.promptHash == None
       && row.batchId == None && row.others == f.others
       && forall column :: Of(row.usage, row.durationMs, column) == None
  }

  lemma RowsOfColumns(usage: Usage, durationMs: Option<int>, usage': Usage, durationMs': Option<int>)
    requires forall column :: Of(usage, durationMs, column) == Of(usage', durationMs', column)
    ensures usage == usage' && durationMs == durationMs'
  {
    assert Of(usage, durationMs, Prompt) == Of(usage', durationMs', Prompt);
    assert Of(usage, durationMs, Completion) == Of(usage', durationMs', Completion);
    assert Of(usage, durationMs, Total) == Of(usage', durationMs', Total);
    assert Of(usage, durationMs, Cached) == Of(usage', durationMs', Cached);
    assert Of(usage, durationMs, CacheWrite) == Of(usage', durationMs', CacheWrite);
    assert Of(usage, durationMs, Reasoning) == Of(usage', durationMs', Reasoning);
    assert Of(usage, durationMs, Cost) == Of(usage', durationMs', Cost);
    assert Of(usage, durationMs, Duration) == Of(usage', durationMs', Duration);
  }

  /** The view lists a row once for an answer and once for a fetch that it lists, and no other row. */
  lemma ViewLists(db: Db, row: Row)
    ensures SealedTimes(db, row) == One(AnswerLists(db, row)) + One(FetchLists(db, row))
  {
    if row.id in db.answers {
      forall column ensures Of(AnswerRow(db, row.id).usage, AnswerRow(db, row.id).durationMs, column) == Given(db, row.id, column) {
        SharesAreGiven(db, row.id, column);
      }
      if AnswerLists(db, row) {
        RowsOfColumns(row.usage, row.durationMs, AnswerRow(db, row.id).usage, AnswerRow(db, row.id).durationMs);
      }
    }
    if FetchLists(db, row) { RowsOfColumns(row.usage, row.durationMs, NO_USAGE, None); }
  }

  // ---- the rows of a group -------------------------------------------------------------

  predicate InWindow(at: int, start: Option<int>, end: Option<int>) {
    (start.Some? ==> start.value <= at) && (end.Some? ==> at < end.value)
  }

  predicate InHour(at: int, hour: Hour) { hour * 3600 <= at < hour * 3600 + 3600 }

  predicate AnswerFits(a: Answer, d: Dimensions) {
    && d.arm == AnswerArm && d.model == a.model && d.checkType == a.checkType && d.status == a.status
    && d.configName == a.configName && d.promptHash == a.promptHash && (d.batched <==> a.batchId.Some?)
  }

  predicate FetchFits(f: Fetch, d: Dimensions) {
    && d.arm == FetchArm && d.model == None && d.checkType == Some("content") && d.status == Some(f.status)
    && d.configName == Some("content-cache") && d.promptHash == None && !d.batched
  }

  function AnswersIn(db: Db, start: Option<int>, end: Option<int>, key: Key): set<Id> {
    set id | id in db.answers && InWindow(db.answers[id].createdAt, start, end)
             && InHour(db.answers[id].createdAt, key.hour) && AnswerFits(db.answers[id], key.dimensions)
  }

  /** A fetch of no known method is not counted, nor is a verification copy. */
  function FetchesIn(db: Db, start: Option<int>, end: Option<int>, key: Key): set<Id> {
    set id | id in db.fetches && InWindow(db.fetches[id].createdAt, start, end)
             && InHour(db.fetches[id].createdAt, key.hour) && FetchFits(db.fetches[id], key.dimensions)
             && db.fetches[id].fetchedBy.Some? && db.fetches[id].fetchedBy.value != "verification"
  }

  // ---- what a group says of its rows ---------------------------------------------------

  function Unpriced(db: Db, ids: set<Id>): set<Id> { set id | id in ids && Given(db, id, Cost) == None }

  function WritesUnknown(db: Db, ids: set<Id>): set<Id> { set id | id in ids && Given(db, id, CacheWrite) == None }

  predicate Verdict(status: Option<string>) { status == Some("passed") || status == Some("rejected") }

  /** An answer with a verdict and no tokens. */
  predicate IsJoint(db: Db, id: Id) {
    id in db.answers && Verdict(db.answers[id].status) && Given(db, id, Total) in {None, Some(0)}
  }

  function Joint(db: Db, ids: set<Id>): set<Id> { set id | id in ids && IsJoint(db, id) }

  function JointFetches(db: Db, ids: set<Id>): set<Id> {
    set id | id in ids && id in db.fetches && Verdict(Some(db.fetches[id].status))
  }

  function TotalOf(db: Db, ids: set<Id>, column: Column): int {
    if ids == {} then 0
    else
      var id := Extremes.Greatest(ids);
      TotalOf(db, ids - {id}, column) + Given(db, id, column).OrElse(0)
  }

  /** SUM: NULL of no number. */
  predicate SumsTo(db: Db, ids: set<Id>, column: Column, sum: Option<int>) {
    && (sum == None <==> forall id :: id in ids ==> Given(db, id, column) == None)
    && sum.OrElse(0) == TotalOf(db, ids, column)
  }

  predicate TellsCounts(db: Db, answers: set<Id>, fetches: set<Id>, m: Measures) {
    && m.answers == |answers| + |fetches|
    && m.unpriced == |Unpriced(db, answers)| + |fetches|
    && m.cacheWriteUnknown == |WritesUnknown(db, answers)| + |fetches|
    && m.jointCallRows == |Joint(db, answers)| + |JointFetches(db, fetches)|
  }

  predicate TellsUsage(db: Db, answers: set<Id>, m: Measures) {
    && SumsTo(db, answers, Prompt, m.usage.prompt)
    && SumsTo(db, answers, Completion, m.usage.completion)
    && SumsTo(db, answers, Total, m.usage.total)
    && SumsTo(db, answers, Cached, m.usage.cached)
    && SumsTo(db, answers, CacheWrite, m.usage.cacheWrite)
    && SumsTo(db, answers, Reasoning, m.usage.reasoning)
    && SumsTo(db, answers, Cost, m.usage.cost)
  }

  predicate RowAt(db: Db, answers: set<Id>, fetches: set<Id>, at: int) {
    || (exists id :: id in answers && id in db.answers && db.answers[id].createdAt == at)
    || (exists id :: id in fetches && id in db.fetches && db.fetches[id].createdAt == at)
  }

  /** `bound` is the time of a row, and no row's time is on its far side. */
  ghost predicate TellsFirst(db: Db, answers: set<Id>, fetches: set<Id>, bound: Option<int>) {
    && (bound.Some? ==> RowAt(db, answers, fetches, bound.value))
    && forall at :: RowAt(db, answers, fetches, at) ==> bound.Some? && bound.value <= at
  }

  ghost predicate TellsLast(db: Db, answers: set<Id>, fetches: set<Id>, bound: Option<int>) {
    && (bound.Some? ==> RowAt(db, answers, fetches, bound.value))
    && forall at :: RowAt(db, answers, fetches, at) ==> bound.Some? && at <= bound.value
  }

  ghost predicate Tells(db: Db, answers: set<Id>, fetches: set<Id>, m: Measures) {
    && TellsCounts(db, answers, fetches, m) && TellsUsage(db, answers, m)
    && TellsFirst(db, answers, fetches, m.firstAt) && TellsLast(db, answers, fetches, m.lastAt)
  }

  /** There is one way to tell it. */
  lemma TellsOne(db: Db, answers: set<Id>, fetches: set<Id>, m: Measures, m': Measures)
    requires Tells(db, answers, fetches, m) && Tells(db, answers, fetches, m')
    ensures m == m'
  {
    hide RowAt, SumsTo;
    SumsOne(db, answers, Prompt, m.usage.prompt, m'.usage.prompt);
    SumsOne(db, answers, Completion, m.usage.completion, m'.usage.completion);
    SumsOne(db, answers, Total, m.usage.total, m'.usage.total);
    SumsOne(db, answers, Cached, m.usage.cached, m'.usage.cached);
    SumsOne(db, answers, CacheWrite, m.usage.cacheWrite, m'.usage.cacheWrite);
    SumsOne(db, answers, Reasoning, m.usage.reasoning, m'.usage.reasoning);
    SumsOne(db, answers, Cost, m.usage.cost, m'.usage.cost);
  }

  lemma SumsOne(db: Db, ids: set<Id>, column: Column, a: Option<int>, b: Option<int>)
    requires SumsTo(db, ids, column, a) && SumsTo(db, ids, column, b)
    ensures a == b
  {
  }

  // ---- one row more --------------------------------------------------------------------

  lemma TotalMore(db: Db, ids: set<Id>, id: Id, column: Column)
    requires forall x :: x in ids ==> x < id
    ensures TotalOf(db, ids + {id}, column) == TotalOf(db, ids, column) + Given(db, id, column).OrElse(0)
  {
    assert Extremes.Greatest(ids + {id}) == id;
    assert ids + {id} - {id} == ids;
  }

  lemma SumsMore(db: Db, ids: set<Id>, id: Id, column: Column, sum: Option<int>)
    requires SumsTo(db, ids, column, sum) && forall x :: x in ids ==> x < id
    ensures SumsTo(db, ids + {id}, column, Plus(sum, Given(db, id, column)))
  {
    hide Given;
    TotalMore(db, ids, id, column);
    assert forall x :: x in ids + {id} <==> x in ids || x == id;
    assert id in ids + {id};
  }

  /** What an answer adds to the counts. */
  lemma EntryCounts(db: Db, id: Id)
    requires id in db.answers
    ensures var m := AnswerEntry(db, id).measures;
            && m.answers == 1 && m.unpriced == One(Given(db, id, Cost) == None)
            && m.cacheWriteUnknown == One(Given(db, id, CacheWrite) == None) && m.jointCallRows == One(IsJoint(db, id))
  {
    SharesAreGiven(db, id, Cost);
    SharesAreGiven(db, id, CacheWrite);
    SharesAreGiven(db, id, Total);
    hide Given, Share, DurationShare;
  }

  lemma UnpricedMore(db: Db, ids: set<Id>, id: Id)
    requires id !in ids
    ensures |Unpriced(db, ids + {id})| == |Unpriced(db, ids)| + One(Given(db, id, Cost) == None)
  {
    hide Given;
    assert Unpriced(db, ids + {id}) == if Given(db, id, Cost) == None then Unpriced(db, ids) + {id} else Unpriced(db, ids);
  }

  lemma WritesUnknownMore(db: Db, ids: set<Id>, id: Id)
    requires id !in ids
    ensures |WritesUnknown(db, ids + {id})| == |WritesUnknown(db, ids)| + One(Given(db, id, CacheWrite) == None)
  {
    hide Given;
    assert WritesUnknown(db, ids + {id})
        == if Given(db, id, CacheWrite) == None then WritesUnknown(db, ids) + {id} else WritesUnknown(db, ids);
  }

  lemma JointMore(db: Db, ids: set<Id>, id: Id)
    requires id !in ids
    ensures |Joint(db, ids + {id})| == |Joint(db, ids)| + One(IsJoint(db, id))
  {
    hide IsJoint;
    assert Joint(db, ids + {id}) == if IsJoint(db, id) then Joint(db, ids) + {id} else Joint(db, ids);
  }

  lemma CountsMore(db: Db, answers: set<Id>, fetches: set<Id>, m: Measures, id: Id)
    requires TellsCounts(db, answers, fetches, m) && id in db.answers && id !in answers
    ensures TellsCounts(db, answers + {id}, fetches, Add(m, AnswerEntry(db, id).measures))
  {
    EntryCounts(db, id);
    UnpricedMore(db, answers, id);
    WritesUnknownMore(db, answers, id);
    JointMore(db, answers, id);
    hide Given, AnswerEntry, PlusUsage, Rollup.Least, Rollup.Greatest, Unpriced, WritesUnknown, Joint, JointFetches, IsJoint;
  }

  lemma UsageMore(db: Db, answers: set<Id>, m: Measures, id: Id)
    requires TellsUsage(db, answers, m) && id in db.answers && forall x :: x in answers ==> x < id
    ensures TellsUsage(db, answers + {id}, Add(m, AnswerEntry(db, id).measures))
  {
    hide Given, SumsTo, Share, DurationShare, Plus;
    var u := m.usage;
    SumsMore(db, answers, id, Prompt, u.prompt);
    SumsMore(db, answers, id, Completion, u.completion);
    SumsMore(db, answers, id, Total, u.total);
    SumsMore(db, answers, id, Cached, u.cached);
    SumsMore(db, answers, id, CacheWrite, u.cacheWrite);
    SumsMore(db, answers, id, Reasoning, u.reasoning);
    SumsMore(db, answers, id, Cost, u.cost);
    SharesAreGiven(db, id, Prompt);
    SharesAreGiven(db, id, Completion);
    SharesAreGiven(db, id, Total);
    SharesAreGiven(db, id, Cached);
    SharesAreGiven(db, id, CacheWrite);
    SharesAreGiven(db, id, Reasoning);
    SharesAreGiven(db, id, Cost);
  }

  lemma BoundsMore(db: Db, answers: set<Id>, fetches: set<Id>, answers': set<Id>, fetches': set<Id>, at: int,
                   first: Option<int>, last: Option<int>)
    requires TellsFirst(db, answers, fetches, first) && TellsLast(db, answers, fetches, last)
    requires forall t :: RowAt(db, answers', fetches', t) <==> RowAt(db, answers, fetches, t) || t == at
    ensures TellsFirst(db, answers', fetches', Rollup.Least(first, Some(at)))
    ensures TellsLast(db, answers', fetches', Rollup.Greatest(last, Some(at)))
  {
    hide RowAt;
  }

  lemma AnswerMore(db: Db, answers: set<Id>, fetches: set<Id>, m: Measures, id: Id)
    requires Tells(db, answers, fetches, m) && id in db.answers && forall x :: x in answers ==> x < id
    ensures Tells(db, answers + {id}, fetches, Add(m, AnswerEntry(db, id).measures))
  {
    CountsMore(db, answers, fetches, m, id);
    UsageMore(db, answers, m, id);
    assert forall t :: RowAt(db, answers + {id}, fetches, t) <==> RowAt(db, answers, fetches, t) || t == db.answers[id].createdAt;
    BoundsMore(db, answers, fetches, answers + {id}, fetches, db.answers[id].createdAt, m.firstAt, m.lastAt);
    hide TellsCounts, TellsUsage, TellsFirst, TellsLast, Share, PlusUsage, Rollup.Least, Rollup.Greatest;
  }

  lemma FetchCounts(db: Db, answers: set<Id>, fetches: set<Id>, m: Measures, id: Id)
    requires TellsCounts(db, answers, fetches, m) && id in db.fetches && id !in fetches
    ensures TellsCounts(db, answers, fetches + {id}, Add(m, FetchEntry(db.fetches[id]).measures))
  {
    hide Unpriced, WritesUnknown, Joint, PlusUsage, Rollup.Least, Rollup.Greatest;
    assert JointFetches(db, fetches + {id})
        == if Verdict(Some(db.fetches[id].status)) then JointFetches(db, fetches) + {id} else JointFetches(db, fetches);
  }

  lemma FetchMore(db: Db, answers: set<Id>, fetches: set<Id>, m: Measures, id: Id)
    requires Tells(db, answers, fetches, m) && id in db.fetches && id !in fetches
    ensures Tells(db, answers, fetches + {id}, Add(m, FetchEntry(db.fetches[id]).measures))
  {
    var m' := Add(m, FetchEntry(db.fetches[id]).measures);
    assert m'.usage == m.usage;
    FetchCounts(db, answers, fetches, m, id);
    assert forall t :: RowAt(db, answers, fetches + {id}, t) <==> RowAt(db, answers, fetches, t) || t == db.fetches[id].createdAt;
    BoundsMore(db, answers, fetches, answers, fetches + {id}, db.fetches[id].createdAt, m.firstAt, m.lastAt);
    hide TellsCounts, TellsFirst, TellsLast, SumsTo, RowAt, Given;
  }

  // ---- a group -------------------------------------------------------------------------

  function Below(ids: set<Id>, n: nat): set<Id> { set id | id in ids && id < n }

  lemma BelowMore(ids: set<Id>, n: nat)
    ensures Below(ids, n + 1) == if n in ids then Below(ids, n) + {n} else Below(ids, n)
  {
  }

  lemma CountsAreIn(db: Db, i: nat, lo: int, hi: int, key: Key)
    ensures i % 2 == 0 ==> (Counts(EntryAt(db, i), lo, hi, key) <==> i / 2 in AnswersIn(db, Some(lo), Some(hi), key))
    ensures i % 2 == 1 ==> (Counts(EntryAt(db, i), lo, hi, key) <==> i / 2 in FetchesIn(db, Some(lo), Some(hi), key))
  {
    hide Share, MeasuresOf;
  }

  lemma NothingTells(db: Db)
    ensures Tells(db, {}, {}, NOTHING)
  {
  }

  lemma {:induction false} SumTells(db: Db, rows: seq<Option<Rollup.Entry>>, n: nat, lo: int, hi: int, key: Key)
    requires n <= |rows| && forall i :: 0 <= i < |rows| ==> rows[i] == EntryAt(db, i)
    ensures Tells(db, Below(AnswersIn(db, Some(lo), Some(hi), key), (n + 1) / 2),
                  Below(FetchesIn(db, Some(lo), Some(hi), key), n / 2), Sum(rows, n, lo, hi, key))
  {
    hide Tells, AnswersIn, FetchesIn, Add, EntryAt, Counts;
    var answers, fetches := AnswersIn(db, Some(lo), Some(hi), key), FetchesIn(db, Some(lo), Some(hi), key);
    if n == 0 {
      NothingTells(db);
      assert Below(answers, 0) == {} && Below(fetches, 0) == {};
    } else {
      SumTells(db, rows, n - 1, lo, hi, key);
      SumMore(db, n - 1, lo, hi, key, Sum(rows, n - 1, lo, hi, key));
    }
  }

  lemma SumMore(db: Db, i: nat, lo: int, hi: int, key: Key, m: Measures)
    requires Tells(db, Below(AnswersIn(db, Some(lo), Some(hi), key), (i + 1) / 2), Below(FetchesIn(db, Some(lo), Some(hi), key), i / 2), m)
    ensures Tells(db, Below(AnswersIn(db, Some(lo), Some(hi), key), (i + 2) / 2),
                  Below(FetchesIn(db, Some(lo), Some(hi), key), (i + 1) / 2), Add(m, Contribution(EntryAt(db, i), lo, hi, key)))
  {
    var answers, fetches := AnswersIn(db, Some(lo), Some(hi), key), FetchesIn(db, Some(lo), Some(hi), key);
    CountsAreIn(db, i, lo, hi, key);
    AddNothing(m);
    hide Tells, Add, Counts;
    if i % 2 == 0 {
      BelowMore(answers, i / 2);
      if i / 2 in answers { AnswerMore(db, Below(answers, i / 2), Below(fetches, i / 2), m, i / 2); }
    } else {
      BelowMore(fetches, i / 2);
      if i / 2 in fetches { FetchMore(db, Below(answers, i / 2 + 1), Below(fetches, i / 2), m, i / 2); }
    }
  }

  /** One group of the aggregate over [lo, hi): what it says is so of the answers and fetches in it. */
  lemma GroupTells(db: Db, lo: int, hi: int, key: Key)
    ensures Tells(db, AnswersIn(db, Some(lo), Some(hi), key), FetchesIn(db, Some(lo), Some(hi), key), Group(db, lo, hi, key))
  {
    var n := Bound(db);
    var answers, fetches := AnswersIn(db, Some(lo), Some(hi), key), FetchesIn(db, Some(lo), Some(hi), key);
    assert Below(answers, (n + 1) / 2) == answers && Below(fetches, n / 2) == fetches;
    hide Tells, EntryAt, AnswersIn, FetchesIn, Sum;
    SumTells(db, Rows(db, n), n, lo, hi, key);
  }

  // ---- a read --------------------------------------------------------------------------

  lemma SameRows(db: Db, start: Option<int>, end: Option<int>, key: Key)
    ensures var lo, hi := Some(Lo(db, Range(start, end))), Some(Hi(db, Range(start, end)));
            AnswersIn(db, lo, hi, key) == AnswersIn(db, start, end, key) && FetchesIn(db, lo, hi, key) == FetchesIn(db, start, end, key)
  {
    forall id | id in db.answers
      ensures InWindow(db.answers[id].createdAt, Some(Lo(db, Range(start, end))), Some(Hi(db, Range(start, end))))
              <==> InWindow(db.answers[id].createdAt, start, end)
    {
      assert db.answers[id].createdAt in Times(db);
    }
    forall id | id in db.fetches
      ensures InWindow(db.fetches[id].createdAt, Some(Lo(db, Range(start, end))), Some(Hi(db, Range(start, end))))
              <==> InWindow(db.fetches[id].createdAt, start, end)
    {
      assert db.fetches[id].createdAt in Times(db);
    }
  }

  /** Aggregating a window from the source lists a row if and only if its group has one, its dimensions pass
      and it tells the truth of its answers and fetches. */
  lemma DirectTells(db: Db, start: Option<int>, end: Option<int>, keep: Dimensions -> bool, key: Key, m: Measures)
    ensures var answers, fetches := AnswersIn(db, start, end, key), FetchesIn(db, start, end, key);
            DirectTimes(db, start, end, keep, key, m)
            == One(keep(key.dimensions) && answers + fetches != {} && Tells(db, answers, fetches, m))
  {
    var lo, hi := Lo(db, Range(start, end)), Hi(db, Range(start, end));
    var answers, fetches := AnswersIn(db, start, end, key), FetchesIn(db, start, end, key);
    hide AnswersIn, FetchesIn, Group, Aggregate, Tells, Lo, Hi;
    AggregateLists(db, [Range(start, end)], key);
    OverOne(db, Range(start, end), key);
    SameRows(db, start, end, key);
    GroupTells(db, lo, hi, key);
    var m' := Group(db, lo, hi, key);
    TellsSize(db, answers, fetches, m');
    if Tells(db, answers, fetches, m) { TellsOne(db, answers, fetches, m, m'); }
  }

  lemma TellsSize(db: Db, answers: set<Id>, fetches: set<Id>, m: Measures)
    requires Tells(db, answers, fetches, m)
    ensures m.answers == 0 <==> answers + fetches == {}
  {
    assert m.answers == |answers| + |fetches|;
    assert answers + fetches == {} ==> answers == {} && fetches == {} by {
      assert answers <= answers + fetches && fetches <= answers + fetches;
    }
  }

  /** Over every run of writers and refreshes from the migration on, at every moment: a read of any window,
      cut by any dimensions, lists a row if and only if some answer or fetch of the window is in its
      group, its dimensions pass, and its numbers are those of the answers and fetches in it; and then
      it lists it once. */
  lemma EveryReadTells(states: seq<State>, actions: seq<Action>, n: nat, start: Option<int>, end: Option<int>,
                       keep: Dimensions -> bool, key: Key, m: Measures)
    requires Run(states, actions) && n < |states|
    ensures var db := states[n].db;
            var answers, fetches := AnswersIn(db, start, end, key), FetchesIn(db, start, end, key);
            ReadTimes(states[n], start, end, keep, key, m)
            == One(keep(key.dimensions) && answers + fetches != {} && Tells(db, answers, fetches, m))
  {
    hide Run, ReadTimes, DirectTimes, AnswersIn, FetchesIn, Tells;
    EveryReadIsExact(states, actions, n, start, end, keep, key, m);
    DirectTells(states[n].db, start, end, keep, key, m);
  }
}
