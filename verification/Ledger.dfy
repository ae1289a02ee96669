/** The answer ledger: answers, the model calls that paid for them and the page fetches, and the
    view `ledger_rows` over the three (alembic/versions/a0e5b60bf58d, 58e4e8b6b54d). A call's
    numbers stand on the first answer naming it, its siblings carry zeros. */
module Ledger {
  import opened Options

  type Id = nat

  /** SQL's three truth values. */
  datatype Truth = True | False | Unknown

  function Or(a: Truth, b: Truth): Truth {
    if a == True || b == True then True else if a == False && b == False then False else Unknown
  }

  function Is(b: bool): Truth { if b then True else False }

  /** `x <> literal`, unknown when x is NULL. */
  function Differs<T(==)>(x: Option<T>, literal: T): Truth {
    if x.None? then Unknown else Is(x.value != literal)
  }

  /** A call's token counts and cost; money in millionths, as numeric(12, 6) holds it. */
  datatype Usage = Usage(
    prompt: Option<int>, completion: Option<int>, total: Option<int>, cached: Option<int>,
    cacheWrite: Option<int>, reasoning: Option<int>, cost: Option<int>)

  const NO_USAGE := Usage(None, None, None, None, None, None, None)

  datatype Call = Call(usage: Usage, durationMs: Option<int>)

  /** The columns an answer is counted by; `others` stands for those the view copies through. */
  datatype Answer = Answer(
    createdAt: int, callId: Option<Id>, model: Option<string>, checkType: Option<string>,
    status: Option<string>, reason: Option<string>, configName: Option<string>, promptHash: Option<string>,
    batchId: Option<string>, others: string)

  datatype Fetch = Fetch(createdAt: int, status: string, fetchedBy: Option<string>, others: string)

  datatype Db = Db(answers: map<Id, Answer>, calls: map<Id, Call>, fetches: map<Id, Fetch>)

  predicate Names(db: Db, id: Id, call: Id) {
    id in db.answers && db.answers[id].callId == Some(call)
  }

  /** NOT EXISTS a smaller id naming the same call. */
  predicate First(db: Db, id: Id)
    requires id in db.answers
  {
    db.answers[id].callId.Some? ==>
      forall o :: o in db.answers && db.answers[o].callId == db.answers[id].callId ==> id <= o
  }

  // ---- an answer's share of its call ---------------------------------------------------

  function Zeroed(x: Option<int>): Option<int> { if x.Some? then Some(x.value * 0) else None }

  function Siblings(db: Db, call: Id): Usage {
    Usage(Some(0), Some(0), Some(0), Some(0), Some(0), Some(0),
          if call in db.calls then Zeroed(db.calls[call].usage.cost) else None)
  }

  function Share(db: Db, id: Id): Usage
    requires id in db.answers
  {
    var a := db.answers[id];
    if a.callId.None? then NO_USAGE
    else if First(db, id) then
      if a.callId.value in db.calls then db.calls[a.callId.value].usage else NO_USAGE
    else Siblings(db, a.callId.value)
  }

  function DurationShare(db: Db, id: Id): Option<int>
    requires id in db.answers
  {
    var a := db.answers[id];
    if a.callId.Some? && First(db, id) && a.callId.value in db.calls
    then db.calls[a.callId.value].durationMs else None
  }

  /** The first answer's id as the rollup asks for it: min(o.id) over the call's answers. */
  ghost predicate IsFirstId(db: Db, call: Id, id: Id) {
    Names(db, id, call) && forall o :: Names(db, o, call) ==> id <= o
  }

  /** The two spellings of "first" pick the same answer. */
  lemma FirstIsMinimum(db: Db, id: Id, least: Id)
    requires id in db.answers && db.answers[id].callId.Some?
    requires IsFirstId(db, db.answers[id].callId.value, least)
    ensures First(db, id) <==> id == least
  {
    var call := db.answers[id].callId.value;
    assert forall o :: o in db.answers && db.answers[o].callId == Some(call) ==> Names(db, o, call);
  }

  // ---- the view ------------------------------------------------------------------------

  datatype Arm = AnswerArm | FetchArm

  datatype Row = Row(
    id: Id, createdAt: int, configName: Option<string>, checkType: Option<string>, status: Option<string>,
    reason: Option<string>, model: Option<string>, promptHash: Option<string>, usage: Usage,
    durationMs: Option<int>, batchId: Option<string>, others: string)

  function AnswerRow(db: Db, id: Id): Row
    requires id in db.answers
  {
    var a := db.answers[id];
    Row(id, a.createdAt, a.configName, a.checkType, a.status, a.reason, a.model, a.promptHash,
        Share(db, id), DurationShare(db, id), a.batchId, a.others)
  }

  function FetchRow(db: Db, id: Id): Row
    requires id in db.fetches
  {
    var f := db.fetches[id];
    Row(id, f.createdAt, Some("content-cache"), Some("content"), Some(f.status), f.fetchedBy, None, None,
        NO_USAGE, None, None, f.others)
  }

  function One(b: bool): nat { if b then 1 else 0 }

  /** How often each arm, before any filter, lists a row. A row carries its id, so each arm
      lists it at most once. */
  function ArmTimes(db: Db, arm: Arm, row: Row): nat {
    match arm
    case AnswerArm => One(row.id in db.answers && AnswerRow(db, row.id) == row)
    case FetchArm => One(row.id in db.fetches && FetchRow(db, row.id) == row)
  }

  /** The view with the filter inside the fetch arm. */
  function SealedTimes(db: Db, row: Row): nat {
    ArmTimes(db, AnswerArm, row)
    + One(row.id in db.fetches && FetchRow(db, row.id) == row
          && Differs(db.fetches[row.id].fetchedBy, "verification") == True)
  }

  /** The view with the arms marked and the filter outside: `arm = 'answer' OR reason <> ...`. */
  function Passes(arm: Arm, row: Row): bool {
    Or(Is(arm == AnswerArm), Differs(row.reason, "verification")) == True
  }

  function FlattenedTimes(db: Db, row: Row): nat {
    (if Passes(AnswerArm, row) then ArmTimes(db, AnswerArm, row) else 0)
    + (if Passes(FetchArm, row) then ArmTimes(db, FetchArm, row) else 0)
  }

  /** The same rows, each as often, under three-valued logic: an answer with no reason, or one
      that says 'verification', is kept by its arm; a fetch with no method is dropped by both. */
  lemma FlattenedIsSealed(db: Db, row: Row)
    ensures FlattenedTimes(db, row) == SealedTimes(db, row)
  {
  }

  // ---- conservation --------------------------------------------------------------------

  datatype Column = Prompt | Completion | Total | Cached | CacheWrite | Reasoning | Cost | Duration

  function Of(usage: Usage, durationMs: Option<int>, column: Column): Option<int> {
    match column
    case Prompt => usage.prompt
    case Completion => usage.completion
    case Total => usage.total
    case Cached => usage.cached
    case CacheWrite => usage.cacheWrite
    case Reasoning => usage.reasoning
    case Cost => usage.cost
    case Duration => durationMs
  }

  /** SUM passes over NULLs. */
  function Amount(x: Option<int>): int { x.OrElse(0) }

  /** The column added over the view's answers with an id below n. */
  function AnswerSum(db: Db, n: nat, column: Column): int {
    if n == 0 then 0 else
      AnswerSum(db, n - 1, column)
      + (if n - 1 in db.answers
         then Amount(Of(AnswerRow(db, n - 1).usage, AnswerRow(db, n - 1).durationMs, column)) else 0)
  }

  /** A call named by an answer with an id below n. */
  ghost predicate Paid(db: Db, call: Id, n: nat) { exists o :: 0 <= o < n && Names(db, o, call) }

  /** The column added over the existing calls below `m` that some answer below `n` names. */
  ghost function CallSum(db: Db, m: nat, n: nat, column: Column): int {
    if m == 0 then 0 else
      CallSum(db, m - 1, n, column)
      + (if m - 1 in db.calls && Paid(db, m - 1, n)
         then Amount(Of(db.calls[m - 1].usage, db.calls[m - 1].durationMs, column)) else 0)
  }

  /** Reading one answer more adds its call's amount if it is that call's first answer, and
      nothing otherwise. */
  lemma {:induction false} OneAnswerMore(db: Db, m: nat, n: nat, column: Column)
    ensures CallSum(db, m, n + 1, column) == CallSum(db, m, n, column) +
            (if n in db.answers && db.answers[n].callId.Some? && First(db, n)
                && db.answers[n].callId.value in db.calls && db.answers[n].callId.value < m
             then Amount(Of(db.calls[db.answers[n].callId.value].usage, db.calls[db.answers[n].callId.value].durationMs, column))
             else 0)
  {
    if m > 0 {
      OneAnswerMore(db, m - 1, n, column);
      PaidOneMore(db, m - 1, n);
    }
  }

  lemma PaidOneMore(db: Db, call: Id, n: nat)
    ensures Paid(db, call, n + 1) <==> Paid(db, call, n) || Names(db, n, call)
    ensures Names(db, n, call) ==> (First(db, n) <==> !Paid(db, call, n))
  {
    if Names(db, n, call) && !First(db, n) {
      var o :| o in db.answers && db.answers[o].callId == db.answers[n].callId && o < n;
      assert Names(db, o, call);
    }
  }

  lemma {:induction false} SumsAgree(db: Db, m: nat, n: nat, column: Column)
    requires forall c :: c in db.calls ==> c < m
    ensures AnswerSum(db, n, column) == CallSum(db, m, n, column)
  {
    if n == 0 {
      NothingPaid(db, m, column);
    } else {
      SumsAgree(db, m, n - 1, column);
      OneAnswerMore(db, m, n - 1, column);
    }
  }

  lemma {:induction false} NothingPaid(db: Db, m: nat, column: Column)
    ensures CallSum(db, m, 0, column) == 0
  {
    if m > 0 { NothingPaid(db, m - 1, column); }
  }

  /** Adding a column over all answers of the view adds every existing call that some answer
      names exactly once, however many answers share it. */
  lemma UsageIsConserved(db: Db, m: nat, n: nat, column: Column)
    requires forall c :: c in db.calls ==> c < m
    requires forall id :: id in db.answers ==> id < n
    ensures AnswerSum(db, n, column) == CallSum(db, m, n, column)
    ensures forall call :: Paid(db, call, n) <==> exists o :: Names(db, o, call)
  {
    SumsAgree(db, m, n, column);
  }
}
