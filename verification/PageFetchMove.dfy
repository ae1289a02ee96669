/** Page fetches moving from `ai_queries` to a table of their own under views that must not change
    meaning (alembic/versions/5460c0343629, 95018279350d), and the rename that ends the move
    (213749d456b4). Views are bags: a row is listed some number of times. */
module PageFetchMove {
  import opened Options

  type Id = nat

  /** A row of ai_queries. `rest` stands for the columns only an answer has. */
  datatype Answer = Answer(
    createdAt: int, configName: Option<string>, url: Option<string>, checkType: Option<string>, status: Option<string>,
    reason: Option<string>, inputContent: Option<string>, worker: Option<string>, rest: Option<string>)

  datatype Fetch = Fetch(
    url: string, status: string, fetchedBy: string, content: Option<string>, worker: Option<string>, createdAt: int)

  datatype Tables = Tables(answers: map<Id, Answer>, fetches: map<Id, Fetch>)

  function One(b: bool): nat { if b then 1 else 0 }

  predicate HasText(x: Option<string>) { x.Some? && x.value != "" }

  /** `x NOT IN (a, b)`, true of no NULL. */
  predicate NotIn(x: Option<string>, words: set<string>) { x.Some? && x.value !in words }

  // ---- the views -----------------------------------------------------------------------

  datatype FetchRow = FetchRow(
    id: Id, url: Option<string>, status: Option<string>, fetchedBy: Option<string>, content: Option<string>,
    worker: Option<string>, createdAt: int)

  predicate IsContent(t: Tables, id: Id) { id in t.answers && t.answers[id].checkType == Some("content") }

  function ContentRow(t: Tables, id: Id): FetchRow
    requires id in t.answers
  {
    var a := t.answers[id];
    FetchRow(id, a.url, a.status, a.reason, a.inputContent, a.worker, a.createdAt)
  }

  function TableRow(t: Tables, id: Id): FetchRow
    requires id in t.fetches
  {
    var f := t.fetches[id];
    FetchRow(id, Some(f.url), Some(f.status), Some(f.fetchedBy), f.content, f.worker, f.createdAt)
  }

  /** page_fetches: the fetches in both places. */
  function FetchTimes(t: Tables, row: FetchRow): nat {
    One(IsContent(t, row.id) && ContentRow(t, row.id) == row) + One(row.id in t.fetches && TableRow(t, row.id) == row)
  }

  /** page_fetches once it is the table. */
  function FetchTimesAfter(t: Tables, row: FetchRow): nat { One(row.id in t.fetches && TableRow(t, row.id) == row) }

  datatype TextRow = TextRow(id: Id, url: Option<string>, text: string)

  predicate AnswerText(t: Tables, id: Id) {
    && id in t.answers && NotIn(t.answers[id].checkType, {"content", "custom"}) && HasText(t.answers[id].inputContent)
  }

  /** page_texts on (id, url, text): the fetched text, and copies on answers not yet brought over. */
  function TextTimes(t: Tables, row: TextRow): nat {
    One(IsContent(t, row.id) && HasText(t.answers[row.id].inputContent)
        && TextRow(row.id, t.answers[row.id].url, t.answers[row.id].inputContent.value) == row)
    + TextTimesAfter(t, row)
    + One(AnswerText(t, row.id) && row.id !in t.fetches
          && TextRow(row.id, t.answers[row.id].url, t.answers[row.id].inputContent.value) == row)
  }

  function TextTimesAfter(t: Tables, row: TextRow): nat {
    One(row.id in t.fetches && HasText(t.fetches[row.id].content)
        && TextRow(row.id, Some(t.fetches[row.id].url), t.fetches[row.id].content.value) == row)
  }

  /** ledger_rows on the columns a fetch carries. */
  datatype CarriedRow = CarriedRow(
    id: Id, createdAt: int, url: Option<string>, checkType: Option<string>, status: Option<string>,
    reason: Option<string>, inputContent: Option<string>, worker: Option<string>)

  function CarriedAnswer(t: Tables, id: Id): CarriedRow
    requires id in t.answers
  {
    var a := t.answers[id];
    CarriedRow(id, a.createdAt, a.url, a.checkType, a.status, a.reason, a.inputContent, a.worker)
  }

  function CarriedFetch(t: Tables, id: Id): CarriedRow
    requires id in t.fetches
  {
    var f := t.fetches[id];
    CarriedRow(id, f.createdAt, Some(f.url), Some("content"), Some(f.status), Some(f.fetchedBy), f.content, f.worker)
  }

  /** `skip` is the filter method <> 'verification' that 95018279350d adds to the fetch arm. */
  function LedgerTimes(t: Tables, skip: bool, row: CarriedRow): nat {
    One(row.id in t.answers && CarriedAnswer(t, row.id) == row)
    + One(row.id in t.fetches && (skip ==> t.fetches[row.id].fetchedBy != "verification") && CarriedFetch(t, row.id) == row)
  }

  // ---- the move ------------------------------------------------------------------------

  datatype Step = Move(id: Id) | Copy(id: Id, status: string, worker: Option<string>, createdAt: int)

  /** The table's columns are NOT NULL and its status checked; ids come from one sequence. */
  predicate Allowed(t: Tables, step: Step) {
    && step.id in t.answers && step.id !in t.fetches && t.answers[step.id].url.Some?
    && match step
       case Move(id) =>
         && IsContent(t, id) && t.answers[id].reason.Some?
         && t.answers[id].status in {Some("passed"), Some("failed")}
       case Copy(id, status, _, _) => AnswerText(t, id) && status in {"passed", "failed"}
  }

  function Do(t: Tables, step: Step): Tables
    requires Allowed(t, step)
  {
    var a := t.answers[step.id];
    match step
    case Move(id) =>
      Tables(t.answers - {id},
             t.fetches[id := Fetch(a.url.value, a.status.value, a.reason.value, a.inputContent, a.worker, a.createdAt)])
    case Copy(id, status, worker, createdAt) =>
      t.(fetches := t.fetches[id := Fetch(a.url.value, status, "verification", a.inputContent, worker, createdAt)])
  }

  /** A move under one id, in one statement: all three views list what they listed. The ledger with
      the filter does so exactly when the moved fetch is not itself called 'verification'. */
  lemma MoveChangesNoView(t: Tables, id: Id)
    requires Allowed(t, Move(id))
    ensures forall row :: FetchTimes(Do(t, Move(id)), row) == FetchTimes(t, row)
    ensures forall row :: TextTimes(Do(t, Move(id)), row) == TextTimes(t, row)
    ensures forall row :: LedgerTimes(Do(t, Move(id)), false, row) == LedgerTimes(t, false, row)
    ensures (forall row :: LedgerTimes(Do(t, Move(id)), true, row) == LedgerTimes(t, true, row))
            <==> t.answers[id].reason != Some("verification")
  {
    var t' := Do(t, Move(id));
    forall row ensures FetchTimes(t', row) == FetchTimes(t, row) {
      if row.id == id { assert ContentRow(t, id) == TableRow(t', id); }
    }
    forall row ensures TextTimes(t', row) == TextTimes(t, row) {}
    forall row ensures LedgerTimes(t', false, row) == LedgerTimes(t, false, row) {}
    var own := CarriedAnswer(t, id);
    assert own == CarriedFetch(t', id);
    assert LedgerTimes(t, true, own) == 1;
    assert LedgerTimes(t', true, own) == One(t.answers[id].reason != Some("verification"));
  }

  /** A fetch made from an answer's copy, under the answer's id: its text is listed once, from the
      table instead of the answer, and the filtered ledger lists what it listed. Without the filter
      the ledger lists the copy as a second row. */
  lemma CopyIsNoSecondRow(t: Tables, step: Step)
    requires step.Copy? && Allowed(t, step)
    ensures forall row :: TextTimes(Do(t, step), row) == TextTimes(t, row)
    ensures forall row :: LedgerTimes(Do(t, step), true, row) == LedgerTimes(t, true, row)
    ensures exists row: CarriedRow :: row.id == step.id && LedgerTimes(Do(t, step), false, row) == LedgerTimes(t, false, row) + 1
  {
    var t' := Do(t, step);
    var own := CarriedFetch(t', step.id);
    assert LedgerTimes(t', false, own) == LedgerTimes(t, false, own) + 1;
  }

  predicate Plain(t: Tables, step: Step) { step.Move? ==> step.id in t.answers && t.answers[step.id].reason != Some("verification") }

  predicate Run(states: seq<Tables>, steps: seq<Step>) {
    && |states| == |steps| + 1
    && forall i :: 0 <= i < |steps| ==>
         Allowed(states[i], steps[i]) && Plain(states[i], steps[i]) && states[i + 1] == Do(states[i], steps[i])
  }

  /** Through any sequence of moves and copies, page_texts and ledger_rows list the same rows. */
  lemma {:induction false} MovesAreInvisible(states: seq<Tables>, steps: seq<Step>, n: nat)
    requires Run(states, steps) && n < |states|
    ensures forall row :: TextTimes(states[n], row) == TextTimes(states[0], row)
    ensures forall row :: LedgerTimes(states[n], true, row) == LedgerTimes(states[0], true, row)
  {
    hide Allowed, Do;
    if n > 0 {
      MovesAreInvisible(states, steps, n - 1);
      if steps[n - 1].Move? {
        MoveChangesNoView(states[n - 1], steps[n - 1].id);
      } else {
        CopyIsNoSecondRow(states[n - 1], steps[n - 1]);
      }
    }
  }

  /** Page text under an id: what a fetch in either place brought back, or the copy on an answer that is neither a
      fetch nor a custom one and has no fetch of its id yet. Blank text is not listed. */
  lemma TextsAre(t: Tables, id: Id, url: Option<string>, text: string)
    ensures TextTimes(t, TextRow(id, url, text)) > 0 <==>
              text != ""
              && ((id in t.answers && t.answers[id].checkType == Some("content") && t.answers[id].url == url
                   && t.answers[id].inputContent == Some(text))
                  || (id in t.fetches && Some(t.fetches[id].url) == url && t.fetches[id].content == Some(text))
                  || (id in t.answers && id !in t.fetches && t.answers[id].checkType.Some?
                      && t.answers[id].checkType.value != "content" && t.answers[id].checkType.value != "custom"
                      && t.answers[id].url == url && t.answers[id].inputContent == Some(text)))
  {
  }

  // ---- the rename ----------------------------------------------------------------------

  /** A url whose page text is in the table; `r.url = a.url` is true of no NULL. */
  predicate TextFetched(t: Tables, url: Option<string>) {
    url.Some? && exists r :: r in t.fetches && t.fetches[r].url == url.value && HasText(t.fetches[r].content)
  }

  predicate Preflight(t: Tables) {
    && (forall id :: id in t.answers ==> !IsContent(t, id))
    && (forall id :: id in t.answers && AnswerText(t, id) ==> TextFetched(t, t.answers[id].url))
  }

  ghost predicate UrlBefore(t: Tables, url: Option<string>) { exists row: TextRow :: row.url == url && TextTimes(t, row) > 0 }

  ghost predicate UrlAfter(t: Tables, url: Option<string>) { exists row: TextRow :: row.url == url && TextTimesAfter(t, row) > 0 }

  /** page_fetches as a bag and the urls that have page text come through the rename. */
  ghost predicate RenameKeeps(t: Tables) {
    && (forall row :: FetchTimesAfter(t, row) == FetchTimes(t, row))
    && (forall url :: UrlAfter(t, url) <==> UrlBefore(t, url))
  }

  /** A fetch under an answer's id is a copy of its text. */
  predicate CopiesMatch(t: Tables) {
    forall id :: id in t.answers && id in t.fetches && AnswerText(t, id) ==>
      t.answers[id].url == Some(t.fetches[id].url) && HasText(t.fetches[id].content)
  }

  lemma FetchedIsListed(t: Tables, url: Option<string>)
    ensures TextFetched(t, url) <==> UrlAfter(t, url)
  {
    if TextFetched(t, url) {
      var r :| r in t.fetches && t.fetches[r].url == url.value && HasText(t.fetches[r].content);
      assert TextTimesAfter(t, TextRow(r, url, t.fetches[r].content.value)) > 0;
    }
    if UrlAfter(t, url) {
      var row: TextRow :| row.url == url && TextTimesAfter(t, row) > 0;
      assert row.id in t.fetches;
    }
  }

  lemma PreflightSuffices(t: Tables)
    requires Preflight(t)
    ensures RenameKeeps(t)
  {
    forall url ensures UrlAfter(t, url) <==> UrlBefore(t, url) {
      if UrlAfter(t, url) {
        var row: TextRow :| row.url == url && TextTimesAfter(t, row) > 0;
        assert TextTimes(t, row) > 0;
      }
      if UrlBefore(t, url) {
        var row: TextRow :| row.url == url && TextTimes(t, row) > 0;
        if TextTimesAfter(t, row) == 0 {
          assert TextFetched(t, t.answers[row.id].url);
          FetchedIsListed(t, url);
        }
      }
    }
  }

  lemma PreflightDecides(t: Tables)
    requires CopiesMatch(t)
    ensures Preflight(t) <==> RenameKeeps(t)
  {
    if Preflight(t) {
      PreflightSuffices(t);
    } else if i :| i in t.answers && IsContent(t, i) {
      assert FetchTimes(t, ContentRow(t, i)) == FetchTimesAfter(t, ContentRow(t, i)) + 1;
    } else {
      var id :| id in t.answers && AnswerText(t, id) && !TextFetched(t, t.answers[id].url);
      var url := t.answers[id].url;
      assert id !in t.fetches;
      assert TextTimes(t, TextRow(id, url, t.answers[id].inputContent.value)) > 0;
      assert UrlBefore(t, url);
      FetchedIsListed(t, url);
    }
  }

  /** What happens to the two tables between the creation of the second and the rename: moves and copies,
      and new fetches and answers, each under an id of the sequence both tables take theirs from. */
  datatype Write = Carry(step: Step) | InsertFetch(id: Id, fetch: Fetch) | InsertAnswer(id: Id, answer: Answer)

  predicate MayWrite(t: Tables, w: Write) {
    match w
    case Carry(step) => Allowed(t, step)
    case _ => w.id !in t.answers && w.id !in t.fetches
  }

  function Written(t: Tables, w: Write): Tables
    requires MayWrite(t, w)
  {
    match w
    case Carry(step) => Do(t, step)
    case InsertFetch(id, fetch) => t.(fetches := t.fetches[id := fetch])
    case InsertAnswer(id, answer) => t.(answers := t.answers[id := answer])
  }

  /** From the table's creation, empty, on. */
  predicate History(states: seq<Tables>, writes: seq<Write>) {
    && |states| == |writes| + 1 && states[0].fetches == map[]
    && forall i :: 0 <= i < |writes| ==> MayWrite(states[i], writes[i]) && states[i + 1] == Written(states[i], writes[i])
  }

  lemma WriteKeepsCopies(t: Tables, w: Write)
    requires CopiesMatch(t) && MayWrite(t, w)
    ensures CopiesMatch(Written(t, w))
  {
    var t' := Written(t, w);
    assert forall id :: id in t'.answers && id in t'.fetches && AnswerText(t', id) && !(w.Carry? && w.step.id == id) ==>
                          id in t.answers && id in t.fetches && AnswerText(t, id);
  }

  lemma {:induction false} HistoryKeepsCopies(states: seq<Tables>, writes: seq<Write>, n: nat)
    requires History(states, writes) && n < |states|
    ensures CopiesMatch(states[n])
  {
    hide CopiesMatch, MayWrite, Written;
    if n > 0 {
      HistoryKeepsCopies(states, writes, n - 1);
      WriteKeepsCopies(states[n - 1], writes[n - 1]);
    } else {
      NothingCopied(states[0]);
    }
  }

  lemma NothingCopied(t: Tables)
    requires t.fetches == map[]
    ensures CopiesMatch(t)
  {
  }

  /** Whatever was moved, copied and written since the table was made, the two checks before the rename are
      what it needs, no more and no less: they pass exactly when it keeps page_fetches and the urls
      that have page text. */
  lemma PreflightDecidesTheRename(states: seq<Tables>, writes: seq<Write>, n: nat)
    requires History(states, writes) && n < |states|
    ensures Preflight(states[n]) <==> RenameKeeps(states[n])
  {
    HistoryKeepsCopies(states, writes, n);
    PreflightDecides(states[n]);
  }

  // ---- the store -----------------------------------------------------------------------

  /** The two tables behind the views, which Upgrade replaces. */
  class PageStore {
    var tables: Tables
    var renamed: bool

    ghost function FetchesListed(row: FetchRow): nat
      reads this
    {
      if renamed then FetchTimesAfter(tables, row) else FetchTimes(tables, row)
    }

    ghost function TextsListed(row: TextRow): nat
      reads this
    {
      if renamed then TextTimesAfter(tables, row) else TextTimes(tables, row)
    }

    constructor (t: Tables)
      ensures tables == t && !renamed
    {
      tables, renamed := t, false;
    }

    /** DELETE ... RETURNING feeds the INSERT: no reader sees the fetch in both places or in neither. */
    method MoveFetch(id: Id)
      requires !renamed && Allowed(tables, Move(id)) && tables.answers[id].reason != Some("verification")
      modifies this
      ensures !renamed && tables == Do(old(tables), Move(id))
      ensures forall row :: FetchesListed(row) == old(FetchesListed(row))
      ensures forall row :: TextsListed(row) == old(TextsListed(row))
      ensures forall row :: LedgerTimes(tables, true, row) == LedgerTimes(old(tables), true, row)
    {
      MoveChangesNoView(tables, id);
      var a := tables.answers[id];
      tables := Tables(
        tables.answers - {id},
        tables.fetches[id := Fetch(a.url.value, a.status.value, a.reason.value, a.inputContent, a.worker, a.createdAt)]);
    }

    /** The rename: refused before it changes anything, or done with the same fetches listed and page
        text for the same urls. */
    method Upgrade() returns (refused: bool)
      requires !renamed
      modifies this
      ensures tables == old(tables) && renamed == !refused
      ensures refused == !Preflight(tables)
      ensures forall row :: !refused ==> FetchesListed(row) == old(FetchesListed(row))
      ensures forall url: Option<string> :: !refused ==> (UrlAfter(tables, url) <==> UrlBefore(old(tables), url))
    {
      refused := !Preflight(tables);
      if refused { return; }
      PreflightSuffices(tables);
      renamed := true;
    }
  }
}
