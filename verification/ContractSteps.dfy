/** The contract half of a schema change, run against live writers and broken off anywhere
    (alembic/versions/7ca95d34ef5f, 35d943a012cd, 8aa6dcf6aede, 63f0ea027862, a0e5b60bf58d,
    5a04926d6434): a NOT VALID guard, VALIDATE, then one transaction that drops the columns. */
module ContractSteps {
  import opened Options

  type Column = string
  type Name = string
  type Id = nat
  type Value = string

  /** A row's cells that are not NULL. */
  type Row = map<Column, Value>

  /** CHECK (every one of `nulls` IS NULL AND every one of `present` IS NOT NULL). */
  datatype Check = Check(nulls: set<Column>, present: set<Column>)

  datatype Guard = Guard(check: Check, validated: bool)

  datatype Table = Table(rows: map<Id, Row>, columns: set<Column>, guards: map<Name, Guard>, notNull: set<Column>)

  /** Statements on one table. Alter changes nothing modelled but locks the table; Elsewhere does neither. */
  datatype Statement =
    | DropGuardIfExists(name: Name)
    | AddGuard(name: Name, check: Check)
    | AddGuardUnlessExists(name: Name, check: Check)
    | Validate(name: Name)
    | SetNotNull(column: Column)
    | DropConstraint(name: Name)
    | DropColumn(column: Column)
    | Alter(what: string)
    | Elsewhere(what: string)

  /** An autocommit block, each of whose statements commits alone, then one transaction. */
  datatype Program = Program(alone: seq<Statement>, together: seq<Statement>)

  predicate Satisfies(row: Row, check: Check) {
    && (forall c :: c in check.nulls ==> c !in row)
    && (forall c :: c in check.present ==> c in row)
  }

  predicate Admits(t: Table, row: Row) {
    && row.Keys <= t.columns && t.notNull <= row.Keys
    && forall g :: g in t.guards ==> Satisfies(row, t.guards[g].check)
  }

  predicate AllSatisfy(rows: map<Id, Row>, check: Check) {
    forall id :: id in rows ==> Satisfies(rows[id], check)
  }

  // ---- one statement -------------------------------------------------------------------

  function WithoutColumn(rows: map<Id, Row>, c: Column): map<Id, Row> { map id | id in rows :: rows[id] - {c} }

  /** Dropping a column drops every check that names it. */
  function GuardsWithout(guards: map<Name, Guard>, c: Column): map<Name, Guard> {
    map g | g in guards && c !in guards[g].check.nulls && c !in guards[g].check.present :: guards[g]
  }

  /** The table after a statement, None when it raises. `scan` is what VALIDATE reads. */
  function Execute(t: Table, st: Statement, scan: map<Id, Row>): Option<Table> {
    match st
    case DropGuardIfExists(name) => Some(t.(guards := t.guards - {name}))
    case AddGuard(name, check) =>
      if name in t.guards then None else Some(t.(guards := t.guards[name := Guard(check, false)]))
    case AddGuardUnlessExists(name, check) =>
      Some(if name in t.guards then t else t.(guards := t.guards[name := Guard(check, false)]))
    case Validate(name) =>
      if name !in t.guards then None
      else if t.guards[name].validated then Some(t)
      else if AllSatisfy(scan, t.guards[name].check)
           then Some(t.(guards := t.guards[name := Guard(t.guards[name].check, true)]))
           else None
    case SetNotNull(c) =>
      if c in t.columns && forall id :: id in t.rows ==> c in t.rows[id] then Some(t.(notNull := t.notNull + {c})) else None
    case DropConstraint(name) => if name in t.guards then Some(t.(guards := t.guards - {name})) else None
    case DropColumn(c) =>
      if c in t.columns
      then Some(Table(WithoutColumn(t.rows, c), t.columns - {c}, GuardsWithout(t.guards, c), t.notNull - {c}))
      else None
    case Alter(_) => Some(t)
    case Elsewhere(_) => Some(t)
  }

  // ---- a migration among writers -------------------------------------------------------

  /** Where the migration stands: before a statement of the autocommit block, its scan perhaps
      under way; in the transaction, holding the table's lock (and the table to roll back to) from
      its first statement on the table; or done. */
  datatype Stage =
    | Alone(at: nat, scan: Option<map<Id, Row>>)
    | Together(at: nat, lock: Option<Table>)
    | Done

  datatype State = State(table: Table, stage: Stage)

  datatype Step = Insert(id: Id, row: Row) | Remove(id: Id) | StartScan | Proceed | Crash

  predicate Locked(s: State) { s.stage.Together? && s.stage.lock.Some? }

  function Next(p: Program, s: State, step: Step): State {
    match step
    case Insert(id, row) =>
      if !Locked(s) && Admits(s.table, row) then s.(table := s.table.(rows := s.table.rows[id := row])) else s
    case Remove(id) => if !Locked(s) then s.(table := s.table.(rows := s.table.rows - {id})) else s
    case StartScan => if s.stage.Alone? then s.(stage := s.stage.(scan := Some(s.table.rows))) else s
    case Proceed => Proceeded(p, s)
    case Crash => Restarted(s)
  }

  /** A raised error, a lock timeout or a killed container: the transaction is undone, and the next
      start begins at the top. */
  function Restarted(s: State): State {
    match s.stage
    case Alone(_, _) => s.(stage := Alone(0, None))
    case Together(_, lock) => State(lock.OrElse(s.table), Alone(0, None))
    case Done => s
  }

  function Proceeded(p: Program, s: State): State {
    match s.stage
    case Alone(at, scan) =>
      if at >= |p.alone| then s.(stage := Together(0, None))
      else if p.alone[at].Validate? && scan.None? then s
      else
        var next := Execute(s.table, p.alone[at], scan.OrElse(map[]));
        if next.None? then Restarted(s) else State(next.value, Alone(at + 1, None))
    case Together(at, lock) =>
      if at >= |p.together| then s.(stage := Done)
      else
        var st := p.together[at];
        var held := if lock.Some? || st.Elsewhere? then lock else Some(s.table);
        var next := Execute(s.table, st, s.table.rows);
        if next.None? then Restarted(s.(stage := Together(at, held)))
        else State(next.value, Together(at + 1, held))
    case Done => s
  }

  // ---- what a program must look like ---------------------------------------------------

  /** What the autocommit block has surely put in place after its first n statements: the guards
      there, each with whether it is surely validated. */
  function Known(p: Program, n: nat): map<Name, Guard>
    requires n <= |p.alone|
  {
    if n == 0 then map[] else
      var before := Known(p, n - 1);
      match p.alone[n - 1]
      case DropGuardIfExists(name) => before - {name}
      case AddGuard(name, check) => before[name := Guard(check, false)]
      case AddGuardUnlessExists(name, check) => before[name := Guard(check, false)]
      case Validate(name) => if name in before then before[name := before[name].(validated := true)] else before
      case _ => before
  }

  predicate Proves(known: map<Name, Guard>, c: Column, asNull: bool) {
    exists g :: g in known && known[g].validated
                && if asNull then c in known[g].check.nulls else c in known[g].check.present
  }

  predicate Adds(st: Statement) { st.AddGuard? || st.AddGuardUnlessExists? }

  /** A statement the transaction may hold, given the guards surely in place before it. */
  predicate Covered(known: map<Name, Guard>, st: Statement) {
    match st
    case DropColumn(c) => Proves(known, c, true)
    case SetNotNull(c) => Proves(known, c, false)
    case DropConstraint(_) => true
    case DropGuardIfExists(_) => true
    case Alter(_) => true
    case Elsewhere(_) => true
    case _ => false
  }

  predicate Preparatory(st: Statement) { !st.SetNotNull? && !st.DropConstraint? && !st.DropColumn? }

  predicate Agree(a: Statement, b: Statement) { Adds(a) && Adds(b) && a.name == b.name ==> a.check == b.check }

  /** The autocommit block prepares, adding under one name always the same check; the transaction
      drops only columns, and sets NOT NULL only on columns, that a guard surely validated by then
      proves. */
  predicate WellGuarded(p: Program) {
    && (forall i :: 0 <= i < |p.alone| ==> Preparatory(p.alone[i]))
    && (forall i, j :: 0 <= i < |p.alone| && 0 <= j < |p.alone| ==> Agree(p.alone[i], p.alone[j]))
    && (forall i :: 0 <= i < |p.together| ==> Covered(Known(p, |p.alone|), p.together[i]))
  }

  /** A guard the program would leave standing under its name is one an earlier start left. */
  predicate OwnGuards(p: Program, guards: map<Name, Guard>) {
    forall i :: 0 <= i < |p.alone| && p.alone[i].AddGuardUnlessExists? && p.alone[i].name in guards
      ==> guards[p.alone[i].name].check == p.alone[i].check
  }

  // ---- the invariant -------------------------------------------------------------------

  predicate ValidatedHold(t: Table) {
    forall g :: g in t.guards && t.guards[g].validated ==> AllSatisfy(t.rows, t.guards[g].check)
  }

  predicate RowsFit(t: Table) {
    forall id :: id in t.rows ==> t.rows[id].Keys <= t.columns && t.notNull <= t.rows[id].Keys
  }

  predicate KnownHolds(known: map<Name, Guard>, t: Table) {
    forall g :: g in known ==> g in t.guards && t.guards[g].check == known[g].check
                               && (known[g].validated ==> t.guards[g].validated)
  }

  predicate SatisfiesAll(t: Table, row: Row) { forall g :: g in t.guards ==> Satisfies(row, t.guards[g].check) }

  /** A row written since a scan began satisfies the guards that were there. */
  predicate ScanCovers(t: Table, scan: map<Id, Row>) {
    forall id :: id in t.rows ==> (id in scan && scan[id] == t.rows[id]) || SatisfiesAll(t, t.rows[id])
  }

  /** The rows meet every guard surely validated before the transaction. */
  predicate RowsMeet(known: map<Name, Guard>, rows: map<Id, Row>) {
    forall g :: g in known && known[g].validated ==> AllSatisfy(rows, known[g].check)
  }

  /** The first n statements of the transaction have had their effect. */
  predicate Gone(p: Program, n: nat, t: Table)
    requires n <= |p.together|
  {
    forall i :: 0 <= i < n ==> Effective(p, p.together[i], t)
  }

  predicate Effective(p: Program, st: Statement, t: Table) {
    && (st.DropColumn? ==> st.column !in t.columns)
    && (st.SetNotNull? && DropColumn(st.column) !in p.together ==> st.column in t.notNull)
  }

  predicate Before(p: Program, t: Table) { ValidatedHold(t) && OwnGuards(p, t.guards) && RowsFit(t) }

  predicate Inv(p: Program, s: State) {
    match s.stage
    case Alone(at, scan) =>
      && Before(p, s.table)
      && at <= |p.alone| && KnownHolds(Known(p, at), s.table)
      && (scan.Some? ==> ScanCovers(s.table, scan.value))
    case Together(at, None) =>
      && Before(p, s.table)
      && at <= |p.together| && Gone(p, at, s.table) && KnownHolds(Known(p, |p.alone|), s.table)
    case Together(at, Some(saved)) =>
      && Before(p, saved) && saved.rows == s.table.rows && RowsFit(s.table)
      && at <= |p.together| && Gone(p, at, s.table) && RowsMeet(Known(p, |p.alone|), s.table.rows)
    case Done => RowsFit(s.table) && Gone(p, |p.together|, s.table)
  }

  /** A run starts with any rows; only a guard the program would leave standing must be its own. */
  predicate Start(p: Program, s: State) { s.stage == Alone(0, None) && Before(p, s.table) }

  // ---- writers -------------------------------------------------------------------------

  lemma WritersKeepInv(p: Program, s: State, step: Step)
    requires Inv(p, s) && (step.Insert? || step.Remove?)
    ensures Inv(p, Next(p, s, step))
  {
    hide Known, OwnGuards;
  }

  // ---- the autocommit block ------------------------------------------------------------

  lemma AloneKeepsBefore(p: Program, t: Table, at: nat, scan: map<Id, Row>)
    requires WellGuarded(p) && at < |p.alone| && Before(p, t)
    requires p.alone[at].Validate? ==> ScanCovers(t, scan)
    requires Execute(t, p.alone[at], scan).Some?
    ensures Before(p, Execute(t, p.alone[at], scan).value)
    ensures Execute(t, p.alone[at], scan).value.rows == t.rows
  {
    var st := p.alone[at];
    assert Preparatory(st);
    match st {
      case AddGuard(_, _) => AddKeepsOwn(p, t.guards, at);
      case AddGuardUnlessExists(_, _) => AddKeepsOwn(p, t.guards, at);
      case Validate(name) => if !t.guards[name].validated { ScanSuffices(t, scan, name); }
      case _ =>
    }
  }

  lemma AddKeepsOwn(p: Program, guards: map<Name, Guard>, at: nat)
    requires WellGuarded(p) && at < |p.alone| && OwnGuards(p, guards) && Adds(p.alone[at])
    ensures OwnGuards(p, guards[p.alone[at].name := Guard(p.alone[at].check, false)])
  {
    hide Known, Covered;
    forall i | 0 <= i < |p.alone| && p.alone[i].AddGuardUnlessExists? && p.alone[i].name == p.alone[at].name
      ensures p.alone[i].check == p.alone[at].check
    {
      assert Agree(p.alone[i], p.alone[at]);
    }
  }

  /** A scan that found every row in order speaks for the rows written since as well. */
  lemma ScanSuffices(t: Table, scan: map<Id, Row>, name: Name)
    requires ScanCovers(t, scan) && name in t.guards && AllSatisfy(scan, t.guards[name].check)
    ensures AllSatisfy(t.rows, t.guards[name].check)
  {
  }

  lemma KnownGrows(p: Program, t: Table, at: nat, scan: map<Id, Row>)
    requires WellGuarded(p) && at < |p.alone| && OwnGuards(p, t.guards) && KnownHolds(Known(p, at), t)
    requires Execute(t, p.alone[at], scan).Some?
    ensures KnownHolds(Known(p, at + 1), Execute(t, p.alone[at], scan).value)
  {
    assert Preparatory(p.alone[at]);
  }

  lemma ProceedAlone(p: Program, s: State)
    requires WellGuarded(p) && Inv(p, s) && s.stage.Alone?
    ensures Inv(p, Proceeded(p, s)) && Proceeded(p, s).table.rows == s.table.rows
  {
    hide Known, Execute, Before, KnownHolds, ScanCovers, WellGuarded;
    var at, scan := s.stage.at, s.stage.scan.OrElse(map[]);
    if at < |p.alone| && (p.alone[at].Validate? ==> s.stage.scan.Some?) && Execute(s.table, p.alone[at], scan).Some? {
      AloneKeepsBefore(p, s.table, at, scan);
      assert OwnGuards(p, s.table.guards) by { BeforeHas(p, s.table); }
      KnownGrows(p, s.table, at, scan);
    } else {
      KnownFromNothing(p, s.table);
    }
  }

  lemma BeforeHas(p: Program, t: Table)
    requires Before(p, t)
    ensures OwnGuards(p, t.guards) && RowsFit(t)
  {
  }

  lemma KnownFromNothing(p: Program, t: Table)
    ensures KnownHolds(Known(p, 0), t)
  {
  }

  // ---- the transaction -----------------------------------------------------------------

  lemma KnownRowsMeet(known: map<Name, Guard>, t: Table)
    requires KnownHolds(known, t) && ValidatedHold(t)
    ensures RowsMeet(known, t.rows)
  {
  }

  /** A column a validated guard proves empty is dropped without dropping a value. */
  lemma DropKeepsRows(known: map<Name, Guard>, rows: map<Id, Row>, c: Column)
    requires RowsMeet(known, rows) && Proves(known, c, true)
    ensures WithoutColumn(rows, c) == rows
  {
    var g :| g in known && known[g].validated && c in known[g].check.nulls;
    forall id | id in rows ensures rows[id] - {c} == rows[id] { assert Satisfies(rows[id], known[g].check); }
  }

  /** SET NOT NULL on a column the guard proves never raises. */
  lemma NotNullIsProved(known: map<Name, Guard>, t: Table, c: Column)
    requires RowsMeet(known, t.rows) && Proves(known, c, false) && c in t.columns
    ensures Execute(t, SetNotNull(c), t.rows).Some?
  {
    var g :| g in known && known[g].validated && c in known[g].check.present;
    forall id | id in t.rows ensures c in t.rows[id] { assert Satisfies(t.rows[id], known[g].check); }
  }

  lemma TogetherKeeps(known: map<Name, Guard>, t: Table, st: Statement)
    requires RowsMeet(known, t.rows) && RowsFit(t) && Covered(known, st) && Execute(t, st, t.rows).Some?
    ensures Execute(t, st, t.rows).value.rows == t.rows && RowsFit(Execute(t, st, t.rows).value)
    ensures Execute(t, st, t.rows).value.columns == t.columns - (if st.DropColumn? then {st.column} else {})
    ensures Execute(t, st, t.rows).value.notNull
         == t.notNull + (if st.SetNotNull? then {st.column} else {}) - (if st.DropColumn? then {st.column} else {})
  {
    if st.DropColumn? { DropKeepsRows(known, t.rows, st.column); }
  }

  lemma StillEffective(p: Program, t: Table, t': Table, at: nat)
    requires at < |p.together| && Gone(p, at, t)
    requires var st := p.together[at];
             && t'.columns == t.columns - (if st.DropColumn? then {st.column} else {})
             && t'.notNull == t.notNull + (if st.SetNotNull? then {st.column} else {}) - (if st.DropColumn? then {st.column} else {})
    ensures Gone(p, at + 1, t')
  {
    forall i | 0 <= i < at + 1 ensures Effective(p, p.together[i], t') {
      assert i < at ==> Effective(p, p.together[i], t);
      assert p.together[at] in p.together;
    }
  }

  /** As the transaction runs, and so when it commits, every row meets every guard it relies on:
      what is dropped is NULL and the references the guard demands are there. */
  lemma CommitFindsGuardsMet(p: Program, s: State)
    requires Inv(p, s) && s.stage.Together?
    ensures RowsMeet(Known(p, |p.alone|), s.table.rows)
  {
    if s.stage.lock.None? { KnownRowsMeet(Known(p, |p.alone|), s.table); }
  }

  lemma ProceedTogether(p: Program, s: State)
    requires WellGuarded(p) && Inv(p, s) && s.stage.Together?
    ensures Inv(p, Proceeded(p, s)) && Proceeded(p, s).table.rows == s.table.rows
  {
    hide Known, Execute, KnownHolds, RowsMeet, Covered, ValidatedHold, OwnGuards, Gone;
    var at := s.stage.at;
    var known := Known(p, |p.alone|);
    if s.stage.lock.None? { KnownRowsMeet(known, s.table); }
    KnownFromNothing(p, s.stage.lock.OrElse(s.table));
    if at < |p.together| {
      assert Covered(known, p.together[at]);
      ElsewhereDoesNothing(s.table, p.together[at]);
      if Execute(s.table, p.together[at], s.table.rows).Some? {
        TogetherKeeps(known, s.table, p.together[at]);
        StillEffective(p, s.table, Execute(s.table, p.together[at], s.table.rows).value, at);
      }
    }
  }

  lemma ElsewhereDoesNothing(t: Table, st: Statement)
    ensures st.Elsewhere? ==> Execute(t, st, t.rows) == Some(t)
  {
  }

  /** Every step keeps the invariant, and no step of the migration, finished or broken off, changes
      a row: what a dropped column held was NULL. */
  lemma StepKeepsInv(p: Program, s: State, step: Step)
    requires WellGuarded(p) && Inv(p, s)
    ensures Inv(p, Next(p, s, step))
    ensures !step.Insert? && !step.Remove? ==> Next(p, s, step).table.rows == s.table.rows
  {
    hide Known, Execute, WellGuarded, OwnGuards, KnownHolds;
    match step {
      case Insert(_, _) => WritersKeepInv(p, s, step);
      case Remove(_) => WritersKeepInv(p, s, step);
      case StartScan =>
      case Proceed =>
        if s.stage.Alone? { ProceedAlone(p, s); } else if s.stage.Together? { ProceedTogether(p, s); }
      case Crash => KnownFromNothing(p, Restarted(s).table);
    }
  }

  function RunOf(p: Program, s: State, steps: seq<Step>): State {
    if steps == [] then s else Next(p, RunOf(p, s, steps[..|steps| - 1]), steps[|steps| - 1])
  }

  lemma {:induction false} RunKeepsInv(p: Program, s: State, steps: seq<Step>)
    requires WellGuarded(p) && Start(p, s)
    ensures Inv(p, RunOf(p, s, steps))
  {
    hide WellGuarded, Next;
    if steps == [] {
      KnownFromNothing(p, s.table);
    } else {
      RunKeepsInv(p, s, steps[..|steps| - 1]);
      StepKeepsInv(p, RunOf(p, s, steps[..|steps| - 1]), steps[|steps| - 1]);
    }
  }

  /** What the writers alone would have left: the rows after the inserts and removals that the
      tables' checks let through. */
  function Written(p: Program, s: State, steps: seq<Step>): map<Id, Row> {
    if steps == [] then s.table.rows
    else
      var before, last := RunOf(p, s, steps[..|steps| - 1]), steps[|steps| - 1];
      var rows := Written(p, s, steps[..|steps| - 1]);
      match last
      case Insert(id, row) => if !Locked(before) && Admits(before.table, row) then rows[id := row] else rows
      case Remove(id) => if !Locked(before) then rows - {id} else rows
      case _ => rows
  }

  lemma DoneMeans(p: Program, s: State)
    requires Inv(p, s) && s.stage.Done?
    ensures forall c, id :: DropColumn(c) in p.together && id in s.table.rows ==> c !in s.table.rows[id]
    ensures forall c, id :: SetNotNull(c) in p.together && DropColumn(c) !in p.together && id in s.table.rows
              ==> c in s.table.rows[id]
  {
    forall st | st in p.together ensures Effective(p, st, s.table) {
      var i :| 0 <= i < |p.together| && p.together[i] == st;
    }
    forall c | DropColumn(c) in p.together ensures c !in s.table.columns { assert Effective(p, DropColumn(c), s.table); }
    forall c | SetNotNull(c) in p.together && DropColumn(c) !in p.together ensures c in s.table.notNull {
      assert Effective(p, SetNotNull(c), s.table);
    }
  }

  /** No value is ever discarded: over every run, with writers and crashes anywhere, the table holds
      what its writers wrote. Once the migration is done no row has a value in a dropped column, and
      every row has one in each column made NOT NULL. */
  lemma {:induction false} NoValueIsDiscarded(p: Program, s: State, steps: seq<Step>)
    requires WellGuarded(p) && Start(p, s)
    ensures RunOf(p, s, steps).table.rows == Written(p, s, steps)
    ensures RunOf(p, s, steps).stage.Done? ==>
              forall c, id :: DropColumn(c) in p.together && id in RunOf(p, s, steps).table.rows
                ==> c !in RunOf(p, s, steps).table.rows[id]
    ensures RunOf(p, s, steps).stage.Done? ==>
              forall c, id :: SetNotNull(c) in p.together && DropColumn(c) !in p.together && id in RunOf(p, s, steps).table.rows
                ==> c in RunOf(p, s, steps).table.rows[id]
  {
    hide WellGuarded, Known;
    RunKeepsInv(p, s, steps);
    if RunOf(p, s, steps).stage.Done? { DoneMeans(p, RunOf(p, s, steps)); }
    if steps != [] {
      var before := RunOf(p, s, steps[..|steps| - 1]);
      NoValueIsDiscarded(p, s, steps[..|steps| - 1]);
      RunKeepsInv(p, s, steps[..|steps| - 1]);
      StepKeepsInv(p, before, steps[|steps| - 1]);
    }
  }

  // ---- the programs --------------------------------------------------------------------

  function DropAll(columns: seq<Column>): seq<Statement> {
    seq(|columns|, i requires 0 <= i < |columns| => DropColumn(columns[i]))
  }

  function ColumnsOf(columns: seq<Column>): set<Column> { set c | c in columns }

  /** 7ca95d34ef5f: twelve inline columns of review_gate_decisions, two references. */
  const INLINE: seq<Column> := ["url", "prompt_hash", "stage", "mode", "action", "reason", "profile_id", "title",
                                "content_hash", "policy_id", "policy", "evidence"]
  const REFERENCES_ONLY: Name := "ck_review_gate_decisions_references_only"

  function ReviewDecisions(): Program {
    Program(
      [DropGuardIfExists(REFERENCES_ONLY),
       AddGuard(REFERENCES_ONLY, Check(ColumnsOf(INLINE), {"url_id", "body_id"})),
       Validate(REFERENCES_ONLY),
       Elsewhere("VALIDATE fk_review_gate_decisions_url"), Elsewhere("VALIDATE fk_review_gate_decisions_body"),
       Elsewhere("DROP INDEX CONCURRENTLY idx_review_gate_decisions_url_created")],
      [SetNotNull("url_id"), SetNotNull("body_id"),
       Alter("DROP uq_review_gate_decisions_task_url"), Alter("DROP fk_review_gate_decisions_policy"),
       Alter("DROP ck_review_gate_decisions_shape"), Alter("DROP ck_review_gate_decisions_action"),
       DropConstraint(REFERENCES_ONLY)] + DropAll(INLINE))
  }

  /** 35d943a012cd: the snapshot of batch_requests, its reference made NOT NULL. */
  const REFERENCE_ONLY: Name := "ck_batch_requests_reference_only"

  function BatchRequests(): Program {
    Program(
      [DropGuardIfExists(REFERENCE_ONLY), AddGuard(REFERENCE_ONLY, Check({"snapshot"}, {"snapshot_ref"})),
       Validate(REFERENCE_ONLY)],
      [SetNotNull("snapshot_ref"), DropConstraint(REFERENCE_ONLY), DropColumn("snapshot")])
  }

  /** 8aa6dcf6aede: the pattern of listings, moved to a table of its own. */
  const PATTERN_MOVED: Name := "ck_listings_pattern_moved"

  function ListingsPattern(): Program {
    Program(
      [DropGuardIfExists(PATTERN_MOVED), AddGuard(PATTERN_MOVED, Check({"pattern"}, {"pattern_id"})),
       Validate(PATTERN_MOVED), Elsewhere("VALIDATE fk_listings_pattern")],
      [SetNotNull("pattern_id"), DropConstraint(PATTERN_MOVED), DropColumn("pattern")])
  }

  /** 63f0ea027862: uploaded_by of jobs; the guard goes with the column. */
  const UPLOADED_BY_EMPTY: Name := "ck_jobs_uploaded_by_empty"

  function JobsUploadedBy(): Program {
    Program(
      [DropGuardIfExists(UPLOADED_BY_EMPTY), AddGuard(UPLOADED_BY_EMPTY, Check({"uploaded_by"}, {})),
       Validate(UPLOADED_BY_EMPTY), Elsewhere("DROP INDEX CONCURRENTLY idx_jobs_uploaded_by")],
      [Alter("DROP jobs_uploaded_by_fkey"), DropColumn("uploaded_by")])
  }

  /** a0e5b60bf58d: the ten copies answers carried. The two views come down first, without the
      table's lock; the guard falls with the first column. */
  const COPIES: seq<Column> := ["input_content", "instructions", "prompt_tokens", "completion_tokens", "total_tokens",
                                "cached_tokens", "cache_write_tokens", "reasoning_tokens", "duration_ms", "cost_usd"]
  const COPIES_CLEARED: Name := "ck_ai_queries_copies_cleared"

  function AnswerCopies(): Program {
    Program(
      [DropGuardIfExists(COPIES_CLEARED), AddGuard(COPIES_CLEARED, Check(ColumnsOf(COPIES), {})), Validate(COPIES_CLEARED)],
      [Elsewhere("DROP VIEW ledger_rows"), Elsewhere("DROP VIEW verdicts")] + DropAll(COPIES)
      + [DropGuardIfExists(COPIES_CLEARED), Elsewhere("CREATE VIEW verdicts"), Elsewhere("CREATE VIEW ledger_rows")])
  }

  /** 5a04926d6434, one of its two tables: a guard an earlier start left is kept and validated. */
  function CanonicalOnly(table: string): Name { "ck_" + table + "_canonical_only" }

  function ResumeCopies(table: string): Program {
    Program(
      [AddGuardUnlessExists(CanonicalOnly(table), Check({"text", "pdf"}, {"text_version_id"})),
       Validate(CanonicalOnly(table))],
      [Elsewhere("_require_canonical_copies"), DropConstraint(CanonicalOnly(table)), DropColumn("text"), DropColumn("pdf")])
  }

  /** The shape they share: a guard added and validated, then drops of what it says is NULL. */
  lemma GuardedDrop(p: Program, n: nat, guard: Name, check: Check)
    requires 2 <= n <= |p.alone| && (p.alone[n - 2] == AddGuard(guard, check) || p.alone[n - 2] == AddGuardUnlessExists(guard, check))
    requires p.alone[n - 1] == Validate(guard)
    requires forall i :: 0 <= i < n - 2 ==> p.alone[i] == DropGuardIfExists(guard)
    requires forall i :: n <= i < |p.alone| ==> p.alone[i].Elsewhere?
    requires forall i :: 0 <= i < |p.together| ==>
               match p.together[i]
               case DropColumn(c) => c in check.nulls
               case SetNotNull(c) => c in check.present
               case DropConstraint(_) => true
               case DropGuardIfExists(_) => true
               case Alter(_) => true
               case Elsewhere(_) => true
               case _ => false
    ensures WellGuarded(p)
  {
    KnownThere(p, n, guard, check, |p.alone|);
    forall i | 0 <= i < |p.together| ensures Covered(Known(p, |p.alone|), p.together[i]) {
      assert Known(p, |p.alone|)[guard].validated;
    }
  }

  lemma {:induction false} KnownThere(p: Program, n: nat, guard: Name, check: Check, m: nat)
    requires 2 <= n <= m <= |p.alone| && (p.alone[n - 2] == AddGuard(guard, check) || p.alone[n - 2] == AddGuardUnlessExists(guard, check))
    requires p.alone[n - 1] == Validate(guard)
    requires forall i :: n <= i < |p.alone| ==> p.alone[i].Elsewhere?
    ensures guard in Known(p, m) && Known(p, m)[guard] == Guard(check, true)
  {
    if m > n {
      KnownThere(p, n, guard, check, m - 1);
    } else {
      assert guard in Known(p, n - 1) && Known(p, n - 1)[guard] == Guard(check, false);
    }
  }

  lemma ReviewDecisionsIsWellGuarded()
    ensures WellGuarded(ReviewDecisions())
  {
    var p := ReviewDecisions();
    forall i | 7 <= i < |p.together| ensures p.together[i].DropColumn? && p.together[i].column in ColumnsOf(INLINE) {
      assert p.together[i] == DropAll(INLINE)[i - 7];
    }
    GuardedDrop(p, 3, REFERENCES_ONLY, Check(ColumnsOf(INLINE), {"url_id", "body_id"}));
  }

  lemma AnswerCopiesIsWellGuarded()
    ensures WellGuarded(AnswerCopies())
  {
    var p := AnswerCopies();
    forall i | 2 <= i < 12 ensures p.together[i].DropColumn? && p.together[i].column in ColumnsOf(COPIES) {
      assert p.together[i] == DropAll(COPIES)[i - 2];
    }
    GuardedDrop(p, 3, COPIES_CLEARED, Check(ColumnsOf(COPIES), {}));
  }

  lemma ShortProgramsAreWellGuarded(table: string)
    ensures WellGuarded(BatchRequests()) && WellGuarded(ListingsPattern()) && WellGuarded(JobsUploadedBy())
    ensures WellGuarded(ResumeCopies(table))
  {
    GuardedDrop(BatchRequests(), 3, REFERENCE_ONLY, Check({"snapshot"}, {"snapshot_ref"}));
    GuardedDrop(ListingsPattern(), 3, PATTERN_MOVED, Check({"pattern"}, {"pattern_id"}));
    GuardedDrop(JobsUploadedBy(), 3, UPLOADED_BY_EMPTY, Check({"uploaded_by"}, {}));
    GuardedDrop(ResumeCopies(table), 2, CanonicalOnly(table), Check({"text", "pdf"}, {"text_version_id"}));
  }

  /** Without VALIDATE the guard speaks of new rows only: any value there already is lost. */
  lemma UnvalidatedDropDiscards(t: Table, guard: Name, check: Check, c: Column, id: Id)
    requires guard !in t.guards && c in t.columns && id in t.rows && c in t.rows[id]
    ensures var p := Program([AddGuard(guard, check)], [DropColumn(c)]);
            var s := RunOf(p, State(t, Alone(0, None)), [Proceed, Proceed, Proceed, Proceed]);
            s.stage.Done? && id in s.table.rows && c !in s.table.rows[id]
  {
    var p := Program([AddGuard(guard, check)], [DropColumn(c)]);
    var s := State(t, Alone(0, None));
    assert [Proceed, Proceed, Proceed, Proceed][..3] == [Proceed, Proceed, Proceed];
    assert [Proceed, Proceed, Proceed][..2] == [Proceed, Proceed];
    assert [Proceed, Proceed][..1] == [Proceed];
    assert [Proceed][..0] == [];
    assert RunOf(p, s, [Proceed]) == Proceeded(p, s);
    assert RunOf(p, s, [Proceed, Proceed]).stage == Together(0, None);
  }

  // ---- when a start finishes -----------------------------------------------------------

  /** Statements that each commit alone: the table they leave, and whether none raised. */
  function Committed(t: Table, statements: seq<Statement>): (Table, bool)
    decreases |statements|
  {
    if statements == [] then (t, true)
    else
      var next := Execute(t, statements[0], t.rows);
      if next.None? then (t, false) else Committed(next.value, statements[1..])
  }

  /** Statements of one transaction: the table after all of them, None if one raises. */
  function AllOrNone(t: Table, statements: seq<Statement>): Option<Table>
    decreases |statements|
  {
    if statements == [] then Some(t)
    else
      var next := Execute(t, statements[0], t.rows);
      if next.None? then None else AllOrNone(next.value, statements[1..])
  }

  /** A whole start beside no writer: the table it leaves, and whether it is done. */
  function Started(p: Program, t: Table): (Table, bool) {
    var (prepared, ok) := Committed(t, p.alone);
    var dropped := AllOrNone(prepared, p.together);
    if ok && dropped.Some? then (dropped.value, true) else (prepared, false)
  }

  /** What a migration is for: on a table whose rows have nothing in `nulls` and something in `present`,
      the columns `gone` dropped, those in `made` NOT NULL, and no guard left. */
  datatype Aim = Aim(guard: Name, nulls: set<Column>, present: set<Column>, gone: set<Column>, made: set<Column>)

  predicate MayFinish(t: Table, a: Aim) {
    && (forall id, c :: id in t.rows && c in a.nulls ==> c !in t.rows[id])
    && (forall id, c :: id in t.rows && c in a.present ==> c in t.rows[id])
    && a.gone <= t.columns && a.made <= t.columns
  }

  predicate Apart(check: Check, columns: set<Column>) { check.nulls !! columns && check.present !! columns }

  /** The start is done exactly when it may be; done it has met its aim, and otherwise changed nothing but
      its guard. */
  predicate Contracts(before: Table, after: Table, done: bool, a: Aim) {
    && (done <==> MayFinish(before, a))
    && after.rows == before.rows
    && after.columns == (if done then before.columns - a.gone else before.columns)
    && after.notNull == (if done then before.notNull + a.made - a.gone else before.notNull)
    && (done ==> a.guard !in after.guards)
    && (forall g :: g in after.guards && g != a.guard ==> g in before.guards && after.guards[g] == before.guards[g])
    && (forall g :: g in before.guards && g != a.guard && (done ==> Apart(before.guards[g].check, a.gone)) ==> g in after.guards)
  }

  lemma {:induction false} AllOrNoneBoth(t: Table, a: seq<Statement>, b: seq<Statement>)
    ensures AllOrNone(t, a + b) == if AllOrNone(t, a).None? then None else AllOrNone(AllOrNone(t, a).value, b)
    decreases |a|
  {
    hide Execute;
    if a == [] {
      assert a + b == b;
    } else {
      assert (a + b)[1..] == a[1..] + b;
      var next := Execute(t, a[0], t.rows);
      if next.Some? { AllOrNoneBoth(next.value, a[1..], b); }
    }
  }

  lemma {:induction false} CommittedElsewhere(t: Table, statements: seq<Statement>)
    requires forall st :: st in statements ==> st.Elsewhere?
    ensures Committed(t, statements) == (t, true)
  {
    if statements != [] {
      assert statements[0] in statements;
      CommittedElsewhere(t, statements[1..]);
    }
  }

  lemma CommittedOne(t: Table, statements: seq<Statement>, next: Table)
    requires statements != [] && Execute(t, statements[0], t.rows) == Some(next)
    ensures Committed(t, statements) == Committed(next, statements[1..])
  {
  }

  /** The guard under its name after the autocommit block, whatever an earlier start left there: none,
      one NOT VALID or one validated. */
  lemma GuardPlaced(t: Table, statements: seq<Statement>, guard: Name, check: Check, replaced: bool)
    requires |statements| >= 2 && statements[1..] != []
    requires if replaced then |statements| >= 3 && statements[0] == DropGuardIfExists(guard) && statements[1] == AddGuard(guard, check)
                            && statements[2] == Validate(guard)
             else statements[0] == AddGuardUnlessExists(guard, check) && statements[1] == Validate(guard)
    requires forall i :: (if replaced then 3 else 2) <= i < |statements| ==> statements[i].Elsewhere?
    requires !replaced && guard in t.guards ==> t.guards[guard].check == check && (t.guards[guard].validated ==> AllSatisfy(t.rows, check))
    ensures var ok := AllSatisfy(t.rows, check);
            Committed(t, statements) == (t.(guards := t.guards[guard := Guard(check, ok)]), ok)
  {
    hide AllSatisfy;
    var ok := AllSatisfy(t.rows, check);
    var rest := if replaced then statements[1..] else statements;
    if replaced { CommittedOne(t, statements, t.(guards := t.guards - {guard})); }
    var start := if replaced then t.(guards := t.guards - {guard}) else t;
    var kept := if guard in start.guards then start.guards[guard] else Guard(check, false);
    var placed := t.(guards := t.guards[guard := kept]);
    assert start.(guards := start.guards[guard := kept]) == placed;
    assert kept.check == check && (kept.validated ==> ok);
    assert guard in start.guards ==> start == placed;
    CommittedOne(start, rest, placed);
    assert placed.guards[guard := Guard(check, true)] == t.guards[guard := Guard(check, true)];
    if ok {
      var done := t.(guards := t.guards[guard := Guard(check, true)]);
      assert kept.validated ==> placed == done;
      CommittedOne(placed, rest[1..], done);
      CommittedElsewhere(done, rest[1..][1..]);
    }
  }

  function MakeAll(columns: seq<Column>): seq<Statement> {
    seq(|columns|, i requires 0 <= i < |columns| => SetNotNull(columns[i]))
  }

  predicate Unlike(columns: seq<Column>) { forall i, j :: 0 <= i < j < |columns| ==> columns[i] != columns[j] }

  lemma {:induction false} MakesAll(t: Table, columns: seq<Column>)
    requires forall id, c :: id in t.rows && c in columns ==> c in t.rows[id]
    ensures AllOrNone(t, MakeAll(columns))
         == if ColumnsOf(columns) <= t.columns then Some(t.(notNull := t.notNull + ColumnsOf(columns))) else None
    decreases |columns|
  {
    if columns != [] {
      var c, rest := columns[0], columns[1..];
      assert MakeAll(columns)[1..] == MakeAll(rest);
      assert ColumnsOf(columns) == {c} + ColumnsOf(rest);
      assert c in columns && forall d :: d in rest ==> d in columns;
      if c in t.columns {
        var next := t.(notNull := t.notNull + {c});
        MakesAll(next, rest);
        assert t.notNull + ({c} + ColumnsOf(rest)) == next.notNull + ColumnsOf(rest);
      }
    } else {
      assert t.notNull + ColumnsOf(columns) == t.notNull;
    }
  }

  function GuardsApart(guards: map<Name, Guard>, columns: set<Column>): map<Name, Guard> {
    map g | g in guards && Apart(guards[g].check, columns) :: guards[g]
  }

  lemma {:induction false} DropsAll(t: Table, columns: seq<Column>)
    requires Unlike(columns) && forall id, c :: id in t.rows && c in columns ==> c !in t.rows[id]
    ensures AllOrNone(t, DropAll(columns))
         == if ColumnsOf(columns) <= t.columns
            then Some(Table(t.rows, t.columns - ColumnsOf(columns), GuardsApart(t.guards, ColumnsOf(columns)),
                            t.notNull - ColumnsOf(columns)))
            else None
    decreases |columns|
  {
    if columns != [] {
      var c, rest := columns[0], columns[1..];
      assert DropAll(columns)[1..] == DropAll(rest);
      assert ColumnsOf(columns) == {c} + ColumnsOf(rest);
      assert c in columns && forall d :: d in rest ==> d in columns;
      assert c !in rest by { forall i | 0 <= i < |rest| ensures rest[i] != c { assert rest[i] == columns[i + 1]; } }
      if c in t.columns {
        assert WithoutColumn(t.rows, c) == t.rows by { forall id | id in t.rows ensures t.rows[id] - {c} == t.rows[id] {} }
        var next := Table(t.rows, t.columns - {c}, GuardsWithout(t.guards, c), t.notNull - {c});
        assert Execute(t, DropColumn(c), t.rows) == Some(next);
        DropsAll(next, rest);
        DropsMore(t, c, ColumnsOf(rest));
        assert ColumnsOf(columns) <= t.columns <==> ColumnsOf(rest) <= next.columns by { assert c !in ColumnsOf(rest); }
      }
    } else {
      assert ColumnsOf(columns) == {} && GuardsApart(t.guards, {}) == t.guards;
      assert t.columns - {} == t.columns && t.notNull - {} == t.notNull;
    }
  }

  lemma DropsMore(t: Table, c: Column, rest: set<Column>)
    ensures t.columns - {c} - rest == t.columns - ({c} + rest) && t.notNull - {c} - rest == t.notNull - ({c} + rest)
    ensures GuardsApart(GuardsWithout(t.guards, c), rest) == GuardsApart(t.guards, {c} + rest)
  {
    forall check: Check ensures Apart(check, {c} + rest) <==> c !in check.nulls && c !in check.present && Apart(check, rest) {}
  }

  lemma {:induction false} AllPass(t: Table, statements: seq<Statement>, guard: Name)
    requires guard !in t.guards && forall st :: st in statements ==> st.Alter? || st.Elsewhere? || st == DropGuardIfExists(guard)
    ensures AllOrNone(t, statements) == Some(t)
    decreases |statements|
  {
    if statements != [] {
      assert statements[0] in statements;
      assert t.guards - {guard} == t.guards;
      AllPass(t, statements[1..], guard);
    }
  }

  lemma {:induction false} AlterPasses(t: Table, statements: seq<Statement>)
    requires forall st :: st in statements ==> st.Alter? || st.Elsewhere?
    ensures AllOrNone(t, statements) == Some(t)
    decreases |statements|
  {
    if statements != [] {
      assert statements[0] in statements;
      AlterPasses(t, statements[1..]);
    }
  }

  /** The shape of the transactions: columns made NOT NULL, other changes, the guard perhaps dropped, columns
      dropped, and what is left to do. */
  function Transaction(made: seq<Column>, others: seq<Statement>, unguard: seq<Statement>, gone: seq<Column>, rest: seq<Statement>): seq<Statement> {
    MakeAll(made) + (others + (unguard + (DropAll(gone) + rest)))
  }

  lemma TransactionDrops(t: Table, guard: Name, made: seq<Column>, others: seq<Statement>, unguard: seq<Statement>,
                         gone: seq<Column>, rest: seq<Statement>)
    requires guard in t.guards && gone != [] && gone[0] in t.guards[guard].check.nulls && Unlike(gone)
    requires forall id, c :: id in t.rows && c in made ==> c in t.rows[id]
    requires forall id, c :: id in t.rows && c in gone ==> c !in t.rows[id]
    requires forall st :: st in others ==> st.Alter? || st.Elsewhere?
    requires unguard == [] || unguard == [DropConstraint(guard)]
    requires forall st :: st in rest ==> st.Alter? || st.Elsewhere? || st == DropGuardIfExists(guard)
    ensures AllOrNone(t, Transaction(made, others, unguard, gone, rest))
         == if ColumnsOf(made) <= t.columns && ColumnsOf(gone) <= t.columns
            then Some(Table(t.rows, t.columns - ColumnsOf(gone), GuardsApart(t.guards - {guard}, ColumnsOf(gone)),
                            t.notNull + ColumnsOf(made) - ColumnsOf(gone)))
            else None
  {
    var dropping := DropAll(gone) + rest;
    AllOrNoneBoth(t, MakeAll(made), others + (unguard + dropping));
    MakesAll(t, made);
    var t1 := t.(notNull := t.notNull + ColumnsOf(made));
    AllOrNoneBoth(t1, others, unguard + dropping);
    AlterPasses(t1, others);
    var t2 := if unguard == [] then t1 else t1.(guards := t1.guards - {guard});
    UnguardDrops(t1, guard, unguard, dropping);
    AllOrNoneBoth(t2, DropAll(gone), rest);
    DropsAll(t2, gone);
    var last := Table(t.rows, t.columns - ColumnsOf(gone), GuardsApart(t2.guards, ColumnsOf(gone)), t1.notNull - ColumnsOf(gone));
    hide AllOrNone, MakeAll, DropAll;
    assert gone[0] in ColumnsOf(gone);
    assert GuardsApart(t.guards - {guard}, ColumnsOf(gone)) == GuardsApart(t.guards, ColumnsOf(gone));
    AllPass(last, rest, guard);
  }

  lemma UnguardDrops(t: Table, guard: Name, unguard: seq<Statement>, rest: seq<Statement>)
    requires guard in t.guards && (unguard == [] || unguard == [DropConstraint(guard)])
    ensures AllOrNone(t, unguard + rest) == AllOrNone(if unguard == [] then t else t.(guards := t.guards - {guard}), rest)
  {
    if unguard == [] { assert unguard + rest == rest; } else { assert (unguard + rest)[1..] == rest; }
  }

  /** A guard placed as the six place theirs, then such a transaction: the start is done exactly when the rows
      and columns allow it. */
  lemma StartContracts(p: Program, t: Table, replaced: bool, a: Aim, made: seq<Column>, others: seq<Statement>,
                       unguard: seq<Statement>, gone: seq<Column>, rest: seq<Statement>)
    requires |p.alone| >= 2
    requires var check := Check(a.nulls, a.present);
             if replaced then |p.alone| >= 3 && p.alone[..3] == [DropGuardIfExists(a.guard), AddGuard(a.guard, check), Validate(a.guard)]
             else p.alone[..2] == [AddGuardUnlessExists(a.guard, check), Validate(a.guard)]
    requires forall i :: (if replaced then 3 else 2) <= i < |p.alone| ==> p.alone[i].Elsewhere?
    requires !replaced && a.guard in t.guards ==>
               && t.guards[a.guard].check == Check(a.nulls, a.present)
               && (t.guards[a.guard].validated ==> AllSatisfy(t.rows, Check(a.nulls, a.present)))
    requires p.together == Transaction(made, others, unguard, gone, rest) && gone != [] && Unlike(gone)
    requires a.gone == ColumnsOf(gone) && a.made == ColumnsOf(made) && a.gone <= a.nulls && a.made <= a.present
    requires forall st :: st in others ==> st.Alter? || st.Elsewhere?
    requires unguard == [] || unguard == [DropConstraint(a.guard)]
    requires forall st :: st in rest ==> st.Alter? || st.Elsewhere? || st == DropGuardIfExists(a.guard)
    ensures Contracts(t, Started(p, t).0, Started(p, t).1, a)
  {
    var check := Check(a.nulls, a.present);
    assert p.alone[0] == p.alone[..2][0] && p.alone[1] == p.alone[..2][1];
    assert replaced ==> p.alone[0] == p.alone[..3][0] && p.alone[1] == p.alone[..3][1] && p.alone[2] == p.alone[..3][2];
    GuardPlaced(t, p.alone, a.guard, check, replaced);
    RowsAllow(t, a);
    hide Committed, Execute, Transaction, AllOrNone, Contracts, MayFinish;
    var ok := AllSatisfy(t.rows, check);
    var placed := t.(guards := t.guards[a.guard := Guard(check, ok)]);
    NotYetContracts(t, ok, a);
    if ok {
      assert gone[0] in a.gone;
      assert forall c :: c in made ==> c in a.made;
      assert forall c :: c in gone ==> c in a.gone;
      TransactionDrops(placed, a.guard, made, others, unguard, gone, rest);
      DoneContracts(t, placed.guards - {a.guard}, a);
    }
  }

  lemma RowsAllow(t: Table, a: Aim)
    ensures MayFinish(t, a) <==> AllSatisfy(t.rows, Check(a.nulls, a.present)) && a.gone <= t.columns && a.made <= t.columns
    ensures AllSatisfy(t.rows, Check(a.nulls, a.present)) ==>
              (forall id, c :: id in t.rows && c in a.nulls ==> c !in t.rows[id])
              && (forall id, c :: id in t.rows && c in a.present ==> c in t.rows[id])
  {
  }

  lemma NotYetContracts(t: Table, ok: bool, a: Aim)
    ensures !MayFinish(t, a) ==> Contracts(t, t.(guards := t.guards[a.guard := Guard(Check(a.nulls, a.present), ok)]), false, a)
  {
    hide MayFinish;
  }

  lemma DoneContracts(t: Table, guards: map<Name, Guard>, a: Aim)
    requires guards == t.guards - {a.guard}
    ensures MayFinish(t, a) ==>
              Contracts(t, Table(t.rows, t.columns - a.gone, GuardsApart(guards, a.gone), t.notNull + a.made - a.gone), true, a)
  {
    hide MayFinish;
  }

  // What the six are for.

  const REVIEW_DECISIONS_AIM :=
    Aim("ck_review_gate_decisions_references_only",
        {"url", "prompt_hash", "stage", "mode", "action", "reason", "profile_id", "title", "content_hash", "policy_id", "policy", "evidence"},
        {"url_id", "body_id"},
        {"url", "prompt_hash", "stage", "mode", "action", "reason", "profile_id", "title", "content_hash", "policy_id", "policy", "evidence"},
        {"url_id", "body_id"})
  const BATCH_REQUESTS_AIM := Aim("ck_batch_requests_reference_only", {"snapshot"}, {"snapshot_ref"}, {"snapshot"}, {"snapshot_ref"})
  const LISTINGS_PATTERN_AIM := Aim("ck_listings_pattern_moved", {"pattern"}, {"pattern_id"}, {"pattern"}, {"pattern_id"})
  const JOBS_UPLOADED_BY_AIM := Aim("ck_jobs_uploaded_by_empty", {"uploaded_by"}, {}, {"uploaded_by"}, {})
  const ANSWER_COPIES_AIM :=
    Aim("ck_ai_queries_copies_cleared",
        {"input_content", "instructions", "prompt_tokens", "completion_tokens", "total_tokens",
         "cached_tokens", "cache_write_tokens", "reasoning_tokens", "duration_ms", "cost_usd"},
        {},
        {"input_content", "instructions", "prompt_tokens", "completion_tokens", "total_tokens",
         "cached_tokens", "cache_write_tokens", "reasoning_tokens", "duration_ms", "cost_usd"},
        {})

  function ResumeCopiesAim(table: string): Aim {
    Aim("ck_" + table + "_canonical_only", {"text", "pdf"}, {"text_version_id"}, {"text", "pdf"}, {})
  }

  ghost predicate Pursues(p: Program, a: Aim) {
    || (p == ReviewDecisions() && a == REVIEW_DECISIONS_AIM)
    || (p == BatchRequests() && a == BATCH_REQUESTS_AIM)
    || (p == ListingsPattern() && a == LISTINGS_PATTERN_AIM)
    || (p == JobsUploadedBy() && a == JOBS_UPLOADED_BY_AIM)
    || (p == AnswerCopies() && a == ANSWER_COPIES_AIM)
    || exists table :: p == ResumeCopies(table) && a == ResumeCopiesAim(table)
  }

  lemma InlineContracts(t: Table)
    ensures var (after, done) := Started(ReviewDecisions(), t);
            Contracts(t, after, done, Aim(REFERENCES_ONLY, ColumnsOf(INLINE), {"url_id", "body_id"}, ColumnsOf(INLINE), {"url_id", "body_id"}))
  {
    var p := ReviewDecisions();
    var made := ["url_id", "body_id"];
    var others := [Alter("DROP uq_review_gate_decisions_task_url"), Alter("DROP fk_review_gate_decisions_policy"),
                   Alter("DROP ck_review_gate_decisions_shape"), Alter("DROP ck_review_gate_decisions_action")];
    var a := Aim(REFERENCES_ONLY, ColumnsOf(INLINE), {"url_id", "body_id"}, ColumnsOf(INLINE), {"url_id", "body_id"});
    assert ColumnsOf(made) == {"url_id", "body_id"};
    assert p.together == Transaction(made, others, [DropConstraint(REFERENCES_ONLY)], INLINE, []);
    InlineUnlike();
    hide ColumnsOf, Transaction, Unlike, Contracts, Started, DropAll;
    StartContracts(p, t, true, a, made, others, [DropConstraint(REFERENCES_ONLY)], INLINE, []);
  }

  lemma InlineUnlike()
    ensures Unlike(INLINE)
  {
  }

  lemma InlineColumns()
    ensures ColumnsOf(INLINE) == {"url", "prompt_hash", "stage", "mode", "action", "reason", "profile_id", "title",
                                  "content_hash", "policy_id", "policy", "evidence"}
  {
  }

  /** 7ca95d34ef5f: from whatever an earlier start left under the guard's name, a start is done exactly when every
      decision has both references, none of the twelve columns holds a value, and all fourteen are there. */
  lemma ReviewDecisionsFinishes(t: Table)
    ensures Contracts(t, Started(ReviewDecisions(), t).0, Started(ReviewDecisions(), t).1, REVIEW_DECISIONS_AIM)
  {
    InlineContracts(t);
    InlineColumns();
    hide ColumnsOf, Contracts, Started, ReviewDecisions;
  }

  /** 35d943a012cd: exactly when every request has its reference and no snapshot. */
  lemma BatchRequestsFinishes(t: Table)
    ensures Contracts(t, Started(BatchRequests(), t).0, Started(BatchRequests(), t).1, BATCH_REQUESTS_AIM)
  {
    var p := BatchRequests();
    var a := Aim(REFERENCE_ONLY, {"snapshot"}, {"snapshot_ref"}, {"snapshot"}, {"snapshot_ref"});
    assert p.together == Transaction(["snapshot_ref"], [], [DropConstraint(REFERENCE_ONLY)], ["snapshot"], []);
    StartContracts(p, t, true, a, ["snapshot_ref"], [], [DropConstraint(REFERENCE_ONLY)], ["snapshot"], []);
  }

  /** 8aa6dcf6aede: exactly when every listing has its pattern's row and no pattern of its own. */
  lemma ListingsPatternFinishes(t: Table)
    ensures Contracts(t, Started(ListingsPattern(), t).0, Started(ListingsPattern(), t).1, LISTINGS_PATTERN_AIM)
  {
    var p := ListingsPattern();
    var a := Aim(PATTERN_MOVED, {"pattern"}, {"pattern_id"}, {"pattern"}, {"pattern_id"});
    assert p.together == Transaction(["pattern_id"], [], [DropConstraint(PATTERN_MOVED)], ["pattern"], []);
    StartContracts(p, t, true, a, ["pattern_id"], [], [DropConstraint(PATTERN_MOVED)], ["pattern"], []);
  }

  /** 63f0ea027862: exactly when no job names its uploader. */
  lemma JobsUploadedByFinishes(t: Table)
    ensures Contracts(t, Started(JobsUploadedBy(), t).0, Started(JobsUploadedBy(), t).1, JOBS_UPLOADED_BY_AIM)
  {
    var p := JobsUploadedBy();
    var a := Aim(UPLOADED_BY_EMPTY, {"uploaded_by"}, {}, {"uploaded_by"}, {});
    var others := [Alter("DROP jobs_uploaded_by_fkey")];
    assert p.together == Transaction([], others, [], ["uploaded_by"], []);
    StartContracts(p, t, true, a, [], others, [], ["uploaded_by"], []);
  }

  lemma CopiesContracts(t: Table)
    ensures var (after, done) := Started(AnswerCopies(), t);
            Contracts(t, after, done, Aim(COPIES_CLEARED, ColumnsOf(COPIES), {}, ColumnsOf(COPIES), {}))
  {
    var p := AnswerCopies();
    var others := [Elsewhere("DROP VIEW ledger_rows"), Elsewhere("DROP VIEW verdicts")];
    var rest := [DropGuardIfExists(COPIES_CLEARED), Elsewhere("CREATE VIEW verdicts"), Elsewhere("CREATE VIEW ledger_rows")];
    var a := Aim(COPIES_CLEARED, ColumnsOf(COPIES), {}, ColumnsOf(COPIES), {});
    assert ColumnsOf([]) == {};
    assert p.together == Transaction([], others, [], COPIES, rest);
    CopiesUnlike();
    hide ColumnsOf, Transaction, Unlike, Contracts, Started, DropAll;
    StartContracts(p, t, true, a, [], others, [], COPIES, rest);
  }

  lemma CopiesUnlike()
    ensures Unlike(COPIES)
  {
  }

  lemma CopyColumns()
    ensures ColumnsOf(COPIES) == {"input_content", "instructions", "prompt_tokens", "completion_tokens", "total_tokens",
                                  "cached_tokens", "cache_write_tokens", "reasoning_tokens", "duration_ms", "cost_usd"}
  {
  }

  /** a0e5b60bf58d: exactly when no answer holds a copy. */
  lemma AnswerCopiesFinishes(t: Table)
    ensures Contracts(t, Started(AnswerCopies(), t).0, Started(AnswerCopies(), t).1, ANSWER_COPIES_AIM)
  {
    CopiesContracts(t);
    CopyColumns();
    hide ColumnsOf, Contracts, Started, AnswerCopies;
  }

  /** 5a04926d6434: exactly when every row of the table names its version and holds neither text nor PDF. A guard
      under the name must be an earlier start's. */
  lemma ResumeCopiesFinishes(table: string, t: Table)
    requires ValidatedHold(t) && OwnGuards(ResumeCopies(table), t.guards)
    ensures Contracts(t, Started(ResumeCopies(table), t).0, Started(ResumeCopies(table), t).1, ResumeCopiesAim(table))
  {
    var p := ResumeCopies(table);
    var guard := CanonicalOnly(table);
    var a := Aim(guard, {"text", "pdf"}, {"text_version_id"}, {"text", "pdf"}, {});
    var others := [Elsewhere("_require_canonical_copies")];
    assert p.alone[0] == AddGuardUnlessExists(guard, Check({"text", "pdf"}, {"text_version_id"}));
    assert ColumnsOf(["text", "pdf"]) == {"text", "pdf"};
    assert p.together == Transaction([], others, [DropConstraint(guard)], ["text", "pdf"], []);
    StartContracts(p, t, false, a, [], others, [DropConstraint(guard)], ["text", "pdf"], []);
  }

  /** Each of the six, started from any table, is done exactly when its rows and columns allow it. */
  lemma EachFinishes(p: Program, t: Table, a: Aim)
    requires Pursues(p, a) && Before(p, t)
    ensures Contracts(t, Started(p, t).0, Started(p, t).1, a)
  {
    ReviewDecisionsFinishes(t);
    BatchRequestsFinishes(t);
    ListingsPatternFinishes(t);
    JobsUploadedByFinishes(t);
    AnswerCopiesFinishes(t);
    hide Contracts, Started, RowsFit, ReviewDecisions, BatchRequests, ListingsPattern, JobsUploadedBy, AnswerCopies, ResumeCopies;
    if table :| p == ResumeCopies(table) && a == ResumeCopiesAim(table) { ResumeCopiesFinishes(table, t); }
  }

  lemma EachIsWellGuarded(p: Program, a: Aim)
    requires Pursues(p, a)
    ensures WellGuarded(p)
  {
    ReviewDecisionsIsWellGuarded();
    AnswerCopiesIsWellGuarded();
    ShortProgramsAreWellGuarded("");
    hide WellGuarded, ReviewDecisions, BatchRequests, ListingsPattern, JobsUploadedBy, AnswerCopies, ResumeCopies;
    if table :| p == ResumeCopies(table) && a == ResumeCopiesAim(table) { ShortProgramsAreWellGuarded(table); }
  }

  // ---- among the steps -----------------------------------------------------------------

  lemma RunMore(p: Program, s: State, steps: seq<Step>, step: Step)
    ensures RunOf(p, s, steps + [step]) == Next(p, RunOf(p, s, steps), step)
  {
    assert (steps + [step])[..|steps|] == steps;
  }

  /** The autocommit block, undisturbed from its i-th statement on. */
  lemma {:induction false} AloneRuns(p: Program, s: State, steps: seq<Step>, i: nat) returns (all: seq<Step>)
    requires i <= |p.alone| && RunOf(p, s, steps).stage == Alone(i, None)
    ensures steps <= all && forall k :: |steps| <= k < |all| ==> all[k] in {StartScan, Proceed}
    ensures var (t, ok) := Committed(RunOf(p, s, steps).table, p.alone[i..]);
            RunOf(p, s, all) == State(t, Alone(if ok then |p.alone| else 0, None))
    decreases |p.alone| - i
  {
    var t := RunOf(p, s, steps).table;
    if i == |p.alone| {
      all := steps;
    } else {
      RunMore(p, s, steps, StartScan);
      RunMore(p, s, steps + [StartScan], Proceed);
      all := steps + [StartScan] + [Proceed];
      hide RunOf;
      var next := Execute(t, p.alone[i], t.rows);
      ScanOfRows(t, p.alone[i]);
      assert p.alone[i..][1..] == p.alone[i + 1..];
      if next.Some? { all := AloneRuns(p, s, all, i + 1); }
    }
  }

  lemma ScanOfRows(t: Table, st: Statement)
    ensures !st.Validate? ==> Execute(t, st, map[]) == Execute(t, st, t.rows)
  {
  }

  /** The transaction, undisturbed from its i-th statement on; `saved` is the table it began on. */
  lemma {:induction false} TogetherRuns(p: Program, s: State, steps: seq<Step>, i: nat, saved: Table) returns (all: seq<Step>)
    requires i <= |p.together| && RunOf(p, s, steps).stage.Together? && RunOf(p, s, steps).stage.at == i
    requires RunOf(p, s, steps).stage.lock.OrElse(RunOf(p, s, steps).table) == saved
    ensures steps <= all && forall k :: |steps| <= k < |all| ==> all[k] in {StartScan, Proceed}
    ensures var last := AllOrNone(RunOf(p, s, steps).table, p.together[i..]);
            RunOf(p, s, all) == if last.Some? then State(last.value, Done) else State(saved, Alone(0, None))
    decreases |p.together| - i
  {
    var t := RunOf(p, s, steps).table;
    RunMore(p, s, steps, Proceed);
    all := steps + [Proceed];
    hide RunOf;
    if i < |p.together| {
      ElsewhereDoesNothing(t, p.together[i]);
      assert p.together[i..][1..] == p.together[i + 1..];
      hide Execute;
      if Execute(t, p.together[i], t.rows).Some? { all := TogetherRuns(p, s, all, i + 1, saved); }
    }
  }

  /** Among the steps a start is one that nothing disturbs: from the top it ends as `Started` says. */
  lemma StartIsARun(p: Program, s: State, steps: seq<Step>) returns (all: seq<Step>)
    requires RunOf(p, s, steps).stage == Alone(0, None)
    ensures steps <= all && forall k :: |steps| <= k < |all| ==> all[k] in {StartScan, Proceed}
    ensures var (t, done) := Started(p, RunOf(p, s, steps).table);
            RunOf(p, s, all) == State(t, if done then Done else Alone(0, None))
  {
    var t := RunOf(p, s, steps).table;
    assert p.alone[0..] == p.alone && p.together[0..] == p.together;
    all := AloneRuns(p, s, steps, 0);
    hide Committed, AllOrNone;
    if Committed(t, p.alone).1 {
      RunMore(p, s, all, Proceed);
      assert RunOf(p, s, all + [Proceed]).stage == Together(0, None);
      all := TogetherRuns(p, s, all + [Proceed], 0, Committed(t, p.alone).0);
    }
  }

  /** However a run of one of the six went, its starts broken off wherever: broken off once more and begun again,
      it comes to be done if and only if the rows are as the migration asks and its columns are there. */
  lemma BrokenOffCanFinish(p: Program, s: State, steps: seq<Step>, a: Aim) returns (all: seq<Step>)
    requires Pursues(p, a) && Start(p, s) && !RunOf(p, s, steps).stage.Done?
    ensures steps <= all && RunOf(p, s, all).table.rows == RunOf(p, s, steps).table.rows
    ensures RunOf(p, s, all).stage.Done? <==> MayFinish(RunOf(p, s, steps + [Crash]).table, a)
    ensures RunOf(p, s, all).stage.Done? ==>
              RunOf(p, s, all).table.columns == RunOf(p, s, steps + [Crash]).table.columns - a.gone
  {
    EachIsWellGuarded(p, a);
    hide Pursues;
    RunMore(p, s, steps, Crash);
    RunKeepsInv(p, s, steps);
    RunKeepsInv(p, s, steps + [Crash]);
    StepKeepsInv(p, RunOf(p, s, steps), Crash);
    hide WellGuarded, Started, RunOf, MayFinish, Known, Gone;
    all := StartIsARun(p, s, steps + [Crash]);
    EachFinishes(p, RunOf(p, s, steps + [Crash]).table, a);
  }

  // ---- a start, statement by statement -------------------------------------------------

  /** One session's upgrade of a table nobody else writes to meanwhile. */
  class Upgrade {
    var table: Table

    constructor (t: Table)
      ensures table == t
    {
      table := t;
    }

    method Issue(st: Statement) returns (raised: bool)
      modifies this
      ensures raised == Execute(old(table), st, old(table).rows).None?
      ensures table == Execute(old(table), st, old(table).rows).OrElse(old(table))
    {
      var next := Execute(table, st, table.rows);
      raised := next.None?;
      table := next.OrElse(table);
    }

    /** The statements of the autocommit block stay whatever follows; those of the transaction are
        undone together if one raises. Either way no row changes. */
    method Start(p: Program) returns (done: bool)
      requires WellGuarded(p) && Before(p, table)
      modifies this
      ensures (table, done) == Started(p, old(table))
      ensures forall a :: Pursues(p, a) ==> Contracts(old(table), table, done, a)
      ensures table.rows == old(table.rows)
      ensures done ==> Gone(p, |p.together|, table) && RowsMeet(Known(p, |p.alone|), table.rows)
      ensures !done ==> Before(p, table) && table.columns == old(table.columns) && table.notNull == old(table.notNull)
    {
      forall a | Pursues(p, a) ensures Contracts(table, Started(p, table).0, Started(p, table).1, a) { EachFinishes(p, table, a); }
      hide Pursues, Contracts;
      KnownFromNothing(p, table);
      for i := 0 to |p.alone|
        invariant Before(p, table) && KnownHolds(Known(p, i), table) && table.rows == old(table.rows)
        invariant Committed(old(table), p.alone) == Committed(table, p.alone[i..])
        invariant table.columns == old(table.columns) && table.notNull == old(table.notNull)
      {
        ghost var was := table;
        ScanOfNow(table);
        assert p.alone[i..][1..] == p.alone[i + 1..];
        var raised := Issue(p.alone[i]);
        if raised { return false; }
        AloneKeepsBefore(p, was, i, was.rows);
        KnownGrows(p, was, i, was.rows);
        PreparingKeepsColumns(was, p.alone[i]);
      }
      ghost var known := Known(p, |p.alone|);
      KnownRowsMeet(known, table);
      var saved := table;
      for i := 0 to |p.together|
        invariant RowsFit(table) && Gone(p, i, table) && table.rows == old(table.rows) && RowsMeet(known, table.rows)
        invariant AllOrNone(saved, p.together) == AllOrNone(table, p.together[i..])
      {
        ghost var was := table;
        assert p.together[i..][1..] == p.together[i + 1..];
        var raised := Issue(p.together[i]);
        if raised {
          table := saved;
          return false;
        }
        assert Covered(known, p.together[i]);
        TogetherKeeps(known, was, p.together[i]);
        StillEffective(p, was, table, i);
      }
      done := true;
    }
  }

  lemma ScanOfNow(t: Table)
    ensures ScanCovers(t, t.rows)
  {
  }

  lemma PreparingKeepsColumns(t: Table, st: Statement)
    requires Preparatory(st) && Execute(t, st, t.rows).Some?
    ensures Execute(t, st, t.rows).value.columns == t.columns && Execute(t, st, t.rows).value.notNull == t.notNull
  {
  }
}
