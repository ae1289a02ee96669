/** Indexes replaced while the table is in use, by starts that may die anywhere
    (alembic/versions/1afab52e064c, 0b6e2f1c9a47, 507fe2f38949). A concurrent CREATE or DROP that
    dies leaves an INVALID index behind. */
module IndexSwap {
  import opened Options

  type Name = string

  datatype Definition = Definition(on: string, covering: string)

  datatype Index = Index(definition: Definition, valid: bool)

  type Catalog = map<Name, Index>

  /** What a rebuild asks of pg_get_indexdef before it does anything. */
  datatype Test = Includes(covering: string) | HasInclude | LacksInclude

  predicate Holds(cat: Catalog, name: Name, test: Test) {
    match test
    case Includes(covering) => name in cat && cat[name].definition.covering == covering
    case HasInclude => name in cat && cat[name].definition.covering != ""
    case LacksInclude => name !in cat || cat[name].definition.covering == ""
  }

  datatype Op =
    | ReturnIf(name: Name, test: Test)
    | DropIfInvalid(name: Name)
    | CreateIfAbsent(name: Name, definition: Definition)
    | DropIfExists(name: Name)
    | Rename(name: Name, to: Name)

  predicate Invalid(cat: Catalog, name: Name) { name in cat && !cat[name].valid }

  predicate Valid(cat: Catalog, name: Name) { name in cat && cat[name].valid }

  /** The catalog after an operation that completes; a rename onto a name in use, or of no index, raises. */
  function Completed(cat: Catalog, op: Op): Option<Catalog> {
    match op
    case ReturnIf(_, _) => Some(cat)
    case DropIfInvalid(name) => Some(if Invalid(cat, name) then cat - {name} else cat)
    case CreateIfAbsent(name, definition) => Some(if name in cat then cat else cat[name := Index(definition, true)])
    case DropIfExists(name) => Some(cat - {name})
    case Rename(name, to) => if name in cat && to !in cat then Some((cat - {name})[to := cat[name]]) else None
  }

  /** What one that dies midway leaves, if it had begun. */
  function BrokenOff(cat: Catalog, op: Op): Catalog {
    match op
    case CreateIfAbsent(name, definition) => if name in cat then cat else cat[name := Index(definition, false)]
    case DropIfExists(name) => if name in cat then cat[name := cat[name].(valid := false)] else cat
    case _ => cat
  }

  type Program = seq<Op>

  datatype State = State(cat: Catalog, at: nat)

  /** Die ends a start, between operations or inside the next one; the next start begins at the
      top, as does one that finds the upgrade done but not recorded. */
  datatype Step = Proceed | Die(begun: bool) | StartAgain

  function Next(p: Program, s: State, step: Step): State {
    match step
    case Proceed =>
      if s.at >= |p| then s
      else if p[s.at].ReturnIf? && Holds(s.cat, p[s.at].name, p[s.at].test) then s.(at := |p|)
      else
        var cat := Completed(s.cat, p[s.at]);
        if cat.None? then s.(at := 0) else State(cat.value, s.at + 1)
    case Die(begun) => State(if begun && s.at < |p| then BrokenOff(s.cat, p[s.at]) else s.cat, 0)
    case StartAgain => if s.at >= |p| then s.(at := 0) else s
  }

  function RunOf(p: Program, s: State, steps: seq<Step>): State {
    if steps == [] then s else Next(p, RunOf(p, s, steps[..|steps| - 1]), steps[|steps| - 1])
  }

  // ---- _build, _rebuild and _swap ------------------------------------------------------

  function Build(name: Name, definition: Definition): Program { [DropIfInvalid(name), CreateIfAbsent(name, definition)] }

  function Rebuild(name: Name, test: Test, target: Definition): Program {
    [ReturnIf(name, test)] + Build(name + "_next", target) + [DropIfExists(name), Rename(name + "_next", name)]
  }

  function Swap(build: Name, definition: Definition, drop: Name): Program {
    Build(build, definition) + [DropIfExists(drop)]
  }

  predicate Touches(op: Op, name: Name) { op.name == name || (op.Rename? && op.to == name) }

  // ---- a name built and left alone -----------------------------------------------------

  /** An index under the name, if any, is defined as the program defines it, and is valid once the
      program is past its CREATE at i. */
  predicate Built(s: State, name: Name, definition: Definition, i: nat) {
    && (name in s.cat ==> s.cat[name].definition == definition)
    && (s.at > i ==> Valid(s.cat, name))
    && (s.at == i ==> !Invalid(s.cat, name))
  }

  predicate BuildsAt(p: Program, name: Name, definition: Definition, i: nat) {
    && 0 < i < |p| && p[i - 1] == DropIfInvalid(name) && p[i] == CreateIfAbsent(name, definition)
    && (forall j :: 0 <= j < |p| && j != i && j != i - 1 ==> !Touches(p[j], name))
    && (forall j :: 0 <= j <= i ==> !p[j].ReturnIf?)
  }

  lemma StepKeepsBuilt(p: Program, s: State, step: Step, name: Name, definition: Definition, i: nat)
    requires BuildsAt(p, name, definition, i) && Built(s, name, definition, i)
    ensures Built(Next(p, s, step), name, definition, i)
  {
    if s.at < |p| {
      assert s.at != i && s.at != i - 1 ==> !Touches(p[s.at], name);
    }
  }

  // ---- the rebuild ---------------------------------------------------------------------

  datatype Plan = Plan(before: Program, name: Name, test: Test, target: Definition) {
    function Staged(): Name { name + "_next" }
    function Program(): Program { before + Rebuild(name, test, target) }
  }

  /** The test tells the new definition from the old, and the builds before it are of other names. */
  predicate Apt(plan: Plan) {
    && (plan.test == Includes(plan.target.covering) || (plan.test == HasInclude && plan.target.covering != ""))
    && forall j :: 0 <= j < |plan.before| ==>
         !Touches(plan.before[j], plan.name) && !Touches(plan.before[j], plan.Staged()) && !plan.before[j].ReturnIf?
  }

  /** What every moment keeps. One of the two is valid; a staged index is the new one; and once the
      test holds of the name, it is the new index, valid, with none staged beside it. */
  predicate Sound(plan: Plan, cat: Catalog) {
    && (Valid(cat, plan.name) || Valid(cat, plan.Staged()))
    && (plan.Staged() in cat ==> cat[plan.Staged()].definition == plan.target)
    && (Holds(cat, plan.name, plan.test) ==> Rebuilt(plan, cat))
  }

  predicate Rebuilt(plan: Plan, cat: Catalog) {
    plan.name in cat && cat[plan.name] == Index(plan.target, true) && plan.Staged() !in cat
  }

  predicate RebuildInv(plan: Plan, s: State) {
    var n := |plan.before|;
    && Sound(plan, s.cat)
    && s.at <= n + 5
    && (n < s.at < n + 5 ==> !Holds(s.cat, plan.name, plan.test))
    && (s.at == n + 2 ==> !Invalid(s.cat, plan.Staged()))
    && (n + 3 <= s.at < n + 5 ==> Valid(s.cat, plan.Staged()))
    && (s.at == n + 4 ==> plan.name !in s.cat)
    && (s.at == n + 5 ==> Rebuilt(plan, s.cat))
  }

  lemma OtherName(plan: Plan)
    ensures plan.Staged() != plan.name
  {
    assert |plan.Staged()| == |plan.name| + 5;
  }

  lemma ProgramOf(plan: Plan)
    ensures var p, n := plan.Program(), |plan.before|;
            && |p| == n + 5 && p[..n] == plan.before
            && p[n] == ReturnIf(plan.name, plan.test) && p[n + 1] == DropIfInvalid(plan.Staged())
            && p[n + 2] == CreateIfAbsent(plan.Staged(), plan.target) && p[n + 3] == DropIfExists(plan.name)
            && p[n + 4] == Rename(plan.Staged(), plan.name)
  {
  }

  /** Every operation, done or broken off, keeps a valid index on the key. */
  lemma StepKeepsRebuild(plan: Plan, s: State, step: Step)
    requires Apt(plan) && RebuildInv(plan, s)
    ensures RebuildInv(plan, Next(plan.Program(), s, step))
  {
    ProgramOf(plan);
    OtherName(plan);
    hide Plan.Program, Plan.Staged;
    assert s.at < |plan.before| ==> plan.Program()[s.at] == plan.before[s.at];
  }

  lemma {:induction false} RunKeepsRebuild(plan: Plan, s: State, steps: seq<Step>)
    requires Apt(plan) && RebuildInv(plan, s)
    ensures RebuildInv(plan, RunOf(plan.Program(), s, steps))
  {
    hide Next, RebuildInv, Apt;
    if steps != [] {
      RunKeepsRebuild(plan, s, steps[..|steps| - 1]);
      StepKeepsRebuild(plan, RunOf(plan.Program(), s, steps[..|steps| - 1]), steps[|steps| - 1]);
    }
  }

  lemma {:induction false} RunKeepsBuilt(p: Program, s: State, steps: seq<Step>, name: Name, definition: Definition, i: nat)
    requires BuildsAt(p, name, definition, i) && Built(s, name, definition, i)
    ensures Built(RunOf(p, s, steps), name, definition, i)
  {
    hide Next, Built, BuildsAt;
    if steps != [] {
      RunKeepsBuilt(p, s, steps[..|steps| - 1], name, definition, i);
      StepKeepsBuilt(p, RunOf(p, s, steps[..|steps| - 1]), steps[|steps| - 1], name, definition, i);
    }
  }

  /** However often its starts die, between operations or inside one: there is a valid index on the
      key at every moment, and a start that ends leaves the new one under the name and nothing
      staged. A further start changes nothing. */
  lemma RebuildSurvivesDeaths(plan: Plan, cat: Catalog, steps: seq<Step>)
    requires Apt(plan) && Sound(plan, cat)
    ensures var s := RunOf(plan.Program(), State(cat, 0), steps);
            && (Valid(s.cat, plan.name) || Valid(s.cat, plan.Staged()))
            && (s.at >= |plan.Program()| ==> Rebuilt(plan, s.cat))
  {
    OtherName(plan);
    ProgramOf(plan);
    RunKeepsRebuild(plan, State(cat, 0), steps);
  }

  /** The rebuild alone, begun on the index it is to leave: it returns at once. */
  lemma RebuiltStays(plan: Plan, cat: Catalog, step: Step)
    requires Apt(plan) && plan.before == [] && Rebuilt(plan, cat)
    ensures Next(plan.Program(), State(cat, 0), step).cat == cat
    ensures step == Proceed ==> Next(plan.Program(), State(cat, 0), step).at == |plan.Program()|
  {
    ProgramOf(plan);
  }

  /** Indexes already valid are built over again without effect. */
  lemma {:induction false} BuildsStay(p: Program, s: State, n: nat)
    requires n <= |p| && s.at == 0
    requires forall j :: 0 <= j < n ==> (p[j].DropIfInvalid? || p[j].CreateIfAbsent?) && Valid(s.cat, p[j].name)
    ensures RunOf(p, s, Proceeds(n)) == State(s.cat, n)
  {
    if n > 0 {
      BuildsStay(p, s, n - 1);
      assert Proceeds(n)[..n - 1] == Proceeds(n - 1);
    }
  }

  function Proceeds(n: nat): seq<Step> { seq(n, _ => Proceed) }

  // ---- the upgrades --------------------------------------------------------------------

  const VERDICT: Name := "idx_ai_queries_latest_verdict"
  const VERDICT_ON := "ai_queries (url, check_type, id DESC) WHERE check_type IN ('closed', 'clearance') AND status IN ('passed', 'rejected')"
  const COMPANY_KEY := ("idx_jobs_company_key", Definition("jobs (lower(btrim(company)))", ""))
  const TASKS_KIND := ("idx_tasks_kind", Definition("tasks (kind, id DESC)", "status"))

  /** 1afab52e064c, upgrade. */
  function VerdictPlan(covering: string): Plan {
    Plan(Build(COMPANY_KEY.0, COMPANY_KEY.1) + Build(TASKS_KIND.0, TASKS_KIND.1),
         VERDICT, Includes(covering), Definition(VERDICT_ON, covering))
  }

  /** 0b6e2f1c9a47, upgrade. */
  function MatchPlan(): Plan {
    Plan([], "idx_email_messages_current_match", HasInclude,
         Definition("email_messages (current_match_id) WHERE current_match_id IS NOT NULL",
                    "current_event_id, sent_at, from_email, subject"))
  }

  lemma NamesDiffer()
    ensures COMPANY_KEY.0 != VERDICT && TASKS_KIND.0 != VERDICT && COMPANY_KEY.0 != TASKS_KIND.0
    ensures COMPANY_KEY.0 != VERDICT + "_next" && TASKS_KIND.0 != VERDICT + "_next"
  {
    assert |COMPANY_KEY.0| == 20 && |TASKS_KIND.0| == 14 && |VERDICT| == 29;
  }

  lemma PlansAreApt(covering: string)
    ensures Apt(VerdictPlan(covering)) && Apt(MatchPlan())
    ensures Apt(Plan([], VERDICT, Includes(covering), Definition(VERDICT_ON, covering)))
  {
    NamesDiffer();
  }

  /** The whole upgrade of 1afab52e064c, through any deaths: the verdict index as above, and the two
      new ones valid as defined once a start ends. */
  lemma VerdictUpgradeSurvivesDeaths(cat: Catalog, steps: seq<Step>)
    requires Sound(VerdictPlan("status, created_at"), cat)
    requires COMPANY_KEY.0 in cat ==> cat[COMPANY_KEY.0].definition == COMPANY_KEY.1
    requires TASKS_KIND.0 in cat ==> cat[TASKS_KIND.0].definition == TASKS_KIND.1
    ensures var plan := VerdictPlan("status, created_at");
            var s := RunOf(plan.Program(), State(cat, 0), steps);
            && (Valid(s.cat, VERDICT) || Valid(s.cat, VERDICT + "_next"))
            && (s.at >= |plan.Program()| ==>
                  && Rebuilt(plan, s.cat)
                  && Valid(s.cat, COMPANY_KEY.0) && s.cat[COMPANY_KEY.0].definition == COMPANY_KEY.1
                  && Valid(s.cat, TASKS_KIND.0) && s.cat[TASKS_KIND.0].definition == TASKS_KIND.1)
  {
    var plan := VerdictPlan("status, created_at");
    var p := plan.Program();
    PlansAreApt("status, created_at");
    NamesDiffer();
    RebuildSurvivesDeaths(plan, cat, steps);
    AddedAreBuilt(p, plan);
    RunKeepsBuilt(p, State(cat, 0), steps, COMPANY_KEY.0, COMPANY_KEY.1, 1);
    RunKeepsBuilt(p, State(cat, 0), steps, TASKS_KIND.0, TASKS_KIND.1, 3);
  }

  lemma AddedAreBuilt(p: Program, plan: Plan)
    requires plan == VerdictPlan("status, created_at") && p == plan.Program()
    ensures BuildsAt(p, COMPANY_KEY.0, COMPANY_KEY.1, 1) && BuildsAt(p, TASKS_KIND.0, TASKS_KIND.1, 3)
    ensures |p| == 9
  {
    NamesDiffer();
    ProgramOf(plan);
    assert p[..4] == plan.before;
    assert p[0] == plan.before[0] && p[1] == plan.before[1] && p[2] == plan.before[2] && p[3] == plan.before[3];
  }

  /** A further run of the finished upgrade changes nothing. */
  lemma UpgradedStays(cat: Catalog)
    requires Rebuilt(VerdictPlan("status, created_at"), cat)
    requires Valid(cat, COMPANY_KEY.0) && Valid(cat, TASKS_KIND.0)
    ensures RunOf(VerdictPlan("status, created_at").Program(), State(cat, 0), Proceeds(5)) == State(cat, 9)
  {
    var plan := VerdictPlan("status, created_at");
    var p := plan.Program();
    AddedAreBuilt(p, plan);
    ProgramOf(plan);
    BuildsStay(p, State(cat, 0), 4);
    assert Proceeds(5)[..4] == Proceeds(4);
  }

  // ---- 507fe2f38949: another name ------------------------------------------------------

  predicate SwapInv(s: State, build: Name, definition: Definition, drop: Name) {
    && (build in s.cat ==> s.cat[build].definition == definition)
    && (s.at <= 2 ==> Valid(s.cat, drop) || Valid(s.cat, build))
    && (s.at == 1 ==> !Invalid(s.cat, build))
    && (s.at >= 2 ==> Valid(s.cat, build))
    && (s.at >= 3 ==> drop !in s.cat)
    && s.at <= 3
  }

  lemma {:induction false} SwapSurvivesDeaths(s: State, build: Name, definition: Definition, drop: Name, steps: seq<Step>)
    requires build != drop && SwapInv(s, build, definition, drop)
    ensures var e := RunOf(Swap(build, definition, drop), s, steps);
            && SwapInv(e, build, definition, drop)
            && (Valid(e.cat, drop) || Valid(e.cat, build))
            && (e.at == 3 ==> Valid(e.cat, build) && e.cat[build].definition == definition && drop !in e.cat)
  {
    if steps != [] {
      SwapSurvivesDeaths(s, build, definition, drop, steps[..|steps| - 1]);
    }
  }

  lemma SwappedStays(cat: Catalog, build: Name, definition: Definition, drop: Name)
    requires build != drop && Valid(cat, build) && drop !in cat
    ensures RunOf(Swap(build, definition, drop), State(cat, 0), Proceeds(3)) == State(cat, 3)
  {
    var p := Swap(build, definition, drop);
    BuildsStay(p, State(cat, 0), 2);
    assert Proceeds(3)[..2] == Proceeds(2);
    assert cat - {drop} == cat;
  }

  // ---- the downgrade that is left out --------------------------------------------------

  /** 0b6e2f1c9a47, downgrade: `("INCLUDE" in definition) == bool("")` also holds of no index. */
  function BareRebuild(name: Name, on: string): Program { Rebuild(name, LacksInclude, Definition(on, "")) }

  function Bare(on: string): Index { Index(Definition(on, ""), true) }

  /** One step more. */
  lemma {:induction false} StepMore(p: Program, s: State, n: nat)
    ensures RunOf(p, s, Proceeds(0)) == s
    ensures n > 0 ==> RunOf(p, s, Proceeds(n)) == Next(p, RunOf(p, s, Proceeds(n - 1)), Proceed)
  {
    hide Next;
    if n > 0 { assert Proceeds(n)[..n - 1] == Proceeds(n - 1); }
  }

  /** A start that finds nothing covering under the name returns. */
  lemma NothingToRebuild(name: Name, on: string, cat: Catalog)
    requires Holds(cat, name, LacksInclude)
    ensures RunOf(BareRebuild(name, on), State(cat, 0), Proceeds(5)) == State(cat, 5)
  {
    var p := BareRebuild(name, on);
    var s := State(cat, 0);
    StepMore(p, s, 1); StepMore(p, s, 2); StepMore(p, s, 3); StepMore(p, s, 4); StepMore(p, s, 5);
    hide RunOf, Proceeds, Completed;
    assert |p| == 5 && p[0] == ReturnIf(name, LacksInclude);
  }

  /** The n-th operation of a start done by then, the start goes on to the next. */
  lemma OneOn(p: Program, cat: Catalog, n: nat, before: Catalog, after: Catalog)
    requires n < |p| && RunOf(p, State(cat, 0), Proceeds(n)) == State(before, n)
    requires p[n].ReturnIf? ==> !Holds(before, p[n].name, p[n].test)
    requires Completed(before, p[n]) == Some(after)
    ensures RunOf(p, State(cat, 0), Proceeds(n + 1)) == State(after, n + 1)
  {
    hide Completed, Holds;
    StepMore(p, State(cat, 0), n + 1);
  }

  /** Before the RENAME: the covering index gone, and staged what was staged and valid, else the bare one. */
  lemma CoveringIsDropped(name: Name, on: string, cat: Catalog)
    requires !Holds(cat, name, LacksInclude)
    ensures var staged := name + "_next";
            var index := if Valid(cat, staged) then cat[staged] else Bare(on);
            RunOf(BareRebuild(name, on), State(cat, 0), Proceeds(4)) == State(cat[staged := index] - {name}, 4)
  {
    var p := BareRebuild(name, on);
    var staged := name + "_next";
    assert |staged| == |name| + 5;
    var index := if Valid(cat, staged) then cat[staged] else Bare(on);
    hide RunOf, Proceeds;
    StepMore(p, State(cat, 0), 0);
    OneOn(p, cat, 0, cat, cat);
    var kept := if Invalid(cat, staged) then cat - {staged} else cat;
    OneOn(p, cat, 1, cat, kept);
    assert (if staged in kept then kept else kept[staged := Bare(on)]) == cat[staged := index];
    OneOn(p, cat, 2, kept, cat[staged := index]);
    OneOn(p, cat, 3, cat[staged := index], cat[staged := index] - {name});
  }

  lemma CoveringIsRebuilt(name: Name, on: string, cat: Catalog)
    requires !Holds(cat, name, LacksInclude)
    ensures var staged := name + "_next";
            var index := if Valid(cat, staged) then cat[staged] else Bare(on);
            RunOf(BareRebuild(name, on), State(cat, 0), Proceeds(5)) == State((cat - {name, staged})[name := index], 5)
  {
    CoveringIsDropped(name, on, cat);
    var staged := name + "_next";
    assert |staged| == |name| + 5;
    var index := if Valid(cat, staged) then cat[staged] else Bare(on);
    hide RunOf, Proceeds;
    assert (cat[staged := index] - {name}) - {staged} == cat - {name, staged};
    OneOn(BareRebuild(name, on), cat, 4, cat[staged := index] - {name}, (cat - {name, staged})[name := index]);
  }

  /** One whole start of the downgrade, whatever is there to begin with, ends with the bare index in place
      exactly when it was in place already, or a covering index is under the name and what is staged
      under `_next`, if valid, is the bare index. So an INVALID bare one stays as it is, and so does a
      name with nothing under it: what a start leaves that died between the DROP and the RENAME. The
      next returns at once, for good. */
  lemma DowngradeNeedsTheName(name: Name, on: string, cat: Catalog)
    ensures var s := RunOf(BareRebuild(name, on), State(cat, 0), Proceeds(5));
            && s.at == 5
            && ((name in s.cat && s.cat[name] == Bare(on))
                <==> name in cat && (cat[name] == Bare(on)
                                     || (cat[name].definition.covering != ""
                                         && (Valid(cat, name + "_next") ==> cat[name + "_next"] == Bare(on)))))
            && (name !in cat || cat[name].definition.covering == "" ==> s.cat == cat)
  {
    hide RunOf, Proceeds, BareRebuild;
    if Holds(cat, name, LacksInclude) { NothingToRebuild(name, on, cat); } else { CoveringIsRebuilt(name, on, cat); }
  }

  /** And a death there is all it takes to lose the name. */
  lemma DowngradeCanLoseTheName(name: Name, on: string, covering: string)
    requires covering != ""
    ensures var s := RunOf(BareRebuild(name, on), State(map[name := Index(Definition(on, covering), true)], 0),
                           Proceeds(4) + [Die(false)]);
            s.at == 0 && name !in s.cat
  {
    CoveringIsDropped(name, on, map[name := Index(Definition(on, covering), true)]);
    assert |name + "_next"| == |name| + 5;
    hide BareRebuild;
    assert (Proceeds(4) + [Die(false)])[..4] == Proceeds(4);
  }

  // ---- the catalog, statement by statement ---------------------------------------------

  /** The migration's own methods. Each concurrent statement may die; then so does the start. */
  class Catalogue {
    var indexes: Catalog

    constructor (cat: Catalog)
      ensures indexes == cat
    {
      indexes := cat;
    }

    method CreateConcurrentlyIfAbsent(name: Name, definition: Definition) returns (died: bool)
      modifies this
      ensures var before := old(indexes);
              var op := CreateIfAbsent(name, definition);
              if died then indexes in {before, BrokenOff(before, op)} else Completed(before, op) == Some(indexes)
    {
      died := *;
      if name in indexes { return; }
      var begun: bool := *;
      if died && !begun { return; }
      indexes := indexes[name := Index(definition, !died)];
    }

    method DropConcurrentlyIfExists(name: Name) returns (died: bool)
      modifies this
      ensures var before := old(indexes);
              var op := DropIfExists(name);
              if died then indexes in {before, BrokenOff(before, op)} else Completed(before, op) == Some(indexes)
    {
      died := *;
      if !died {
        indexes := indexes - {name};
      } else if name in indexes {
        var begun: bool := *;
        if begun { indexes := indexes[name := indexes[name].(valid := false)]; }
      }
    }

    method BuildIndex(name: Name, definition: Definition) returns (died: bool)
      requires name in indexes ==> indexes[name].definition == definition
      modifies this
      ensures forall other :: other != name ==>
                (other in indexes <==> other in old(indexes)) && (other in indexes ==> indexes[other] == old(indexes)[other])
      ensures name in indexes ==> indexes[name].definition == definition
      ensures Valid(old(indexes), name) ==> indexes == old(indexes)
      ensures !died ==> Valid(indexes, name)
    {
      if Invalid(indexes, name) {
        died := DropConcurrentlyIfExists(name);
        if died { return; }
      }
      died := CreateConcurrentlyIfAbsent(name, definition);
    }

    /** `_rebuild_verdict`, and `_rebuild` for the upgrade. What a start that dies leaves, the next
        can begin on. */
    method RebuildIndex(plan: Plan) returns (died: bool)
      requires Apt(plan) && Sound(plan, indexes)
      modifies this
      ensures Sound(plan, indexes)
      ensures !died ==> Rebuilt(plan, indexes)
      ensures Rebuilt(plan, old(indexes)) ==> indexes == old(indexes) && !died
    {
      OtherName(plan);
      if Holds(indexes, plan.name, plan.test) { return false; }
      var staged := plan.Staged();
      died := BuildIndex(staged, plan.target);
      if died { return; }
      died := DropConcurrentlyIfExists(plan.name);
      if died { return; }
      indexes := (indexes - {staged})[plan.name := indexes[staged]];
    }

    /** `_swap`. */
    method SwapIndex(build: Name, definition: Definition, drop: Name) returns (died: bool)
      requires build != drop && (build in indexes ==> indexes[build].definition == definition)
      requires Valid(indexes, drop) || Valid(indexes, build)
      modifies this
      ensures build in indexes ==> indexes[build].definition == definition
      ensures Valid(indexes, drop) || Valid(indexes, build)
      ensures !died ==> Valid(indexes, build) && drop !in indexes
    {
      died := BuildIndex(build, definition);
      if died { return; }
      died := DropConcurrentlyIfExists(drop);
    }
  }
}
