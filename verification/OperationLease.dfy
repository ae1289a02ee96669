/** The lease one fill holds on the page (extension/runtime/operation.ts), and the tasks parked in
    its checkpoints, waits and sleeps. Code between two awaits is one step. */
module OperationLease {

  type TaskId = nat

  datatype Phase = Idle | Running | Paused | Stopped

  /** The fields of an Operation. A controller is a number; `aborted` are those whose signal fired. */
  datatype Lease = Lease(
    phase: Phase, leased: bool, controller: nat, aborted: set<nat>, sourceUrl: string, wake: set<TaskId>)
  {
    predicate Active() { phase == Running || phase == Paused }
  }

  const FRESH := Lease(Idle, false, 0, {}, "", {})

  // ---- what the methods do -------------------------------------------------------------

  function Started(l: Lease, location: string): Lease {
    if l.leased then l
    else l.(leased := true, controller := l.controller + 1, sourceUrl := location, phase := Running)
  }

  function PausedBy(l: Lease): Lease { if l.phase == Running then l.(phase := Paused) else l }

  function StoppedBy(l: Lease): Lease {
    if !l.Active() then l else l.(aborted := l.aborted + {l.controller}, phase := Stopped, wake := {})
  }

  /** Whether assertCurrent throws. It stops a fill whose page has navigated away. */
  predicate Throws(l: Lease, location: string) {
    l.controller in l.aborted || (l.Active() && location != l.sourceUrl)
  }

  function Asserted(l: Lease, location: string): Lease {
    if l.controller !in l.aborted && l.Active() && location != l.sourceUrl then StoppedBy(l) else l
  }

  function Resumed(l: Lease, location: string): Lease {
    if l.phase != Paused then l
    else if Throws(l, location) then Asserted(l, location)
    else l.(phase := Running, wake := {})
  }

  function Finished(l: Lease): Lease { l.(leased := false, controller := l.controller + 1, phase := Idle, wake := {}) }

  datatype Outcome = Returned | ParkedIn | Threw

  /** A checkpoint from its call, or from its release, to its next await. */
  function Checked(l: Lease, task: TaskId, location: string): (Lease, Outcome) {
    if Throws(l, location) then (Asserted(l, location), Threw)
    else if l.phase == Paused then (l.(wake := l.wake + {task}), ParkedIn)
    else (l, Returned)
  }

  /** A lease is held in every phase but idle; the signal has fired exactly when stopped; waiters
      are parked only while paused. */
  predicate Sound(l: Lease) {
    && (l.leased <==> l.phase != Idle)
    && (l.controller in l.aborted <==> l.phase == Stopped)
    && (l.wake != {} ==> l.phase == Paused)
    && (forall c :: c in l.aborted ==> c <= l.controller)
  }

  // ---- the object ----------------------------------------------------------------------

  class Operation {
    var phase: Phase
    var leased: bool
    var controller: nat
    var aborted: set<nat>
    var sourceUrl: string
    var wake: set<TaskId>
    /** Resolvers called, whose checkpoints have yet to go on. */
    var released: set<TaskId>

    ghost function View(): Lease
      reads this
    {
      Lease(phase, leased, controller, aborted, sourceUrl, wake)
    }

    constructor ()
      ensures View() == FRESH && Sound(View()) && released == {}
    {
      phase, leased, controller, aborted, sourceUrl, wake, released := Idle, false, 0, {}, "", {}, {};
    }

    method Start(location: string) returns (threw: bool)
      requires Sound(View())
      modifies this
      ensures View() == Started(old(View()), location) && Sound(View()) && released == old(released)
      ensures threw == old(leased)
      ensures threw ==> unchanged(this)
      ensures !threw ==> leased && phase == Running && sourceUrl == location && controller !in aborted && wake == {}
    {
      if leased { return true; }
      leased := true;
      controller := controller + 1;
      sourceUrl := location;
      phase := Running;
      threw := false;
    }

    method Pause()
      requires Sound(View())
      modifies this
      ensures View() == PausedBy(old(View())) && Sound(View()) && released == old(released)
      ensures phase == if old(phase) == Running then Paused else old(phase)
      ensures leased == old(leased) && controller == old(controller) && aborted == old(aborted)
      ensures sourceUrl == old(sourceUrl) && wake == old(wake)
    {
      if phase == Running { phase := Paused; }
    }

    method ReleaseWaiters()
      modifies `wake, `released
      ensures wake == {} && released == old(released) + old(wake)
    {
      while wake != {}
        invariant released + wake == old(released) + old(wake)
        decreases |wake|
      {
        var task :| task in wake;
        released, wake := released + {task}, wake - {task};
      }
    }

    method Resume(location: string) returns (threw: bool)
      requires Sound(View())
      modifies this
      ensures View() == Resumed(old(View()), location) && Sound(View())
      ensures threw == (old(phase) == Paused && Throws(old(View()), location))
      ensures released == if phase != old(phase) then old(released) + old(wake) else old(released)
      ensures old(phase) != Paused ==> !threw && unchanged(this)
      ensures old(phase) == Paused && location == sourceUrl ==> !threw && phase == Running && controller !in aborted && wake == {}
      ensures old(phase) == Paused && location != sourceUrl ==> threw && phase == Stopped && controller in aborted && wake == {}
      ensures leased == old(leased) && controller == old(controller) && sourceUrl == old(sourceUrl)
    {
      if phase != Paused { return false; }
      threw := AssertCurrent(location);
      if threw { return; }
      phase := Running;
      ReleaseWaiters();
    }

    method Stop()
      requires Sound(View())
      modifies this
      ensures View() == StoppedBy(old(View())) && Sound(View())
      ensures released == old(released) + old(wake)
      ensures old(phase) == Running || old(phase) == Paused ==> phase == Stopped && controller in aborted && leased && wake == {}
      ensures old(phase) != Running && old(phase) != Paused ==> phase == old(phase) && aborted == old(aborted)
      ensures leased == old(leased) && controller == old(controller) && sourceUrl == old(sourceUrl)
    {
      if !(phase == Running || phase == Paused) { return; }
      aborted := aborted + {controller};
      phase := Stopped;
      ReleaseWaiters();
    }

    method Finish()
      requires Sound(View())
      modifies this
      ensures View() == Finished(old(View())) && Sound(View())
      ensures released == old(released) + old(wake)
      ensures phase == Idle && !leased && wake == {} && controller > old(controller) && aborted == old(aborted)
    {
      leased := false;
      controller := controller + 1;
      phase := Idle;
      ReleaseWaiters();
    }

    method AssertCurrent(location: string) returns (threw: bool)
      requires Sound(View())
      modifies this
      ensures View() == Asserted(old(View()), location) && Sound(View())
      ensures threw == Throws(old(View()), location)
      ensures released == if threw && phase != old(phase) then old(released) + old(wake) else old(released)
      ensures threw <==> old(phase) == Stopped || (old(phase) != Idle && location != sourceUrl)
      ensures phase == if threw then Stopped else old(phase)
    {
      if controller in aborted { return true; }
      if (phase == Running || phase == Paused) && location != sourceUrl {
        Stop();
        return true;
      }
      threw := false;
    }

    /** One stretch of checkpoint(). It returns under a lease only while running, on the url the
        fill started on. */
    method Checkpoint(task: TaskId, location: string) returns (outcome: Outcome)
      requires Sound(View())
      modifies this
      ensures (View(), outcome) == Checked(old(View()), task, location) && Sound(View())
      ensures outcome == Returned && leased ==> phase == Running && location == sourceUrl
      ensures outcome == Threw <==> old(phase) == Stopped || (old(phase) != Idle && location != sourceUrl)
      ensures outcome == ParkedIn <==> old(phase) == Paused && location == sourceUrl
      ensures outcome == ParkedIn ==> phase == Paused && task in wake && released == old(released)
      ensures outcome == Threw ==> phase == Stopped && controller in aborted
    {
      var threw := AssertCurrent(location);
      if threw { return Threw; }
      if phase == Paused {
        wake := wake + {task};
        return ParkedIn;
      }
      outcome := Returned;
    }
  }

  // ---- the tasks -----------------------------------------------------------------------

  /** What a checkpoint is followed by: its caller, or sleep's timer. */
  datatype After = Caller | Timer

  datatype Task =
    | Free
    | Parked(next: After)
    | Released(next: After)
    | Racing(signal: nat)
    | Won
    | Lost

  datatype State = State(lease: Lease, tasks: map<TaskId, Task>)

  datatype Event =
    | Start
    | Pause
    | Resume
    | Stop
    | Finish
    | CallCheckpoint(task: TaskId)
    | CallWait(task: TaskId)
    | CallSleep(task: TaskId)
    | Settle(task: TaskId, ok: bool)
    | GoOn(task: TaskId)

  function TaskOf(s: State, task: TaskId): Task { if task in s.tasks then s.tasks[task] else Free }

  /** The tasks after the lease changed: resolved waiters are released, and the abort of a signal
      rejects every race on it. */
  function Notified(tasks: map<TaskId, Task>, before: Lease, after: Lease): map<TaskId, Task> {
    map t | t in tasks ::
      match tasks[t]
      case Parked(next) => if t in before.wake && t !in after.wake then Released(next) else tasks[t]
      case Racing(signal) => if signal in after.aborted then Lost else tasks[t]
      case _ => tasks[t]
  }

  function Changed(s: State, after: Lease): State { State(after, Notified(s.tasks, s.lease, after)) }

  /** A wait races the signal of the moment; one already fired loses at once. */
  function RaceOn(l: Lease): Task { if l.controller in l.aborted then Lost else Racing(l.controller) }

  function AfterCheck(l: Lease, outcome: Outcome, next: After): Task {
    match outcome
    case Returned => if next == Timer then RaceOn(l) else Free
    case ParkedIn => Parked(next)
    case Threw => Free
  }

  function Check(s: State, task: TaskId, next: After, location: string): State {
    var (after, outcome) := Checked(s.lease, task, location);
    var changed := Changed(s, after);
    changed.(tasks := changed.tasks[task := AfterCheck(after, outcome, next)])
  }

  function Step(s: State, e: Event, location: string): State {
    match e
    case Start => Changed(s, Started(s.lease, location))
    case Pause => Changed(s, PausedBy(s.lease))
    case Resume => Changed(s, Resumed(s.lease, location))
    case Stop => Changed(s, StoppedBy(s.lease))
    case Finish => Changed(s, Finished(s.lease))
    case CallCheckpoint(t) => if TaskOf(s, t).Free? then Check(s, t, Caller, location) else s
    case CallWait(t) => if TaskOf(s, t).Free? then s.(tasks := s.tasks[t := RaceOn(s.lease)]) else s
    case CallSleep(t) => if TaskOf(s, t).Free? then Check(s, t, Timer, location) else s
    case Settle(t, ok) => if TaskOf(s, t).Racing? then s.(tasks := s.tasks[t := if ok then Won else Lost]) else s
    case GoOn(t) =>
      match TaskOf(s, t)
      case Released(next) => Check(s, t, next, location)
      case Won => Check(s, t, Caller, location)
      case Lost => s.(tasks := s.tasks[t := Free])
      case _ => s
  }

  /** The step in which a checkpoint, a wait or a sleep hands back to its caller, who goes on to
      touch the page. */
  predicate HandsBack(s: State, e: Event, location: string) {
    match e
    case CallCheckpoint(t) => TaskOf(s, t).Free? && Checked(s.lease, t, location).1 == Returned
    case GoOn(t) =>
      && (TaskOf(s, t) == Released(Caller) || TaskOf(s, t) == Won)
      && Checked(s.lease, t, location).1 == Returned
    case _ => false
  }

  ghost predicate Inv(s: State) {
    && Sound(s.lease)
    && (forall t :: t in s.lease.wake <==> t in s.tasks && s.tasks[t].Parked?)
    && (forall t :: t in s.tasks && s.tasks[t].Racing? ==>
          s.tasks[t].signal !in s.lease.aborted && s.tasks[t].signal <= s.lease.controller)
  }

  /** In every interleaving: a lease exactly while not idle, an aborted signal exactly while
      stopped, a parked waiter only while paused, and no race on a signal that has fired. */
  lemma StepKeepsInv(s: State, e: Event, location: string)
    requires Inv(s)
    ensures Inv(Step(s, e, location))
  {
    match e {
      case CallCheckpoint(t) => if TaskOf(s, t).Free? { CheckKeepsInv(s, t, Caller, location); }
      case CallSleep(t) => if TaskOf(s, t).Free? { CheckKeepsInv(s, t, Timer, location); }
      case GoOn(t) =>
        match TaskOf(s, t) {
          case Released(next) => CheckKeepsInv(s, t, next, location);
          case Won => CheckKeepsInv(s, t, Caller, location);
          case _ =>
        }
      case _ =>
    }
  }

  lemma CheckKeepsInv(s: State, t: TaskId, next: After, location: string)
    requires Inv(s) && !TaskOf(s, t).Parked?
    ensures Inv(Check(s, t, next, location))
  {
  }

  /** Every exit from paused releases every parked task, and parks none. */
  lemma ExitReleases(s: State, e: Event, location: string, t: TaskId)
    requires Inv(s) && s.lease.phase == Paused && t in s.tasks && s.tasks[t].Parked?
    ensures Step(s, e, location).lease.phase != Paused ==> TaskOf(Step(s, e, location), t) == Released(s.tasks[t].next)
  {
    assert t in s.lease.wake;
  }

  /** A caller goes on under a lease only while the fill runs, on the url it started on. */
  lemma HandsBackOnlyWhileRunning(s: State, e: Event, location: string)
    requires Inv(s) && HandsBack(s, e, location) && Step(s, e, location).lease.leased
    ensures s.lease.phase == Running && location == s.lease.sourceUrl
    ensures Step(s, e, location).lease == s.lease
  {
  }

  // ---- runs ----------------------------------------------------------------------------

  /** The states of a run: each event with the url the page has then. */
  function RunOf(s: State, events: seq<(Event, string)>): State {
    if events == [] then s
    else Step(RunOf(s, events[..|events| - 1]), events[|events| - 1].0, events[|events| - 1].1)
  }

  const BEGIN := State(FRESH, map[])

  lemma {:induction false} RunKeepsInv(events: seq<(Event, string)>)
    ensures Inv(RunOf(BEGIN, events))
  {
    if events != [] {
      RunKeepsInv(events[..|events| - 1]);
      StepKeepsInv(RunOf(BEGIN, events[..|events| - 1]), events[|events| - 1].0, events[|events| - 1].1);
    }
  }

  predicate Hears(events: seq<(Event, string)>, i: nat, j: nat, e: Event)
    requires i <= j <= |events|
  {
    exists k :: i <= k < j && events[k].0 == e
  }

  /** Only a resume or a start leads back to running. */
  lemma {:induction false} BackToRunning(events: seq<(Event, string)>, i: nat, j: nat)
    requires i <= j <= |events|
    requires RunOf(BEGIN, events[..i]).lease.phase != Running && RunOf(BEGIN, events[..j]).lease.phase == Running
    ensures Hears(events, i, j, Resume) || Hears(events, i, j, Start)
    ensures RunOf(BEGIN, events[..i]).lease.phase == Stopped ==> Hears(events, i, j, Start)
  {
    assert events[..j][..j - 1] == events[..j - 1];
    var before := RunOf(BEGIN, events[..j - 1]);
    RunKeepsInv(events[..j - 1]);
    if before.lease.phase == Running {
      BackToRunning(events, i, j - 1);
    } else {
      assert events[j - 1].0 == Resume || events[j - 1].0 == Start;
      if RunOf(BEGIN, events[..i]).lease.phase == Stopped && events[j - 1].0 == Resume {
        StoppedUntilStart(events, i, j - 1);
      }
    }
  }

  /** From stopped, only a start can lead to paused. */
  lemma {:induction false} StoppedUntilStart(events: seq<(Event, string)>, i: nat, j: nat)
    requires i <= j <= |events|
    requires RunOf(BEGIN, events[..i]).lease.phase == Stopped && RunOf(BEGIN, events[..j]).lease.phase in {Paused, Running}
    ensures Hears(events, i, j, Start)
  {
    assert events[..j][..j - 1] == events[..j - 1];
    if RunOf(BEGIN, events[..j - 1]).lease.phase in {Paused, Running} { StoppedUntilStart(events, i, j - 1); }
  }

  /** A pause of a running fill, a stop of one that runs or is paused. */
  predicate Halts(l: Lease, e: Event) {
    || (e == Pause && l.phase == Running)
    || (e == Stop && (l.phase == Running || l.phase == Paused))
  }

  /** What a pause or a stop leaves, until a resume of the one or the fill's finish. */
  lemma {:induction false} StaysHalted(events: seq<(Event, string)>, i: nat, j: nat)
    requires i < j <= |events| && Halts(RunOf(BEGIN, events[..i]).lease, events[i].0) && !Hears(events, i + 1, j, Finish)
    ensures !Hears(events, i + 1, j, Resume) ==> RunOf(BEGIN, events[..j]).lease.phase in {Paused, Stopped}
    ensures events[i].0 == Stop ==> RunOf(BEGIN, events[..j]).lease.phase == Stopped
  {
    hide Step, Inv, Halts;
    assert events[..j][..j - 1] == events[..j - 1];
    RunKeepsInv(events[..j - 1]);
    HaltedStep(RunOf(BEGIN, events[..j - 1]), events[j - 1].0, events[j - 1].1);
    if i < j - 1 {
      assert events[j - 1].0 != Finish;
      StaysHalted(events, i, j - 1);
    }
  }

  lemma HaltedStep(s: State, e: Event, location: string)
    requires Inv(s)
    ensures Halts(s.lease, e) ==> Step(s, e, location).lease.phase == if e == Stop then Stopped else Paused
    ensures s.lease.phase == Stopped && e != Finish ==> Step(s, e, location).lease.phase == Stopped
    ensures s.lease.phase == Paused && e != Resume && e != Finish ==> Step(s, e, location).lease.phase in {Paused, Stopped}
  {
  }

  lemma HaltedHandsNothingBack(s: State, e: Event, location: string)
    requires Inv(s)
    ensures s.lease.phase in {Paused, Stopped} ==> !HandsBack(s, e, location)
  {
  }

  lemma TouchedWhileRunning(events: seq<(Event, string)>, j: nat)
    requires j < |events| && HandsBack(RunOf(BEGIN, events[..j]), events[j].0, events[j].1)
    ensures RunOf(BEGIN, events[..j]).lease.phase !in {Paused, Stopped}
    ensures RunOf(BEGIN, events[..j + 1]).lease.leased ==> RunOf(BEGIN, events[..j]).lease.phase == Running
  {
    hide Step, HandsBack, Inv;
    RunKeepsInv(events[..j]);
    assert events[..j + 1][..j] == events[..j];
    HaltedHandsNothingBack(RunOf(BEGIN, events[..j]), events[j].0, events[j].1);
    if RunOf(BEGIN, events[..j + 1]).lease.leased {
      HandsBackOnlyWhileRunning(RunOf(BEGIN, events[..j]), events[j].0, events[j].1);
    }
  }

  /** After a pause of a running fill no caller goes on to touch the page until a resume, after a stop not even
      then, unless the fill has finished; and under a lease only once a new one has started. */
  lemma NothingIsTouchedMeanwhile(events: seq<(Event, string)>, i: nat, j: nat)
    requires i < j < |events| && Halts(RunOf(BEGIN, events[..i]).lease, events[i].0)
    requires HandsBack(RunOf(BEGIN, events[..j]), events[j].0, events[j].1)
    ensures Hears(events, i + 1, j, Finish) || (events[i].0 == Pause && Hears(events, i + 1, j, Resume))
    ensures RunOf(BEGIN, events[..j + 1]).lease.leased ==>
              Hears(events, i + 1, j, Start) || (events[i].0 == Pause && Hears(events, i + 1, j, Resume))
  {
    TouchedWhileRunning(events, j);
    assert !Hears(events, i + 1, i + 1, Finish) && !Hears(events, i + 1, i + 1, Resume);
    assert Halts(RunOf(BEGIN, events[..i]).lease, events[i].0) ==> events[i].0 in {Pause, Stop};
    hide RunOf, HandsBack, Halts, Hears;
    StaysHalted(events, i, i + 1);
    if !Hears(events, i + 1, j, Finish) { StaysHalted(events, i, j); }
    if RunOf(BEGIN, events[..j + 1]).lease.leased { BackToRunning(events, i + 1, j); }
  }

  /** A stop rejects every wait and sleep under way, and what is parked wakes to throw. */
  lemma StopRejects(s: State, location: string, later: string, t: TaskId)
    requires Inv(s) && Halts(s.lease, Stop) && t in s.tasks
    ensures var s' := Step(s, Stop, location);
            && s'.lease.phase == Stopped && s'.lease.leased && s'.lease.controller == s.lease.controller
            && (s.tasks[t].Racing? && s.tasks[t].signal == s.lease.controller ==> s'.tasks[t] == Lost)
            && (s.tasks[t].Parked? ==> s'.tasks[t] == Released(s.tasks[t].next))
            && !HandsBack(s', GoOn(t), later)
  {
    assert s.tasks[t].Parked? ==> t in s.lease.wake;
  }

  /** While the fill runs on the url it started on, whoever reaches a checkpoint, or the end of a wait or a
      sleep, goes on; and a resume sends on whoever was parked. */
  lemma RunningHandsBack(s: State, t: TaskId, location: string)
    requires Inv(s) && location == s.lease.sourceUrl
    ensures s.lease.phase == Running ==>
              && (TaskOf(s, t) == Free ==> HandsBack(s, CallCheckpoint(t), location))
              && (TaskOf(s, t) in {Released(Caller), Won} ==> HandsBack(s, GoOn(t), location))
    ensures s.lease.phase == Paused && TaskOf(s, t) == Parked(Caller) ==>
              HandsBack(Step(s, Resume, location), GoOn(t), location)
  {
    assert t in s.tasks && s.tasks[t].Parked? ==> t in s.lease.wake;
  }
}
