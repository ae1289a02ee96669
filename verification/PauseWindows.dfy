/** The AI switch's skipped backlog (src/api/ai_pause.py): one pass over the change log of
    `ai_paused` that turns every ended pause into a half-open window of skipped instants.
    Times are integers, one per microsecond, the resolution of the log's timestamps. */
module PauseWindows {
  import opened Options

  /** A logged value is any JSON value; only `true` turns the switch on. */
  datatype Json = True | False | Other(text: string)

  datatype Change = Change(at: int, newValue: Json) {
    predicate On() { newValue.True? }
  }

  datatype Window = Window(from: int, to: int)

  datatype Scan = Scan(began: Option<int>, windows: seq<Window>)

  ghost predicate StrictlyIncreasing(changes: seq<Change>) {
    forall i, j :: 0 <= i < j < |changes| ==> changes[i].at < changes[j].at
  }

  /** ORDER BY created_at, id: entries of one instant stand in the order they were written. */
  ghost predicate InOrder(changes: seq<Change>) {
    forall i, j :: 0 <= i < j < |changes| ==> changes[i].at <= changes[j].at
  }

  /** What one entry of the log does to the open pause and the windows found so far. */
  function Step(s: Scan, change: Change, keep: int): Scan {
    if change.On() && s.began.None? then s.(began := Some(change.at))
    else if !change.On() && s.began.Some? then
      Scan(None, if change.at - keep > s.began.value
                 then s.windows + [Window(s.began.value, change.at - keep)] else s.windows)
    else s
  }

  function ScanOf(changes: seq<Change>, keep: int): Scan {
    if changes == [] then Scan(None, [])
    else Step(ScanOf(changes[..|changes| - 1], keep), changes[|changes| - 1], keep)
  }

  /** The switch at an instant: the newest entry at or before it, off before the first. */
  function OnAt(changes: seq<Change>, t: int): bool {
    if changes == [] then false
    else if changes[|changes| - 1].at <= t then changes[|changes| - 1].On()
    else OnAt(changes[..|changes| - 1], t)
  }

  ghost predicate OffAfter(changes: seq<Change>, t: int) {
    exists i :: 0 <= i < |changes| && changes[i].at > t && !changes[i].On()
  }

  /** What the windows are for: the switch was on from `t` through `keep` later, without a
      break, and the pause has ended since. */
  ghost predicate Skipped(changes: seq<Change>, keep: int, t: int) {
    (forall u :: t <= u <= t + keep ==> OnAt(changes, u)) && OffAfter(changes, t)
  }

  /** The SQL condition SKIPPED over the windows. */
  ghost predicate InSome(windows: seq<Window>, t: int) {
    exists i :: 0 <= i < |windows| && windows[i].from <= t < windows[i].to
  }

  ghost predicate Ascending(windows: seq<Window>) {
    && (forall i :: 0 <= i < |windows| ==> windows[i].from < windows[i].to)
    && (forall i, j :: 0 <= i < j < |windows| ==> windows[i].to < windows[j].from)
  }

  ghost predicate Disjoint(windows: seq<Window>) {
    && (forall i :: 0 <= i < |windows| ==> windows[i].from < windows[i].to)
    && (forall i, j :: 0 <= i < j < |windows| ==> windows[i].to <= windows[j].from)
  }

  // ---- the scan, entry by entry --------------------------------------------------------

  /** The pause open before the i-th entry. */
  function Began(changes: seq<Change>, i: nat): Option<int>
    requires i <= |changes|
  {
    ScanOf(changes[..i], 0).began
  }

  /** The i-th entry ends a pause that began at `from`. */
  predicate Ends(changes: seq<Change>, i: nat, from: int) {
    i < |changes| && !changes[i].On() && Began(changes, i) == Some(from)
  }

  lemma {:induction false} BeganIgnoresKeep(changes: seq<Change>, keep: int)
    ensures ScanOf(changes, keep).began == ScanOf(changes, 0).began
  {
    if changes != [] { BeganIgnoresKeep(changes[..|changes| - 1], keep); }
  }

  lemma BeganNext(changes: seq<Change>, i: nat)
    requires i < |changes|
    ensures Began(changes, i + 1)
         == if changes[i].On() then Some(Began(changes, i).OrElse(changes[i].at)) else None
  {
    assert changes[..i + 1][..i] == changes[..i];
  }

  /** An open pause began at an on entry, and every entry since is on. */
  lemma {:induction false} OpenSince(changes: seq<Change>, i: nat) returns (b: nat)
    requires i <= |changes| && Began(changes, i).Some?
    ensures b < i && changes[b].at == Began(changes, i).value && Began(changes, b).None?
    ensures forall j :: b <= j < i ==> changes[j].On() && (b < j ==> Began(changes, j) == Began(changes, i))
  {
    assert changes[..0] == [];
    BeganNext(changes, i - 1);
    if Began(changes, i - 1).Some? {
      b := OpenSince(changes, i - 1);
    } else {
      b := i - 1;
    }
  }

  /** A pause open before the i-th entry and not ended up to the j-th is open before the j-th. */
  lemma {:induction false} StaysOpen(changes: seq<Change>, i: nat, j: nat)
    requires i <= j <= |changes| && Began(changes, i).Some? && forall k :: i <= k < j ==> changes[k].On()
    ensures Began(changes, j) == Began(changes, i)
  {
    if i < j {
      StaysOpen(changes, i, j - 1);
      BeganNext(changes, j - 1);
    }
  }

  /** The windows are the ended pauses, each cut by `keep`, that something is left of. */
  lemma {:induction false} WindowsAreEnds(changes: seq<Change>, keep: int, n: nat, t: int)
    requires n <= |changes| && keep >= 0
    ensures InSome(ScanOf(changes[..n], keep).windows, t) <==>
            exists i, from :: 0 <= i < n && Ends(changes, i, from) && from <= t < changes[i].at - keep
  {
    if n > 0 {
      var before := ScanOf(changes[..n - 1], keep);
      assert changes[..n][..n - 1] == changes[..n - 1];
      WindowsAreEnds(changes, keep, n - 1, t);
      BeganIgnoresKeep(changes[..n - 1], keep);
      InSomeExtends(before, changes[n - 1], keep, t);
      if before.began.Some? { assert Ends(changes, n - 1, before.began.value) <==> !changes[n - 1].On(); }
    }
  }

  lemma InSomeExtends(s: Scan, c: Change, keep: int, t: int)
    requires keep >= 0
    ensures InSome(Step(s, c, keep).windows, t) <==>
            InSome(s.windows, t) || (!c.On() && s.began.Some? && s.began.value <= t < c.at - keep)
  {
    var all := Step(s, c, keep).windows;
    if InSome(s.windows, t) {
      var i :| 0 <= i < |s.windows| && s.windows[i].from <= t < s.windows[i].to;
      assert all[i] == s.windows[i];
    }
    assert all != s.windows ==> all[|s.windows|] == Window(s.began.value, c.at - keep);
  }

  // ---- the switch, read ----------------------------------------------------------------

  /** The switch reads as the last entry at or before the instant left it. */
  lemma {:induction false} Reads(changes: seq<Change>, m: nat, t: int)
    requires InOrder(changes) && m < |changes| && changes[m].at <= t && (m + 1 < |changes| ==> t < changes[m + 1].at)
    ensures OnAt(changes, t) == changes[m].On()
    decreases |changes|
  {
    if m < |changes| - 1 {
      var before := changes[..|changes| - 1];
      assert forall i, j :: 0 <= i < j < |before| ==> before[i] == changes[i] && before[j] == changes[j];
      Reads(before, m, t);
    }
  }

  /** An instant the switch reads on at has a last entry at or before it, which is on. */
  lemma {:induction false} LastBefore(changes: seq<Change>, t: int) returns (m: nat)
    requires InOrder(changes) && OnAt(changes, t)
    ensures m < |changes| && changes[m].at <= t && (m + 1 < |changes| ==> t < changes[m + 1].at) && changes[m].On()
    decreases |changes|
  {
    if changes[|changes| - 1].at <= t {
      m := |changes| - 1;
    } else {
      var before := changes[..|changes| - 1];
      assert forall i, j :: 0 <= i < j < |before| ==> before[i] == changes[i] && before[j] == changes[j];
      m := LastBefore(before, t);
    }
  }

  /** While a pause is open the switch reads on, up to the entry that ends it. */
  lemma OpenReadsOn(changes: seq<Change>, i: nat, from: int, u: int)
    requires InOrder(changes) && i < |changes| && Began(changes, i) == Some(from) && from <= u < changes[i].at
    ensures OnAt(changes, u)
  {
    var b := OpenSince(changes, i);
    var m := LastUpTo(changes, b, i, u);
    Reads(changes, m, u);
  }

  lemma {:induction false} LastUpTo(changes: seq<Change>, b: nat, i: nat, u: int) returns (m: nat)
    requires InOrder(changes) && b < i < |changes| && changes[b].at <= u < changes[i].at
    ensures b <= m < i && changes[m].at <= u < changes[m + 1].at
    decreases i
  {
    if changes[i - 1].at <= u { m := i - 1; } else { m := LastUpTo(changes, b, i - 1, u); }
  }

  /** The first off entry after the m-th. */
  lemma {:induction false} NextOff(changes: seq<Change>, m: nat, k: nat) returns (i: nat)
    requires m < k < |changes| && !changes[k].On()
    ensures m < i <= k && !changes[i].On() && forall j :: m < j < i ==> changes[j].On()
    decreases k
  {
    if j :| m < j < k && !changes[j].On() {
      i := NextOff(changes, m, j);
    } else {
      i := k;
    }
  }

  // ---- when the windows are exact ------------------------------------------------------

  /** An instant in a window is skipped, in every log. */
  lemma WindowsAreSkipped(changes: seq<Change>, keep: int, t: int)
    requires InOrder(changes) && keep >= 0 && InSome(ScanOf(changes, keep).windows, t)
    ensures Skipped(changes, keep, t)
  {
    assert changes[..|changes|] == changes;
    WindowsAreEnds(changes, keep, |changes|, t);
    var i, from :| 0 <= i < |changes| && Ends(changes, i, from) && from <= t < changes[i].at - keep;
    forall u | t <= u <= t + keep ensures OnAt(changes, u) { OpenReadsOn(changes, i, from, u); }
  }

  /** An off entry that ends a pause, though the switch reads on at its instant, a later entry of that
      instant having it so, and stays on until `keep` after the pause began. */
  ghost predicate Overruled(changes: seq<Change>, keep: int, i: nat, from: int) {
    && Ends(changes, i, from) && from < changes[i].at
    && OnAt(changes, changes[i].at) && forall u :: changes[i].at <= u <= from + keep ==> OnAt(changes, u)
  }

  ghost predicate Exact(changes: seq<Change>, keep: int) {
    forall t :: InSome(ScanOf(changes, keep).windows, t) <==> Skipped(changes, keep, t)
  }

  /** A skipped instant that no window holds comes before an overruled entry. */
  lemma MissedBeforeOverruled(changes: seq<Change>, keep: int, t: int) returns (i: nat, from: int)
    requires InOrder(changes) && keep >= 0 && Skipped(changes, keep, t) && !InSome(ScanOf(changes, keep).windows, t)
    ensures keep > 0 && Overruled(changes, keep, i, from)
  {
    assert OnAt(changes, t);
    var m := LastBefore(changes, t);
    var k :| 0 <= k < |changes| && changes[k].at > t && !changes[k].On();
    i := NextOff(changes, m, k);
    BeganNext(changes, m);
    StaysOpen(changes, m + 1, i);
    from := Began(changes, i).value;
    var b := OpenSince(changes, m + 1);
    assert changes[b].at <= t;
    assert changes[..|changes|] == changes;
    WindowsAreEnds(changes, keep, |changes|, t);
    assert Ends(changes, i, from);
  }

  /** An overruled entry leaves an instant out. */
  lemma OverruledMisses(changes: seq<Change>, keep: int, i: nat, from: int)
    requires InOrder(changes) && keep > 0 && Overruled(changes, keep, i, from)
    ensures var t := if from < changes[i].at - keep then changes[i].at - keep else from;
            Skipped(changes, keep, t) && !InSome(ScanOf(changes, keep).windows, t)
  {
    var a := changes[i].at;
    var t := if from < a - keep then a - keep else from;
    forall u | t <= u <= t + keep ensures OnAt(changes, u) {
      if u < a { OpenReadsOn(changes, i, from, u); }
    }
    assert changes[..|changes|] == changes;
    WindowsAreEnds(changes, keep, |changes|, t);
    forall j, other | 0 <= j < |changes| && Ends(changes, j, other) ensures !(other <= t < changes[j].at - keep) {
      OtherEnds(changes, i, from, j, other);
    }
  }

  /** Other pauses ended before this one began or began after it ended. */
  lemma OtherEnds(changes: seq<Change>, i: nat, from: int, j: nat, other: int)
    requires InOrder(changes) && Ends(changes, i, from) && Ends(changes, j, other)
    ensures i == j ==> from == other
    ensures j < i ==> changes[j].at <= from
    ensures i < j ==> changes[i].at <= other
  {
    var b := OpenSince(changes, i);
    var c := OpenSince(changes, j);
    assert j < i ==> j < b;
    assert i < j ==> i < c;
  }

  /** For every log in order, ties and all: the windows are exact if and only if `keep` is zero or no
      entry that ends a pause is overruled at its own instant. */
  lemma OverruledDecides(changes: seq<Change>, keep: int)
    requires InOrder(changes) && keep >= 0
    ensures Exact(changes, keep) <==> keep == 0 || forall i, from :: !Overruled(changes, keep, i, from)
  {
    forall t | InSome(ScanOf(changes, keep).windows, t) ensures Skipped(changes, keep, t) { WindowsAreSkipped(changes, keep, t); }
    if t :| Skipped(changes, keep, t) && !InSome(ScanOf(changes, keep).windows, t) {
      var i, from := MissedBeforeOverruled(changes, keep, t);
    }
    if keep > 0 {
      forall i, from | Overruled(changes, keep, i, from) ensures !Exact(changes, keep) {
        OverruledMisses(changes, keep, i, from);
      }
    }
  }

  /** The j-th entry is on and the last of its instant. */
  predicate LastOn(changes: seq<Change>, j: nat) {
    j < |changes| && changes[j].On() && (j + 1 < |changes| ==> changes[j].at < changes[j + 1].at)
  }

  /** Only a tie overrules: a later entry of the same instant, on and the last of it. */
  lemma OverruledIsATie(changes: seq<Change>, i: nat)
    requires InOrder(changes) && i < |changes| && !changes[i].On()
    ensures OnAt(changes, changes[i].at) <==> exists j :: i < j && LastOn(changes, j) && changes[j].at == changes[i].at
  {
    if OnAt(changes, changes[i].at) {
      var m := LastBefore(changes, changes[i].at);
      assert i <= m && LastOn(changes, m);
    }
    forall j | i < j && LastOn(changes, j) && changes[j].at == changes[i].at ensures OnAt(changes, changes[i].at) {
      Reads(changes, j, changes[j].at);
    }
  }

  /** In a log of distinct times no entry is overruled. */
  lemma DistinctTimesAreExact(changes: seq<Change>, keep: int)
    requires StrictlyIncreasing(changes) && keep >= 0
    ensures Exact(changes, keep)
  {
    forall i: nat, from | Ends(changes, i, from) ensures !Overruled(changes, keep, i, from) { Reads(changes, i, changes[i].at); }
    OverruledDecides(changes, keep);
  }

  /** The windows of a scan that has come to the instant `at` are in order, and the open pause is after them. */
  ghost predicate InPlace(s: Scan, at: int, strict: bool) {
    && Disjoint(s.windows) && (strict ==> Ascending(s.windows))
    && (s.began.Some? ==> s.began.value <= at)
    && forall i :: 0 <= i < |s.windows| ==>
         && s.windows[i].to <= at
         && (s.began.Some? ==> if strict then s.windows[i].to < s.began.value else s.windows[i].to <= s.began.value)
  }

  lemma StepKeepsPlace(s: Scan, at: int, c: Change, keep: int, strict: bool)
    requires InPlace(s, at, strict) && keep >= 0 && (if strict then at < c.at else at <= c.at)
    ensures InPlace(Step(s, c, keep), c.at, strict)
  {
    var all := Step(s, c, keep).windows;
    assert forall i :: 0 <= i < |s.windows| ==> all[i] == s.windows[i];
  }

  lemma {:induction false} WindowsAreInPlace(changes: seq<Change>, keep: int, strict: bool)
    requires changes != [] && keep >= 0 && if strict then StrictlyIncreasing(changes) else InOrder(changes)
    ensures InPlace(ScanOf(changes, keep), changes[|changes| - 1].at, strict)
  {
    hide Step;
    var n := |changes| - 1;
    if n > 0 {
      assert forall i, j :: 0 <= i < j < n ==> changes[..n][i] == changes[i] && changes[..n][j] == changes[j];
      WindowsAreInPlace(changes[..n], keep, strict);
      StepKeepsPlace(ScanOf(changes[..n], keep), changes[n - 1].at, changes[n], keep, strict);
    } else {
      assert changes[..0] == [];
      StepKeepsPlace(Scan(None, []), changes[0].at - 1, changes[0], keep, strict);
    }
  }

  /** The windows are non-empty and one after the other; where no two entries share an instant, apart. */
  lemma WindowsAreInOrder(changes: seq<Change>, keep: int)
    requires InOrder(changes) && keep >= 0
    ensures Disjoint(ScanOf(changes, keep).windows)
    ensures StrictlyIncreasing(changes) ==> Ascending(ScanOf(changes, keep).windows)
  {
    if changes != [] {
      WindowsAreInPlace(changes, keep, false);
      if StrictlyIncreasing(changes) { WindowsAreInPlace(changes, keep, true); }
    }
  }

  /** `skip_windows`, over the log as its query orders it. */
  method SkipWindows(changes: seq<Change>, keep: int) returns (windows: seq<Window>)
    requires InOrder(changes) && keep >= 0
    ensures windows == ScanOf(changes, keep).windows
    ensures Disjoint(windows) && (StrictlyIncreasing(changes) ==> Ascending(windows))
    ensures forall t :: InSome(windows, t) ==> Skipped(changes, keep, t)
    ensures (forall t :: InSome(windows, t) <==> Skipped(changes, keep, t))
            <==> keep == 0 || forall i, from :: !Overruled(changes, keep, i, from)
    ensures StrictlyIncreasing(changes) ==> forall t :: InSome(windows, t) <==> Skipped(changes, keep, t)
  {
    windows := [];
    var began: Option<int> := None;
    for i := 0 to |changes|
      invariant Scan(began, windows) == ScanOf(changes[..i], keep)
    {
      assert changes[..i + 1][..i] == changes[..i];
      var change := changes[i];
      var on := change.newValue == True;
      if on && began == None {
        began := Some(change.at);
      } else if !on && began != None {
        if change.at - keep > began.value {
          windows := windows + [Window(began.value, change.at - keep)];
        }
        began := None;
      }
    }
    assert changes[..|changes|] == changes;
    WindowsAreInOrder(changes, keep);
    OverruledDecides(changes, keep);
    forall t | InSome(windows, t) ensures Skipped(changes, keep, t) { WindowsAreSkipped(changes, keep, t); }
    if StrictlyIncreasing(changes) { DistinctTimesAreExact(changes, keep); }
  }

  /** An entry that repeats the switch's value changes nothing, wherever it stands. */
  lemma {:induction false} RepeatedEntryChangesNothing(before: seq<Change>, c: Change, after: seq<Change>, keep: int)
    requires c.On() == ScanOf(before, keep).began.Some?
    ensures ScanOf(before + [c] + after, keep) == ScanOf(before + after, keep)
  {
    if after == [] {
      assert (before + [c] + after)[..|before|] == before == before + after;
    } else {
      var n := |after| - 1;
      RepeatedEntryChangesNothing(before, c, after[..n], keep);
      assert (before + [c] + after)[..|before| + 1 + n] == before + [c] + after[..n];
      assert (before + after)[..|before| + n] == before + after[..n];
    }
  }

  /** The scan's open pause is the switch's value at the end of the log, so "repeats" above
      means what a reader of the log would say. */
  lemma {:induction false} OpenPauseIsTheLastEntry(changes: seq<Change>, keep: int)
    requires changes != []
    ensures ScanOf(changes, keep).began.Some? <==> changes[|changes| - 1].On()
  {
    var n := |changes| - 1;
    if n > 0 { OpenPauseIsTheLastEntry(changes[..n], keep); }
  }
}
