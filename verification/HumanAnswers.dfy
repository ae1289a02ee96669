/** The rule that automation never overwrites a person's answer (extension/runtime/application.js,
    page-fill.js): what `put` writes, what a manual edit protects, what a fill begins by keeping.
    A control is a cell; a reader writes it only right after a checkpoint of the operation. */
module HumanAnswers {
  import opened Options

  type Key = string

  /** What automation last recorded of a field. */
  datatype Record = Record(ok: bool, value: Option<string>, error: bool, kept: bool)

  datatype Phase = Idle | Running | Paused | Stopped

  /** A fill of one control under way. `found` is what the control held when put decided on it, and
      `edits` how many manual edits there had been: ghost records. */
  datatype Work = Work(key: Key, value: Option<string>, explicit: bool, found: string, edits: nat)

  /** `fields` are the fields last read; controls not in the map are blank. */
  datatype State = State(
    controls: map<Key, string>, fields: set<Key>, touched: set<Key>, filled: map<Key, Record>,
    phase: Phase, work: Option<Work>, edits: nat)

  const BEGIN := State(map[], {}, {}, map[], Idle, None, 0)

  function Current(s: State, key: Key): string { if key in s.controls then s.controls[key] else "" }

  predicate Kept(s: State, key: Key) { key in s.filled && s.filled[key].kept }

  /** The control holds exactly what automation last recorded. */
  predicate Recorded(s: State, key: Key) { key in s.filled && s.filled[key].value == Some(Current(s, key)) }

  // ---- put, edits and resets -----------------------------------------------------------

  datatype Choice = Pass | Keep | Fill

  /** What put does with a field, before anything is awaited. */
  function Decide(s: State, key: Key, explicit: bool): Choice {
    if key !in s.fields then Pass
    else if !explicit && key in s.filled && s.filled[key].error && Recorded(s, key) then Pass
    else if !explicit && (key in s.touched || Kept(s, key) || (Current(s, key) != "" && !Recorded(s, key))) then Keep
    else Fill
  }

  function KeptRecord(s: State, key: Key): Record {
    Record(Current(s, key) != "", Some(Current(s, key)), false, true)
  }

  /** The records a fill starts from: every populated field of its entries is kept. */
  function Reset(s: State, entries: set<Key>): map<Key, Record> {
    map key | key in entries && key in s.fields && Current(s, key) != "" :: KeptRecord(s, key)
  }

  datatype Event =
    | Start
    | ReadFields(fields: set<Key>)
    | ResetFill(entries: set<Key>)
    | NewPage
    | Put(key: Key, value: Option<string>, explicit: bool)
    | Write(text: string)
    | EndPut(ok: bool, error: bool)
    | Throw
    | Human(key: Key, text: string)
    | Page(key: Key, text: string)
    | Pause
    | Resume
    | Stop
    | Finish

  /** The steps of a page and its automation. The operation's phases are those of the lease: a write
      needs it running, and it does not finish under a fill. */
  function Next(s: State, e: Event): State {
    match e
    case Start => if s.phase == Idle then s.(phase := Running) else s
    case ReadFields(fields) => if s.work.None? then s.(fields := fields) else s
    case ResetFill(entries) => if s.phase == Running && s.work.None? then s.(filled := Reset(s, entries)) else s
    case NewPage => if s.phase == Idle then s.(fields := {}, filled := map[]) else s
    case Put(key, value, explicit) =>
      if s.phase == Idle || s.work.Some? then s
      else
        (match Decide(s, key, explicit)
         case Pass => s
         case Keep => s.(filled := s.filled[key := KeptRecord(s, key)])
         case Fill => s.(work := Some(Work(key, value, explicit, Current(s, key), s.edits))))
    case Write(text) =>
      if s.work.Some? && s.phase == Running then s.(controls := s.controls[s.work.value.key := text]) else s
    case EndPut(ok, error) =>
      if s.work.None? then s
      else
        var w := s.work.value;
        s.(filled := s.filled[w.key := Record(ok, w.value, error, false)], work := None,
           touched := if w.explicit && ok then s.touched + {w.key} else s.touched)
    case Throw => if s.phase == Stopped then s.(work := None) else s
    case Human(key, text) =>
      s.(controls := s.controls[key := text], edits := s.edits + 1,
         touched := if key in s.fields then s.touched + {key} else s.touched,
         phase := if s.phase == Running || s.phase == Paused then Stopped else s.phase)
    case Page(key, text) => s.(controls := s.controls[key := text])
    case Pause => if s.phase == Running then s.(phase := Paused) else s
    case Resume => if s.phase == Paused then s.(phase := Running) else s
    case Stop => if s.phase == Running || s.phase == Paused then s.(phase := Stopped) else s
    case Finish => if s.work.None? then s.(phase := Idle) else s
  }

  // ---- the invariant -------------------------------------------------------------------

  /** A fill still able to write, unless asked for, is of a control nobody touched or kept, found blank
      or holding what automation recorded; and no edit has come between. */
  predicate MayWrite(s: State, w: Work) {
    && w.edits == s.edits
    && (!w.explicit ==>
          && w.key !in s.touched && !Kept(s, w.key)
          && (w.found == "" || (w.key in s.filled && s.filled[w.key].value == Some(w.found))))
  }

  predicate Inv(s: State) {
    && (s.work.Some? ==> s.phase != Idle)
    && (s.work.Some? && s.phase != Stopped ==> MayWrite(s, s.work.value))
  }

  lemma NextKeepsInv(s: State, e: Event)
    requires Inv(s)
    ensures Inv(Next(s, e))
    ensures s.touched <= Next(s, e).touched
  {
  }

  function RunOf(events: seq<Event>): State {
    if events == [] then BEGIN else Next(RunOf(events[..|events| - 1]), events[|events| - 1])
  }

  lemma {:induction false} RunKeepsInv(events: seq<Event>)
    ensures Inv(RunOf(events))
  {
    hide Next, Inv;
    if events == [] {
      BeginInv();
    } else {
      RunKeepsInv(events[..|events| - 1]);
      NextKeepsInv(RunOf(events[..|events| - 1]), events[|events| - 1]);
    }
  }

  lemma BeginInv()
    ensures Inv(BEGIN)
  {
  }

  predicate Writes(s: State, e: Event, key: Key) {
    e.Write? && s.work.Some? && s.phase == Running && s.work.value.key == key
  }

  /** In every run a write nobody asked for is of a control not touched and not kept, which put found
      blank or holding exactly what automation had last recorded, with no manual edit since. */
  lemma WritesAreAllowed(events: seq<Event>, e: Event, key: Key)
    requires Writes(RunOf(events), e, key)
    ensures var s := RunOf(events); var w := s.work.value;
            && w.edits == s.edits
            && (!w.explicit ==> key !in s.touched && !Kept(s, key)
                                && (w.found == "" || (key in s.filled && s.filled[key].value == Some(w.found))))
  {
    RunKeepsInv(events);
  }

  /** In every run, with a fill under way and none of a control: a put begins one exactly when its field has
      been read and it was asked for, or nobody touched or kept the control, it is blank or holds what
      automation recorded, and that was no failed attempt at what it holds. */
  lemma PutBegins(events: seq<Event>, i: nat, key: Key, value: Option<string>, explicit: bool)
    requires i < |events| && events[i] == Put(key, value, explicit)
    requires RunOf(events[..i]).work.None? && RunOf(events[..i]).phase != Idle
    ensures var s, s' := RunOf(events[..i]), RunOf(events[..i + 1]);
            var current := if key in s.controls then s.controls[key] else "";
            var recorded := key in s.filled && s.filled[key].value == Some(current);
            var free := key !in s.touched && !(key in s.filled && s.filled[key].kept) && (current == "" || recorded);
            && (s'.work.Some? <==> key in s.fields && (explicit || (free && !(recorded && s.filled[key].error))))
            && (s'.work.Some? ==> s'.work.value.key == key && s'.work.value.value == value)
            && s'.controls == s.controls && s'.touched == s.touched
  {
    assert events[..i + 1][..i] == events[..i];
  }

  /** The fill begun, its write lands while the operation runs, and its end is recorded. */
  lemma FillLands(events: seq<Event>, i: nat, text: string, ok: bool, error: bool)
    requires i + 1 < |events| && events[i] == Write(text) && events[i + 1] == EndPut(ok, error)
    requires RunOf(events[..i]).work.Some? && RunOf(events[..i]).phase == Running
    ensures var s, s' := RunOf(events[..i]), RunOf(events[..i + 2]);
            var w := s.work.value;
            && s'.controls == s.controls[w.key := text] && s'.work.None?
            && s'.filled == s.filled[w.key := Record(ok, w.value, error, false)]
            && s'.touched == if w.explicit && ok then s.touched + {w.key} else s.touched
  {
    assert events[..i + 1][..i] == events[..i];
    assert events[..i + 2][..i + 1] == events[..i + 1];
  }

  /** A fill that was stopped throws out of its reader without recording anything, and the next may start. */
  lemma StoppedFillEnds(events: seq<Event>, i: nat)
    requires i + 2 < |events| && events[i] == Throw && events[i + 1] == Finish && events[i + 2] == Start
    requires RunOf(events[..i]).phase == Stopped
    ensures var s, s' := RunOf(events[..i]), RunOf(events[..i + 3]);
            s' == s.(work := None, phase := Running)
  {
    assert events[..i + 1][..i] == events[..i];
    assert RunOf(events[..i + 1]) == Next(RunOf(events[..i]), Throw);
    assert events[..i + 2][..i + 1] == events[..i + 1];
    assert RunOf(events[..i + 2]) == Next(RunOf(events[..i + 1]), Finish);
    assert events[..i + 3][..i + 2] == events[..i + 2];
  }

  // ---- what survives -------------------------------------------------------------------

  /** The control is the person's: touched, or holding an answer automation did not record or was told
      to keep; and no fill of it can still write. */
  predicate Theirs(s: State, key: Key) {
    && (key in s.touched || (Current(s, key) != "" && (Kept(s, key) || !Recorded(s, key))))
    && (s.work.Some? && s.work.value.key == key ==> s.phase == Stopped && key in s.touched)
  }

  /** The person edits the control, the page changes it, or a put the person asked for fills it. */
  predicate Asked(e: Event, key: Key) {
    (e.Human? && e.key == key) || (e.Page? && e.key == key) || (e.Put? && e.key == key && e.explicit)
  }

  lemma EditMakesTheirs(s: State, key: Key, text: string)
    requires Inv(s) && key in s.fields
    ensures Theirs(Next(s, Human(key, text)), key) && Current(Next(s, Human(key, text)), key) == text
  {
  }

  lemma NextKeepsTheirs(s: State, e: Event, key: Key)
    requires Inv(s) && Theirs(s, key) && !Asked(e, key)
    ensures Theirs(Next(s, e), key) && Current(Next(s, e), key) == Current(s, key)
  {
  }

  /** What is the person's stays as it is, through any fills, reveals, verifications, model answers,
      stops, resets and pages, until they edit it, ask for it, or the page changes it. */
  lemma {:induction false} TheirsStays(events: seq<Event>, i: nat, j: nat, key: Key)
    requires i <= j <= |events| && Theirs(RunOf(events[..i]), key)
    requires forall k :: i <= k < j ==> !Asked(events[k], key)
    ensures Theirs(RunOf(events[..j]), key) && Current(RunOf(events[..j]), key) == Current(RunOf(events[..i]), key)
  {
    hide Next, Inv, Theirs, Current;
    if i < j {
      TheirsStays(events, i, j - 1, key);
      assert events[..j][..j - 1] == events[..j - 1];
      RunKeepsInv(events[..j - 1]);
      NextKeepsTheirs(RunOf(events[..j - 1]), events[j - 1], key);
    }
  }

  /** An answer a person gives a field that has been read is what the field holds from then on, until
      they edit it, ask for it, or the page changes it. */
  lemma HumanAnswerSurvives(events: seq<Event>, i: nat, j: nat, key: Key, text: string)
    requires i < j <= |events| && events[i] == Human(key, text) && key in RunOf(events[..i]).fields
    requires forall k :: i < k < j ==> !Asked(events[k], key)
    ensures Current(RunOf(events[..j]), key) == text && key in RunOf(events[..j]).touched
  {
    assert events[..i + 1][..i] == events[..i];
    RunKeepsInv(events[..i]);
    EditMakesTheirs(RunOf(events[..i]), key, text);
    TheirsStays(events, i + 1, j, key);
    TouchedGrows(events, i + 1, j);
  }

  lemma {:induction false} TouchedGrows(events: seq<Event>, i: nat, j: nat)
    requires i <= j <= |events|
    ensures RunOf(events[..i]).touched <= RunOf(events[..j]).touched
  {
    hide Next, Inv;
    if i < j {
      TouchedGrows(events, i, j - 1);
      assert events[..j][..j - 1] == events[..j - 1];
      RunKeepsInv(events[..j - 1]);
      NextKeepsInv(RunOf(events[..j - 1]), events[j - 1]);
    }
  }

  /** A fill begins by keeping whatever is on the form: every populated field among its entries is kept,
      and is the person's whoever filled it. */
  lemma ResetKeepsPopulated(s: State, entries: set<Key>, key: Key)
    requires s.phase == Running && s.work.None?
    ensures var s' := Next(s, ResetFill(entries));
            && (Kept(s', key) <==> key in entries && key in s.fields && Current(s, key) != "")
            && (Current(s, key) != "" ==> Theirs(s', key))
  {
  }

  function KeysOf(entries: seq<Key>): set<Key> { set key | key in entries }

  /** What is the person's is never filled unasked. */
  lemma TheirsIsRefused(s: State, key: Key)
    requires s.work.None? && Theirs(s, key)
    ensures !Decide(s, key, false).Fill?
  {
  }

  /** A put carried through: its reader writes `text` and ends as told. */
  function PutThrough(s: State, key: Key, value: Option<string>, explicit: bool, text: string, ok: bool, error: bool): State {
    var decided := Next(s, Put(key, value, explicit));
    if Decide(s, key, explicit).Fill? then Next(Next(decided, Write(text)), EndPut(ok, error)) else decided
  }

  lemma PutThroughIs(s: State, key: Key, value: Option<string>, explicit: bool, text: string, ok: bool, error: bool)
    requires s.phase == Running && s.work.None?
    ensures PutThrough(s, key, value, explicit, text, ok, error)
         == (match Decide(s, key, explicit)
             case Pass => s
             case Keep => s.(filled := s.filled[key := KeptRecord(s, key)])
             case Fill => s.(controls := s.controls[key := text], filled := s.filled[key := Record(ok, value, error, false)],
                             touched := if explicit && ok then s.touched + {key} else s.touched))
  {
  }

  // ---- the object ----------------------------------------------------------------------

  class Application {
    var controls: map<Key, string>
    var fields: set<Key>
    var touched: set<Key>
    var filled: map<Key, Record>
    var phase: Phase
    ghost var edits: nat

    ghost function View(): State
      reads this
    {
      State(controls, fields, touched, filled, phase, None, edits)
    }

    constructor ()
      ensures View() == BEGIN
    {
      controls, fields, touched, filled, phase, edits := map[], {}, {}, map[], Idle, 0;
    }

    function CurrentOf(key: Key): string
      reads this
    {
      if key in controls then controls[key] else ""
    }

    /** `put`, its reader writing `text` and ending as told. */
    method PutAnswer(key: Key, value: Option<string>, explicit: bool, text: string, ok: bool, error: bool) returns (done: bool)
      requires phase == Running
      modifies this
      ensures View() == PutThrough(old(View()), key, value, explicit, text, ok, error)
      ensures done <==> Decide(old(View()), key, explicit).Fill? && ok
      ensures !explicit && Theirs(old(View()), key) ==> controls == old(controls)
      ensures var current := if key in old(controls) then old(controls)[key] else "";
              var recorded := key in old(filled) && old(filled)[key].value == Some(current);
              var spoilt := recorded && old(filled)[key].error;
              var free := key !in old(touched) && !(key in old(filled) && old(filled)[key].kept) && (current == "" || recorded);
              if key in fields && (explicit || (free && !spoilt))
              then
                && controls == old(controls)[key := text] && filled == old(filled)[key := Record(ok, value, error, false)]
                && done == ok && touched == if explicit && ok then old(touched) + {key} else old(touched)
              else
                && controls == old(controls) && touched == old(touched) && !done
                && filled == if key in fields && !spoilt then old(filled)[key := Record(current != "", Some(current), false, true)]
                             else old(filled)
      ensures fields == old(fields) && phase == old(phase)
    {
      if Theirs(View(), key) { TheirsIsRefused(View(), key); }
      hide Theirs, Next, PutThrough;
      PutThroughIs(View(), key, value, explicit, text, ok, error);
      if key !in fields { return false; }
      var current := CurrentOf(key);
      var recorded := key in filled && filled[key].value == Some(current);
      if !explicit && key in filled && filled[key].error && recorded { return false; }
      if !explicit && (key in touched || (key in filled && filled[key].kept) || (current != "" && !recorded)) {
        filled := filled[key := Record(current != "", Some(current), false, true)];
        return false;
      }
      controls := controls[key := text];
      filled := filled[key := Record(ok, value, error, false)];
      if explicit && ok { touched := touched + {key}; }
      done := ok;
    }

    /** protectManualEdit, for an edit of the control of `key` that a human gesture preceded. */
    method ManualEdit(key: Key, text: string)
      modifies this
      ensures View() == Next(old(View()), Human(key, text))
      ensures controls == old(controls)[key := text] && fields == old(fields) && filled == old(filled)
      ensures touched == if key in fields then old(touched) + {key} else old(touched)
      ensures phase == if old(phase) == Running || old(phase) == Paused then Stopped else old(phase)
    {
      controls := controls[key := text];
      edits := edits + 1;
      if key in fields { touched := touched + {key}; }
      if phase == Running || phase == Paused { phase := Stopped; }
    }

    /** The reset of runPage: the loop over the fill's entries. */
    method BeginFill(entries: seq<Key>)
      requires phase == Running
      modifies this
      ensures View() == Next(old(View()), ResetFill(KeysOf(entries)))
      ensures forall key :: key in filled <==> key in entries && key in fields && CurrentOf(key) != ""
      ensures forall key :: key in filled ==> filled[key] == Record(true, Some(CurrentOf(key)), false, true)
      ensures controls == old(controls) && fields == old(fields) && touched == old(touched) && phase == old(phase)
    {
      filled := map[];
      for i := 0 to |entries|
        invariant controls == old(controls) && fields == old(fields) && touched == old(touched)
        invariant phase == old(phase) && edits == old(edits)
        invariant filled == Reset(old(View()), KeysOf(entries[..i]))
      {
        var key := entries[i];
        assert KeysOf(entries[..i + 1]) == KeysOf(entries[..i]) + {key};
        if key in fields && CurrentOf(key) != "" {
          filled := filled[key := Record(true, Some(CurrentOf(key)), false, true)];
        }
      }
      assert entries[..|entries|] == entries;
    }
  }
}
