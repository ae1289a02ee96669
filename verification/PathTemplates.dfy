/** The placeholders of `expand` (extension/adapters/recipe-selectors.js) in templates whose every
    percent sign belongs to one: for given values, exactly when the ten passes are one substitution. */
module PathTemplates {
  import opened Options
  import opened PathExpansion
  import opened PathReadings

  /** No name begins another. */
  predicate PrefixFree(order: seq<string>) {
    && (forall i :: 0 <= i < |order| ==> IsName(order[i]))
    && forall i, j :: 0 <= i < |order| && 0 <= j < |order| && order[i] <= order[j] ==> order[i] == order[j]
  }

  predicate Begins(inner: string, order: seq<string>) { exists i :: 0 <= i < |order| && order[i] <= inner }

  /** What passes leave of a template: between an opening and a closing sign stands text that begins
      with a placeholder's name, and goes on after it where a pass has joined two of them. */
  predicate Loose(t: Template, order: seq<string>) {
    && '%' !in t.text
    && (t.Hole? ==> '%' !in t.name && Begins(t.name, order) && Loose(t.rest, order))
  }

  function Holes(t: Template): nat { if t.End? then 0 else 1 + Holes(t.rest) }

  /** One pass: it fills its own placeholders, and joins two others when the text between them spells
      its name. */
  function PassOver(t: Template, name: string, value: string): Template
    decreases Holes(t)
  {
    if t.End? then t
    else if t.name == name then
      Prepend(t.text + value, PassOver(t.rest, name, value))
    else if t.rest.Hole? && t.rest.text == name then
      assert Holes(t) == 2 + Holes(t.rest.rest);
      PassOver(Hole(t.text, t.name + value + t.rest.name, t.rest.rest), name, value)
    else Hole(t.text, t.name, PassOver(t.rest, name, value))
  }

  /** A joined placeholder is none any more. */
  predicate Stuck(t: Template, order: seq<string>) { t.Hole? && (t.name !in order || Stuck(t.rest, order)) }

  lemma JoinedIsNoName(inner: string, more: string, order: seq<string>)
    requires PrefixFree(order) && Begins(inner, order) && more != ""
    ensures inner + more !in order && Begins(inner + more, order)
  {
    var i :| 0 <= i < |order| && order[i] <= inner;
    assert order[i] <= inner + more;
    forall j | 0 <= j < |order| ensures order[j] != inner + more {
      assert order[i] <= order[j] ==> |order[j]| <= |inner|;
    }
  }

  lemma {:induction false} PrependLoose(text: string, t: Template, order: seq<string>)
    requires '%' !in text && Loose(t, order)
    ensures Loose(Prepend(text, t), order) && (Stuck(Prepend(text, t), order) <==> Stuck(t, order))
  {
  }

  lemma {:induction false} PassKeepsLoose(t: Template, name: string, value: string, order: seq<string>)
    requires PrefixFree(order) && name in order && '%' !in value && Loose(t, order)
    ensures Loose(PassOver(t, name, value), order)
    ensures Stuck(t, order) ==> Stuck(PassOver(t, name, value), order)
    decreases Holes(t)
  {
    if t.Hole? {
      if t.name == name {
        PassKeepsLoose(t.rest, name, value, order);
        PrependLoose(t.text + value, PassOver(t.rest, name, value), order);
      } else if t.rest.Hole? && t.rest.text == name {
        assert Holes(t) == 2 + Holes(t.rest.rest);
        NameIsThere(t.rest.name, order);
        JoinedIsNoName(t.name, value + t.rest.name, order);
        assert t.name + (value + t.rest.name) == t.name + value + t.rest.name;
        PassKeepsLoose(Hole(t.text, t.name + value + t.rest.name, t.rest.rest), name, value, order);
      } else {
        PassKeepsLoose(t.rest, name, value, order);
      }
    }
  }

  lemma NameIsThere(inner: string, order: seq<string>)
    requires PrefixFree(order) && Begins(inner, order)
    ensures inner != ""
  {
  }

  /** The text between two placeholders spells the name, and the first is not of that name. */
  predicate Tidy(t: Template, name: string) {
    t.Hole? ==> (t.name == name || t.rest.End? || t.rest.text != name) && Tidy(t.rest, name)
  }

  /** An untidy pass joins placeholders for good. */
  lemma {:induction false} UntidySticks(t: Template, name: string, value: string, order: seq<string>)
    requires PrefixFree(order) && name in order && '%' !in value && Loose(t, order) && !Tidy(t, name)
    ensures Stuck(PassOver(t, name, value), order)
    decreases Holes(t)
  {
    if t.name == name {
      UntidySticks(t.rest, name, value, order);
      PassKeepsLoose(t.rest, name, value, order);
      PrependLoose(t.text + value, PassOver(t.rest, name, value), order);
    } else if t.rest.Hole? && t.rest.text == name {
      NameIsThere(t.rest.name, order);
      JoinedIsNoName(t.name, value + t.rest.name, order);
      assert t.name + (value + t.rest.name) == t.name + value + t.rest.name;
      PassKeepsLoose(Hole(t.text, t.name + value + t.rest.name, t.rest.rest), name, value, order);
    } else {
      UntidySticks(t.rest, name, value, order);
    }
  }

  lemma {:induction false} TidyPassFills(t: Template, name: string, value: string)
    requires Tidy(t, name)
    ensures PassOver(t, name, value) == Fill(t, name, value)
    decreases Holes(t)
  {
    if t.Hole? { TidyPassFills(t.rest, name, value); }
  }

  // ---- the pass over the text ----------------------------------------------------------

  /** The pass goes over what lies between two signs, where a name may open at the second only. */
  lemma SkipsInner(inner: string, s: string, name: string, put: string)
    requires '%' !in inner && IsName(name) && inner != name && '$' !in put
    ensures ReplaceAll("%" + (inner + ("%" + s)), Mark(name), put) == "%" + (inner + ReplaceAll("%" + s, Mark(name), put))
  {
    var rest := inner + ("%" + s);
    SkipsText(inner, "%" + s, Mark(name), put);
    if Mark(name) <= "%" + rest { InnerIsName(inner, s, name); }
    SkipsOne("%" + rest, Mark(name), put);
    assert ("%" + rest)[1..] == rest;
  }

  /** A string has one next sign. */
  lemma NextSign(s: string, a: nat, b: nat)
    requires a < |s| && b < |s| && s[a] == '%' && s[b] == '%'
    requires forall i :: 0 < i < a ==> s[i] != '%'
    requires forall i :: 0 < i < b ==> s[i] != '%'
    requires 0 < a && 0 < b
    ensures a == b
  {
  }

  lemma InnerIsName(inner: string, s: string, name: string)
    requires '%' !in inner && IsName(name) && Mark(name) <= "%" + (inner + ("%" + s))
    ensures inner == name
  {
    var whole := "%" + (inner + ("%" + s));
    Opening(whole, name);
    assert forall i :: 0 < i <= |inner| ==> whole[i] == inner[i - 1] && whole[i] != '%';
    assert whole[|inner| + 1] == '%';
    NextSign(whole, |inner| + 1, |name| + 1);
    assert forall i :: 0 <= i < |inner| ==> inner[i] == whole[i + 1] == name[i];
  }

  lemma TextOpensNothing(text: string, name: string)
    requires '%' !in text && IsName(name)
    ensures !(Mark(name) <= "%" + text)
  {
    var s := "%" + text;
    assert forall i :: 0 < i < |s| ==> s[i] == text[i - 1] && s[i] != '%';
    if Mark(name) <= s { Opening(s, name); }
  }

  lemma RenderHole(t: Template)
    requires t.Hole?
    ensures Render(t) == t.text + ("%" + (t.name + ("%" + Render(t.rest))))
  {
    MarkParts(t.name, Render(t.rest));
  }

  /** A closing sign opens the pass's mark only when the text to the next sign is the name. */
  lemma ClosingSign(rest: Template, name: string, put: string, order: seq<string>)
    requires Loose(rest, order) && IsName(name) && '$' !in put && !(rest.Hole? && rest.text == name)
    ensures ReplaceAll("%" + Render(rest), Mark(name), put) == "%" + ReplaceAll(Render(rest), Mark(name), put)
  {
    var s := "%" + Render(rest);
    if rest.End? {
      TextOpensNothing(rest.text, name);
    } else {
      RenderHole(rest);
      var after := rest.name + ("%" + Render(rest.rest));
      assert s == "%" + (rest.text + ("%" + after));
      if Mark(name) <= s { InnerIsName(rest.text, after, name); }
    }
    SkipsOne(s, Mark(name), put);
    assert s[1..] == Render(rest);
  }

  /** What a pass leaves of "%inner%" and what follows, when the inner text is not its name. */
  lemma {:induction false} PassIsOver(t: Template, name: string, put: string, order: seq<string>)
    requires PrefixFree(order) && name in order && '%' !in put && '$' !in put && Loose(t, order)
    ensures ReplaceAll(Render(t), Mark(name), put) == Render(PassOver(t, name, put))
    decreases Holes(t), 1
  {
    if t.End? {
      SkipsText(t.text, "", Mark(name), put);
      assert t.text + "" == t.text;
    } else {
      RenderHole(t);
      SkipsText(t.text, "%" + (t.name + ("%" + Render(t.rest))), Mark(name), put);
      if t.name == name {
        OwnHole(t, name, put, order);
      } else if t.rest.Hole? && t.rest.text == name {
        JoinedHole(t, name, put, order);
      } else {
        PassIsOver(t.rest, name, put, order);
        SkipsInner(t.name, Render(t.rest), name, put);
        ClosingSign(t.rest, name, put, order);
        RenderHole(Hole(t.text, t.name, PassOver(t.rest, name, put)));
      }
    }
  }

  lemma OwnHole(t: Template, name: string, put: string, order: seq<string>)
    requires PrefixFree(order) && name in order && '%' !in put && '$' !in put && Loose(t, order)
    requires t.Hole? && t.name == name
    ensures t.text + ReplaceAll("%" + (t.name + ("%" + Render(t.rest))), Mark(name), put) == Render(PassOver(t, name, put))
    decreases Holes(t), 0
  {
    PassIsOver(t.rest, name, put, order);
    MarkParts(name, Render(t.rest));
    var s := Mark(name) + Render(t.rest);
    assert s[|Mark(name)|..] == Render(t.rest);
    RenderPrepend(t.text + put, PassOver(t.rest, name, put));
    assert t.text + (put + Render(PassOver(t.rest, name, put))) == t.text + put + Render(PassOver(t.rest, name, put));
  }

  /** The mark between two placeholders is replaced, and the scan goes on in the second. */
  lemma JoinedMark(inner: string, second: string, after: string, name: string, put: string)
    requires '%' !in inner && '%' !in second && '%' !in put && '$' !in put && IsName(name)
    requires inner != name && inner + put + second != name
    ensures ReplaceAll("%" + (inner + ("%" + (name + ("%" + (second + ("%" + after)))))), Mark(name), put)
         == ReplaceAll("%" + ((inner + put + second) + ("%" + after)), Mark(name), put)
  {
    var pattern, end := Mark(name), ReplaceAll("%" + after, Mark(name), put);
    var next := second + ("%" + after);
    MarkParts(name, next);
    var tail := pattern + next;
    assert pattern <= tail && tail[|pattern|..] == next;
    SkipsText(second, "%" + after, pattern, put);
    SkipsInner(inner, name + ("%" + next), name, put);
    SkipsInner(inner + put + second, after, name, put);
    assert inner + (put + (second + end)) == (inner + put + second) + end;
  }

  lemma JoinedHole(t: Template, name: string, put: string, order: seq<string>)
    requires PrefixFree(order) && name in order && '%' !in put && '$' !in put && Loose(t, order)
    requires t.Hole? && t.name != name && t.rest.Hole? && t.rest.text == name
    ensures t.text + ReplaceAll("%" + (t.name + ("%" + Render(t.rest))), Mark(name), put) == Render(PassOver(t, name, put))
    decreases Holes(t), 0
  {
    var second, after := t.rest.name, Render(t.rest.rest);
    NameIsThere(second, order);
    JoinedIsNoName(t.name, put + second, order);
    var inner := t.name + put + second;
    assert t.name + (put + second) == inner;
    var joined := Hole(t.text, inner, t.rest.rest);
    assert Holes(t) == 2 + Holes(t.rest.rest) && Holes(joined) == 1 + Holes(t.rest.rest);
    PassIsOver(joined, name, put, order);
    RenderHole(t.rest);
    JoinedMark(t.name, second, after, name, put);
    RenderHole(joined);
    SkipsText(t.text, "%" + (inner + ("%" + after)), Mark(name), put);
  }

  // ---- all the passes ------------------------------------------------------------------

  function PassesOver(t: Template, order: seq<string>, values: Values): Template
    requires forall i :: 0 <= i < |order| ==> order[i] in values
    decreases |order|
  {
    if order == [] then t else PassesOver(PassOver(t, order[0], values[order[0]]), order[1..], values)
  }

  lemma {:induction false} PassesAreOver(t: Template, all: seq<string>, order: seq<string>, values: Values)
    requires Plain(values) && PrefixFree(all) && Loose(t, all)
    requires forall i :: 0 <= i < |order| ==> order[i] in values && order[i] in all
    ensures Passes(Render(t), order, values) == Render(PassesOver(t, order, values))
    ensures Stuck(t, all) ==> Stuck(PassesOver(t, order, values), all)
    decreases |order|
  {
    if order != [] {
      var name, put := order[0], values[order[0]];
      PassIsOver(t, name, put, all);
      PassKeepsLoose(t, name, put, all);
      PassesAreOver(PassOver(t, name, put), all, order[1..], values);
    }
  }

  /** No pass finds its name between two placeholders it does not fill, the earlier ones filled. */
  predicate TidyThrough(t: Template, order: seq<string>, values: Values)
    requires forall i :: 0 <= i < |order| ==> order[i] in values
    decreases |order|
  {
    order == [] || (Tidy(t, order[0]) && TidyThrough(Fill(t, order[0], values[order[0]]), order[1..], values))
  }

  lemma {:induction false} UntidyStaysStuck(t: Template, all: seq<string>, order: seq<string>, values: Values)
    requires Plain(values) && PrefixFree(all) && Loose(t, all)
    requires forall i :: 0 <= i < |order| ==> order[i] in values && order[i] in all
    requires !TidyThrough(t, order, values)
    ensures Stuck(PassesOver(t, order, values), all)
    decreases |order|
  {
    var name, put := order[0], values[order[0]];
    PassKeepsLoose(t, name, put, all);
    if Tidy(t, name) {
      TidyPassFills(t, name, put);
      UntidyStaysStuck(PassOver(t, name, put), all, order[1..], values);
    } else {
      UntidySticks(t, name, put, all);
      PassesAreOver(PassOver(t, name, put), all, order[1..], values);
    }
  }

  lemma StuckShows(t: Template, order: seq<string>)
    requires Stuck(t, order)
    ensures '%' in Render(t)
  {
    RenderHole(t);
    assert Render(t)[|t.text|] == '%';
  }

  lemma {:induction false} MeaningHoldsNoSign(t: Template, values: Values)
    requires Plain(values) && Whole(t) && forall n :: Uses(t, n) ==> n in values
    ensures '%' !in Meaning(t, values)
  {
    if t.Hole? {
      assert Uses(t, t.name) && forall n :: Uses(t.rest, n) ==> Uses(t, n);
      MeaningHoldsNoSign(t.rest, values);
    }
  }

  lemma {:induction false} WholeIsLoose(t: Template, order: seq<string>)
    requires Whole(t) && Covered(t, order)
    ensures Loose(t, order)
  {
    if t.Hole? {
      assert Uses(t, t.name) && forall n :: Uses(t.rest, n) ==> Uses(t, n);
      var i :| 0 <= i < |order| && order[i] == t.name;
      assert order[i] <= t.name;
      WholeIsLoose(t.rest, order);
    }
  }

  // ---- a template as it is read --------------------------------------------------------

  function ReadingOf(t: Template): Reading {
    match t
    case End(text) => Chars(text, Nil)
    case Hole(text, name, rest) => Chars(text, Slot(name, ReadingOf(rest)))
  }

  lemma {:induction false} ReadingText(t: Template)
    ensures Text(ReadingOf(t)) == Render(t)
  {
    match t
    case End(text) =>
      CharsText(text, Nil);
      assert text + "" == text;
    case Hole(text, name, rest) =>
      CharsText(text, Slot(name, ReadingOf(rest)));
      ReadingText(rest);
  }

  lemma {:induction false} ReadChars(text: string, s: string, values: Values)
    requires '%' !in text
    ensures Read(text + s, values) == Chars(text, Read(s, values))
  {
    if text == "" {
      assert text + s == s;
    } else {
      assert (text + s)[0] == text[0] && (text + s)[1..] == text[1..] + s;
      forall name ensures !OpensWith(text + s, name, values) {
        assert Mark(name)[0] == '%' && (text + s)[0] != '%';
      }
      ReadChars(text[1..], s, values);
    }
  }

  lemma {:induction false} ReadIsReading(t: Template, values: Values)
    requires Plain(values) && Whole(t) && forall n :: Uses(t, n) ==> n in values
    ensures Read(Render(t), values) == ReadingOf(t)
  {
    match t
    case End(text) =>
      ReadChars(text, "", values);
      assert text + "" == text;
    case Hole(text, name, rest) =>
      assert Uses(t, name) && forall n :: Uses(rest, n) ==> Uses(t, n);
      ReadIsReading(rest, values);
      var s := Mark(name) + Render(rest);
      ReadChars(text, s, values);
      assert OpensWith(s, name, values);
      forall n | OpensWith(s, n, values) ensures n == name { OpensWithOne(s, n, name, values); }
      assert s[|Mark(name)|..] == Render(rest);
  }

  lemma {:induction false} CharsClean(text: string, r: Reading, name: string)
    requires '%' !in text
    ensures Clean(Chars(text, r), name) <==> Clean(r, name)
  {
    if text != "" { CharsClean(text[1..], r, name); }
  }

  lemma FollowsText(rest: Template, name: string)
    requires Whole(rest) && IsName(name)
    ensures Follows(ReadingOf(rest), name) <==> rest.Hole? && rest.text == name
  {
    ReadingText(rest);
    SignOpens('%', Render(rest), name);
    assert ['%'] + Render(rest) == "%" + Render(rest);
    if rest.End? {
      TextOpensNothing(rest.text, name);
    } else {
      RenderHole(rest);
      var after := rest.name + ("%" + Render(rest.rest));
      assert "%" + Render(rest) == "%" + (rest.text + ("%" + after));
      if Mark(name) <= "%" + Render(rest) { InnerIsName(rest.text, after, name); }
      if rest.text == name { MarkParts(name, after); }
    }
  }

  lemma {:induction false} CleanIsTidy(t: Template, name: string)
    requires Whole(t) && IsName(name)
    ensures Clean(ReadingOf(t), name) <==> Tidy(t, name)
  {
    match t
    case End(text) => CharsClean(text, Nil, name);
    case Hole(text, n, rest) =>
      CharsClean(text, Slot(n, ReadingOf(rest)), name);
      CleanIsTidy(rest, name);
      FollowsText(rest, name);
  }

  lemma {:induction false} FilledChars(text: string, r: Reading, name: string, value: string)
    ensures Filled(Chars(text, r), name, value) == Chars(text, Filled(r, name, value))
  {
    if text != "" { FilledChars(text[1..], r, name, value); }
  }

  lemma {:induction false} CharsChars(a: string, b: string, r: Reading)
    ensures Chars(a, Chars(b, r)) == Chars(a + b, r)
  {
    if a == "" {
      assert a + b == b;
    } else {
      assert (a + b)[0] == a[0] && (a + b)[1..] == a[1..] + b;
      CharsChars(a[1..], b, r);
    }
  }

  lemma ReadingPrepends(text: string, t: Template)
    ensures ReadingOf(Prepend(text, t)) == Chars(text, ReadingOf(t))
  {
    match t
    case End(x) => CharsChars(text, x, Nil);
    case Hole(x, name, rest) => CharsChars(text, x, Slot(name, ReadingOf(rest)));
  }

  lemma {:induction false} FillReads(t: Template, name: string, value: string)
    requires Whole(t) && '%' !in value
    ensures ReadingOf(Fill(t, name, value)) == Filled(ReadingOf(t), name, value) && Whole(Fill(t, name, value))
  {
    match t
    case End(text) => FilledChars(text, Nil, name, value);
    case Hole(text, n, rest) =>
      FillReads(rest, name, value);
      FilledChars(text, Slot(n, ReadingOf(rest)), name, value);
      if n == name {
        ReadingPrepends(text + value, Fill(rest, name, value));
        CharsChars(text, value, ReadingOf(Fill(rest, name, value)));
      }
  }

  lemma {:induction false} UndisturbedIsTidy(t: Template, order: seq<string>, values: Values)
    requires Plain(values) && Whole(t) && forall i :: 0 <= i < |order| ==> order[i] in values
    ensures Undisturbed(ReadingOf(t), order, values) <==> TidyThrough(t, order, values)
    decreases |order|
  {
    if order != [] {
      CleanIsTidy(t, order[0]);
      FillReads(t, order[0], values[order[0]]);
      UndisturbedIsTidy(Fill(t, order[0], values[order[0]]), order[1..], values);
    }
  }

  // ---- the theorems --------------------------------------------------------------------

  /** A template whose every sign belongs to a placeholder, and given values: the passes are one
      simultaneous substitution exactly when none of them finds its name between two placeholders. */
  lemma TidyDecides(t: Template, order: seq<string>, values: Values)
    requires Plain(values) && Covers(order, values) && PrefixFree(order) && Whole(t) && Covered(t, order)
    ensures Passes(Render(t), order, values) == Substitute(Render(t), values) <==> TidyThrough(t, order, values)
  {
    forall n | Uses(t, n) ensures n in values { assert n in order; }
    if TidyThrough(t, order, values) {
      ReadIsReading(t, values);
      UndisturbedIsTidy(t, order, values);
      UndisturbedIsSimultaneous(Render(t), order, values);
    } else {
      WholeIsLoose(t, order);
      UntidyStaysStuck(t, order, order, values);
      PassesAreOver(t, order, order, values);
      StuckShows(PassesOver(t, order, values), order);
      SubstituteMeansIt(t, values);
      MeaningHoldsNoSign(t, values);
    }
  }

  /** Text that keeps placeholders apart keeps every pass undisturbed, whatever the values. */
  lemma SeparatedIsNeverDisturbed(t: Template, order: seq<string>)
    requires Separated(t) && Covered(t, order) && Distinct(order)
    ensures NeverDisturbed(Render(t), order)
  {
    forall values: Values | Plain(values) && Covers(order, values)
      ensures Passes(Render(t), order, values) == Substitute(Render(t), values)
    {
      PassesAreSimultaneous(t, order, values);
    }
    NeverDisturbedIsAlwaysSimultaneous(Render(t), order);
  }

  /** A name that begins another agrees with it in each of its characters. */
  lemma Agrees(a: string, b: string, k: nat)
    requires a <= b && k < |a|
    ensures a[k] == b[k]
  {
  }

  lemma NotBegun(i: nat, j: nat)
    requires i < 10 && j < 10 && PASSES[i] <= PASSES[j]
    ensures i == j
  {
    Agrees(PASSES[i], PASSES[j], 0);
    Agrees(PASSES[i], PASSES[j], 1);
    Agrees(PASSES[i], PASSES[j], 2);
    if i != 6 { Agrees(PASSES[i], PASSES[j], 5); }
  }

  lemma PassesAreNames()
    ensures forall i :: 0 <= i < 10 ==> IsName(PASSES[i])
  {
  }

  lemma PassesArePrefixFree()
    ensures PrefixFree(PASSES) && Distinct(PASSES)
  {
    PassesAreNames();
    hide IsName;
    forall i, j | 0 <= i < 10 && 0 <= j < 10 && PASSES[i] <= PASSES[j] ensures i == j { NotBegun(i, j); }
    forall i, j | 0 <= i < j < 10 ensures PASSES[i] != PASSES[j] {
      assert !(PASSES[i] <= PASSES[j]);
    }
  }

  lemma ValuesCover(ctx: Context, upper: string -> string, lower: string -> string)
    ensures Covers(PASSES, ValuesOf(ctx, upper, lower))
  {
  }

  /** The ten passes of `expand`, in a context, over a template whose every sign belongs to a placeholder. */
  lemma TidyDecidesExpand(t: Template, ctx: Context, upper: string -> string, lower: string -> string)
    requires Plain(ValuesOf(ctx, upper, lower)) && Whole(t) && Covered(t, PASSES)
    ensures Expand(Render(t), ctx, upper, lower) == Substitute(Render(t), ValuesOf(ctx, upper, lower))
            <==> TidyThrough(t, PASSES, ValuesOf(ctx, upper, lower))
  {
    PassesArePrefixFree();
    ValuesCover(ctx, upper, lower);
    TidyDecides(t, PASSES, ValuesOf(ctx, upper, lower));
  }

  lemma FirstPass()
    ensures ReplaceAll("%VA%INPUTPATH%LUE%", "%INPUTPATH%", "") == "%VALUE%"
  {
    var p, s := "%INPUTPATH%", "%VA%INPUTPATH%LUE%";
    assert s[1] != p[1];
    SkipsOne(s, p, "");
    assert s[1..] == "VA" + "%INPUTPATH%LUE%" && "%INPUTPATH%LUE%"[11..] == "LUE%" && p <= "%INPUTPATH%LUE%";
    SkipsText("VA", "%INPUTPATH%LUE%", p, "");
    assert ReplaceAll("%INPUTPATH%LUE%", p, "") == "" + "LUE%";
  }

  /** Passes whose mark is longer than the text leave it; one whose mark it is replaces it; then no
      sign is left. */
  lemma LaterPasses(values: Values)
    requires Plain(values) && "VALUE" in values && forall i :: 0 <= i < |PASSES| ==> PASSES[i] in values
    ensures Passes("%VALUE%", PASSES[1..], values) == values["VALUE"]
  {
    var v := values["VALUE"];
    assert PASSES[1..][5] == "VALUE";
    PassesLonger("%VALUE%", PASSES[1..], 5, values);
    var rest := PASSES[1..][5..];
    assert rest[0] == "VALUE" && Mark("VALUE") == "%VALUE%";
    assert ReplaceAll("%VALUE%", "%VALUE%", v) == v + "" == v by { assert "%VALUE%"[7..] == ""; }
    PassesNoSign(v, rest[1..], values);
  }

  lemma {:induction false} PassesLonger(s: string, order: seq<string>, n: nat, values: Values)
    requires n <= |order| && Plain(values) && forall i :: 0 <= i < |order| ==> order[i] in values
    requires forall i :: 0 <= i < n ==> |order[i]| + 2 > |s|
    ensures Passes(s, order, values) == Passes(s, order[n..], values)
  {
    if n == 0 {
      assert order[0..] == order;
    } else {
      PassesLonger(s, order[1..], n - 1, values);
      assert order[1..][n - 1..] == order[n..];
    }
  }

  lemma {:induction false} PassesNoSign(s: string, order: seq<string>, values: Values)
    requires '%' !in s && Plain(values) && forall i :: 0 <= i < |order| ==> order[i] in values
    ensures Passes(s, order, values) == s
  {
    if order != [] {
      SkipsText(s, "", Mark(order[0]), values[order[0]]);
      assert s + "" == s;
      PassesNoSign(s, order[1..], values);
    }
  }

  /** Two signs around two texts and a placeholder for nothing stay signs. */
  lemma SubstitutesStray(a: string, hole: string, b: string, values: Values)
    requires Plain(values) && '%' !in a && '%' !in b && a !in values && hole in values && values[hole] == ""
    ensures Substitute("%" + (a + (Mark(hole) + (b + "%"))), values) == "%" + (a + (b + "%"))
  {
    var tail := Mark(hole) + (b + "%");
    var s := "%" + (a + tail);
    MarkParts(hole, b + "%");
    forall name ensures !OpensWith(s, name, values) {
      if name in values && Mark(name) <= s { InnerIsName(a, hole + ("%" + (b + "%")), name); }
    }
    assert s[0] == '%' && s[1..] == a + tail;
    SubstituteText(a, tail, values);
    assert OpensWith(tail, hole, values);
    forall n | OpensWith(tail, n, values) ensures n == hole { OpensWithOne(tail, n, hole, values); }
    assert tail[|Mark(hole)|..] == b + "%";
    assert "" + Substitute(b + "%", values) == Substitute(b + "%", values);
    SubstituteText(b, "%", values);
    SignAlone(values);
  }

  lemma SignAlone(values: Values)
    ensures Substitute("%", values) == "%"
  {
    forall name ensures !OpensWith("%", name, values) { assert |Mark(name)| >= 2; }
    assert "%"[1..] == "";
  }

  /** Stray signs break it: with no input path "%VA%INPUTPATH%LUE%" comes out as the value, though the
      template holds no placeholder for it. */
  lemma StraySignsMakeAPlaceholder(ctx: Context, upper: string -> string, lower: string -> string)
    requires Plain(ValuesOf(ctx, upper, lower)) && ctx.inputPath.OrElse("") == ""
    ensures Expand("%VA%INPUTPATH%LUE%", ctx, upper, lower) == ctx.value.OrElse("")
    ensures Substitute("%VA%INPUTPATH%LUE%", ValuesOf(ctx, upper, lower)) == "%VALUE%"
  {
    hide ValuesOf, Plain, Mark, IsName;
    var values := ValuesOf(ctx, upper, lower);
    SomeValues(ctx, upper, lower);
    FirstPass();
    LaterPasses(values);
    FirstOfPasses("%VA%INPUTPATH%LUE%", values);
    SubstitutesStray("VA", "INPUTPATH", "LUE", values);
    StrayText();
  }

  lemma SomeValues(ctx: Context, upper: string -> string, lower: string -> string)
    ensures var values := ValuesOf(ctx, upper, lower);
            && "INPUTPATH" in values && values["INPUTPATH"] == ctx.inputPath.OrElse("")
            && "VALUE" in values && values["VALUE"] == ctx.value.OrElse("") && "VA" !in values
  {
  }

  lemma StrayText()
    ensures "%" + ("VA" + (Mark("INPUTPATH") + ("LUE" + "%"))) == "%VA%INPUTPATH%LUE%"
    ensures "%" + ("VA" + ("LUE" + "%")) == "%VALUE%"
  {
  }

  lemma FirstOfPasses(s: string, values: Values)
    requires Plain(values) && "INPUTPATH" in values && forall i :: 0 <= i < |PASSES| ==> PASSES[i] in values
    ensures Passes(s, PASSES, values) == Passes(ReplaceAll(s, "%INPUTPATH%", values["INPUTPATH"]), PASSES[1..], values)
  {
    assert PASSES[0] == "INPUTPATH" && Mark("INPUTPATH") == "%INPUTPATH%";
  }
}
