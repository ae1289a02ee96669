/** Placeholder expansion in extension/adapters/recipe-selectors.js: ten `replaceAll` passes, one
    after another, against one simultaneous substitution. */
module PathExpansion {
  import opened Options
  import RecipeDates

  /** The ten placeholders, without their percent signs, in the order of the passes. */
  const PASSES: seq<string> := [
    "INPUTPATH", "UPPERUNMAPPEDVALUE", "LOWERUNMAPPEDVALUE", "UNMAPPEDVALUE", "UPPERVALUE",
    "LOWERVALUE", "VALUE", "NUMBER0", "INDEX0", "LENGTHPLUSONE0"]

  /** The characters a placeholder's name is made of. */
  predicate NameChar(c: char) { 'A' <= c <= 'Z' || c == '0' }

  predicate IsName(name: string) { name != "" && forall i :: 0 <= i < |name| ==> NameChar(name[i]) }

  function Mark(name: string): string { "%" + name + "%" }

  /** `String.prototype.replaceAll` with a plain replacement: left to right, not rescanning what
      it has written. (A replacement holding `$` has a further meaning there.) */
  function ReplaceAll(s: string, pattern: string, put: string): string
    requires pattern != "" && '$' !in put
  {
    if |s| < |pattern| then s
    else if pattern <= s then put + ReplaceAll(s[|pattern|..], pattern, put)
    else [s[0]] + ReplaceAll(s[1..], pattern, put)
  }

  type Values = map<string, string>

  /** Replacements hold neither sign: no percent, so that they form no placeholder, and no dollar. */
  predicate Plain(values: Values) {
    forall name :: name in values ==> IsName(name) && '%' !in values[name] && '$' !in values[name]
  }

  function Passes(s: string, order: seq<string>, values: Values): string
    requires Plain(values) && forall i :: 0 <= i < |order| ==> order[i] in values
    decreases |order|
  {
    if order == [] then s
    else Passes(ReplaceAll(s, Mark(order[0]), values[order[0]]), order[1..], values)
  }

  // ---- the context of one expansion ----------------------------------------------------

  datatype Context = Context(
    inputPath: Option<string>, value: Option<string>, raw: Option<string>,
    index: Option<nat>, length: Option<nat>)

  /** What each pass writes. `upper` and `lower` stand for toUpperCase and toLowerCase. */
  function ValuesOf(ctx: Context, upper: string -> string, lower: string -> string): (values: Values)
    ensures forall i :: 0 <= i < |PASSES| ==> PASSES[i] in values
  {
    var v := ctx.value.OrElse("");
    var raw := ctx.raw.OrElse(v);
    map["INPUTPATH" := ctx.inputPath.OrElse(""),
        "UPPERUNMAPPEDVALUE" := upper(raw), "LOWERUNMAPPEDVALUE" := lower(raw), "UNMAPPEDVALUE" := raw,
        "UPPERVALUE" := upper(v), "LOWERVALUE" := lower(v), "VALUE" := v,
        "NUMBER0" := RecipeDates.Decimal(ctx.index.OrElse(0) + 1),
        "INDEX0" := RecipeDates.Decimal(ctx.index.OrElse(0)),
        "LENGTHPLUSONE0" := RecipeDates.Decimal(ctx.length.OrElse(0) + 1)]
  }

  function Expand(path: string, ctx: Context, upper: string -> string, lower: string -> string): string
    requires Plain(ValuesOf(ctx, upper, lower))
  {
    Passes(path, PASSES, ValuesOf(ctx, upper, lower))
  }

  // ---- one simultaneous substitution ---------------------------------------------------

  /** The placeholder a string opens with, if any: names hold no percent sign, so at most one. */
  ghost predicate OpensWith(s: string, name: string, values: Values) {
    name in values && Mark(name) <= s
  }

  lemma OpensWithOne(s: string, a: string, b: string, values: Values)
    requires Plain(values) && OpensWith(s, a, values) && OpensWith(s, b, values)
    ensures a == b
  {
    SamePrefix(s, a, b);
  }

  /** A string that opens with a mark, character by character. */
  lemma Opening(s: string, name: string)
    requires IsName(name) && Mark(name) <= s
    ensures s[0] == '%' && s[|name| + 1] == '%'
    ensures forall i :: 1 <= i <= |name| ==> s[i] == name[i - 1] && NameChar(s[i])
  {
    assert forall i :: 0 <= i < |Mark(name)| ==> s[i] == Mark(name)[i];
  }

  lemma SamePrefix(s: string, a: string, b: string)
    requires IsName(a) && IsName(b) && Mark(a) <= s && Mark(b) <= s
    ensures a == b
  {
    Opening(s, a);
    Opening(s, b);
    assert |a| == |b|;
    forall i | 0 <= i < |a| ensures a[i] == b[i] { assert s[i + 1] == a[i]; }
  }

  /** Read once, from the left: each placeholder is replaced where it stands in the template. */
  ghost function Substitute(s: string, values: Values): string
    decreases |s|
  {
    if s == "" then ""
    else if exists name :: OpensWith(s, name, values) then
      var name :| OpensWith(s, name, values);
      values[name] + Substitute(s[|Mark(name)|..], values)
    else [s[0]] + Substitute(s[1..], values)
  }

  // ---- templates -----------------------------------------------------------------------

  /** Text, a placeholder, text, a placeholder, ..., text. */
  datatype Template = End(text: string) | Hole(text: string, name: string, rest: Template)

  function Render(t: Template): string {
    match t
    case End(text) => text
    case Hole(text, name, rest) => text + (Mark(name) + Render(rest))
  }

  /** A character no placeholder uses keeps the marks on its two sides apart. */
  predicate Separates(text: string) { exists i :: 0 <= i < |text| && text[i] != '%' && !NameChar(text[i]) }

  /** Every percent sign belongs to a placeholder. */
  predicate Whole(t: Template) { '%' !in t.text && (t.Hole? ==> IsName(t.name) && Whole(t.rest)) }

  /** Every percent sign belongs to a placeholder, and between two placeholders stands a
      character that no placeholder uses. */
  predicate Separated(t: Template) {
    && '%' !in t.text
    && (t.Hole? ==> IsName(t.name) && Separated(t.rest) && (t.rest.Hole? ==> Separates(t.rest.text)))
  }

  predicate Uses(t: Template, name: string) { t.Hole? && (t.name == name || Uses(t.rest, name)) }

  ghost predicate Covered(t: Template, names: seq<string>) {
    forall name :: Uses(t, name) ==> name in names
  }

  /** The template read with every placeholder replaced at once. */
  function Meaning(t: Template, values: Values): string
    requires forall name :: Uses(t, name) ==> name in values
  {
    match t
    case End(text) => text
    case Hole(text, name, rest) =>
      assert Uses(t, name) && forall n :: Uses(rest, n) ==> Uses(t, n);
      text + (values[name] + Meaning(rest, values))
  }

  function Prepend(text: string, t: Template): (r: Template)
    ensures r.Hole? == t.Hole? && forall n :: Uses(r, n) <==> Uses(t, n)
  {
    match t
    case End(x) => End(text + x)
    case Hole(x, name, rest) => Hole(text + x, name, rest)
  }

  /** One pass, seen on the template: the placeholder becomes part of the text around it. */
  function Fill(t: Template, name: string, value: string): Template {
    match t
    case End(_) => t
    case Hole(text, n, rest) =>
      if n == name then Prepend(text + value, Fill(rest, name, value)) else Hole(text, n, Fill(rest, name, value))
  }

  lemma RenderPrepend(text: string, t: Template)
    ensures Render(Prepend(text, t)) == text + Render(t)
  {
    if t.Hole? { assert (text + t.text) + (Mark(t.name) + Render(t.rest)) == text + (t.text + (Mark(t.name) + Render(t.rest))); }
  }

  lemma SeparatesMore(a: string, text: string, b: string)
    requires Separates(text)
    ensures Separates(a + text + b)
  {
    var i :| 0 <= i < |text| && text[i] != '%' && !NameChar(text[i]);
    assert (a + text + b)[|a| + i] == text[i];
  }

  lemma {:induction false} FillSeparated(t: Template, name: string, value: string)
    requires Separated(t) && '%' !in value
    ensures Separated(Fill(t, name, value))
    ensures t.Hole? && Separates(t.text) ==> Separates(Fill(t, name, value).text)
    ensures t.End? ==> Fill(t, name, value) == t
    ensures forall n :: Uses(Fill(t, name, value), n) <==> Uses(t, n) && n != name
  {
    if t.Hole? {
      FillSeparated(t.rest, name, value);
      var filled := Fill(t.rest, name, value);
      if t.name == name {
        if Separates(t.text) { SeparatesMore("", t.text, value + filled.text); assert "" + t.text + (value + filled.text) == t.text + value + filled.text; }
      }
    }
  }

  // ---- one pass over the text ----------------------------------------------------------

  lemma {:induction false} SkipsText(text: string, s: string, pattern: string, put: string)
    requires '%' !in text && pattern != "" && pattern[0] == '%' && '$' !in put
    ensures ReplaceAll(text + s, pattern, put) == text + ReplaceAll(s, pattern, put)
  {
    if text == "" {
      assert text + s == s;
    } else if |text + s| < |pattern| {
    } else {
      assert (text + s)[0] == text[0] && (text + s)[1..] == text[1..] + s;
      SkipsText(text[1..], s, pattern, put);
      assert [text[0]] + (text[1..] + ReplaceAll(s, pattern, put)) == text + ReplaceAll(s, pattern, put);
    }
  }

  lemma ClosingSignOpensNothing(name: string, rest: Template)
    requires IsName(name) && Separated(rest) && (rest.Hole? ==> Separates(rest.text))
    ensures !(Mark(name) <= "%" + Render(rest))
  {
    var s := "%" + Render(rest);
    assert forall i :: 1 <= i <= |rest.text| ==> s[i] == rest.text[i - 1] && s[i] != '%';
    if rest.Hole? {
      var k :| 0 <= k < |rest.text| && rest.text[k] != '%' && !NameChar(rest.text[k]);
      assert s[k + 1] == rest.text[k] && s[|rest.text| + 1] == '%';
    }
    if Mark(name) <= s {
      Opening(s, name);
      assert false;
    }
  }

  lemma SkipsOne(s: string, pattern: string, put: string)
    requires s != "" && pattern != "" && '$' !in put && !(pattern <= s)
    ensures ReplaceAll(s, pattern, put) == [s[0]] + ReplaceAll(s[1..], pattern, put)
  {
    if |s| < |pattern| { assert s == [s[0]] + s[1..]; }
  }

  lemma MarkParts(name: string, r: string)
    ensures (Mark(name) + r)[0] == '%' && (Mark(name) + r)[1..] == name + ("%" + r)
    ensures "%" + (name + ("%" + r)) == Mark(name) + r
  {
  }

  /** A pass leaves another placeholder alone: inside it stands no percent sign, and what follows
      its closing one is not the rest of a mark. */
  lemma SkipsOtherMark(other: string, name: string, rest: Template, put: string)
    requires IsName(other) && IsName(name) && other != name && '$' !in put
    requires Separated(rest) && (rest.Hole? ==> Separates(rest.text))
    ensures ReplaceAll(Mark(other) + Render(rest), Mark(name), put) ==
            Mark(other) + ReplaceAll(Render(rest), Mark(name), put)
  {
    var tail, pattern := "%" + Render(rest), Mark(name);
    ClosingSignOpensNothing(name, rest);
    SkipsOne(tail, pattern, put);
    assert tail[1..] == Render(rest);
    SkipsText(other, tail, pattern, put);
    OtherMarkOpensNot(Mark(other) + Render(rest), other, name);
    MarkParts(other, Render(rest));
    SkipsOne(Mark(other) + Render(rest), pattern, put);
    MarkParts(other, ReplaceAll(Render(rest), pattern, put));
  }

  lemma OtherMarkOpensNot(s: string, other: string, name: string)
    requires IsName(other) && IsName(name) && other != name && Mark(other) <= s
    ensures !(Mark(name) <= s)
  {
    if Mark(name) <= s { SamePrefix(s, other, name); }
  }

  /** One `replaceAll` over the text is one filling of the template. */
  lemma {:induction false} PassFills(t: Template, name: string, put: string)
    requires Separated(t) && IsName(name) && '%' !in put && '$' !in put
    ensures ReplaceAll(Render(t), Mark(name), put) == Render(Fill(t, name, put))
  {
    match t
    case End(text) =>
      SkipsText(text, "", Mark(name), put);
      assert text + "" == text;
    case Hole(text, n, rest) =>
      PassFills(rest, name, put);
      SkipsText(text, Mark(n) + Render(rest), Mark(name), put);
      if n == name {
        var s := Mark(n) + Render(rest);
        assert Mark(name) <= s && s[|Mark(name)|..] == Render(rest);
        RenderPrepend(text + put, Fill(rest, name, put));
        assert text + (put + Render(Fill(rest, name, put))) == text + put + Render(Fill(rest, name, put));
      } else {
        SkipsOtherMark(n, name, rest, put);
      }
  }

  lemma {:induction false} FillKeepsMeaning(t: Template, name: string, values: Values)
    requires name in values && forall n :: Uses(t, n) ==> n in values
    requires forall n :: Uses(Fill(t, name, values[name]), n) ==> n in values
    ensures Meaning(Fill(t, name, values[name]), values) == Meaning(t, values)
  {
    if t.Hole? {
      assert forall n :: Uses(t.rest, n) ==> Uses(t, n);
      var filled := Fill(t.rest, name, values[name]);
      if t.name == name {
        var text := t.text + values[name];
        assert forall n :: Uses(Prepend(text, filled), n) <==> Uses(filled, n);
        FillKeepsMeaning(t.rest, name, values);
        MeaningPrepend(text, filled, values);
        assert t.text + (values[name] + Meaning(t.rest, values)) == text + Meaning(t.rest, values);
      } else {
        assert forall n :: Uses(filled, n) ==> Uses(Fill(t, name, values[name]), n);
        FillKeepsMeaning(t.rest, name, values);
      }
    }
  }

  lemma MeaningPrepend(text: string, t: Template, values: Values)
    requires forall n :: Uses(t, n) ==> n in values
    ensures Meaning(Prepend(text, t), values) == text + Meaning(t, values)
  {
    if t.Hole? {
      assert forall n :: Uses(t.rest, n) ==> Uses(t, n);
      assert (text + t.text) + (values[t.name] + Meaning(t.rest, values)) ==
             text + (t.text + (values[t.name] + Meaning(t.rest, values)));
    }
  }

  /** The passes, in any order that covers the template's placeholders, leave its meaning. */
  lemma {:induction false} PassesMeanIt(t: Template, order: seq<string>, values: Values)
    requires Plain(values) && Separated(t) && Covered(t, order)
    requires forall i :: 0 <= i < |order| ==> order[i] in values
    requires forall n :: Uses(t, n) ==> n in values
    ensures Passes(Render(t), order, values) == Meaning(t, values)
    decreases |order|
  {
    if order == [] {
      assert t.Hole? ==> Uses(t, t.name);
    } else {
      var name := order[0];
      var put := values[name];
      FillSeparated(t, name, put);
      PassFills(t, name, put);
      FillKeepsMeaning(t, name, values);
      PassesMeanIt(Fill(t, name, put), order[1..], values);
    }
  }

  /** Reading the template once from the left gives the same meaning. */
  lemma {:induction false} SubstituteMeansIt(t: Template, values: Values)
    requires Plain(values) && Whole(t) && forall n :: Uses(t, n) ==> n in values
    ensures Substitute(Render(t), values) == Meaning(t, values)
  {
    match t
    case End(text) =>
      SubstituteText(text, "", values);
      assert text + "" == text;
    case Hole(text, name, rest) =>
      assert forall n :: Uses(rest, n) ==> Uses(t, n);
      SubstituteMeansIt(rest, values);
      var s := Mark(name) + Render(rest);
      SubstituteText(text, s, values);
      assert Uses(t, name) && OpensWith(s, name, values);
      forall n | OpensWith(s, n, values) ensures n == name { OpensWithOne(s, n, name, values); }
      assert s[|Mark(name)|..] == Render(rest);
  }

  lemma {:induction false} SeparatedIsWhole(t: Template)
    requires Separated(t)
    ensures Whole(t)
  {
    if t.Hole? { SeparatedIsWhole(t.rest); }
  }

  lemma {:induction false} SubstituteText(text: string, s: string, values: Values)
    requires '%' !in text
    ensures Substitute(text + s, values) == text + Substitute(s, values)
  {
    if text == "" {
      assert text + s == s;
    } else {
      assert (text + s)[0] == text[0] && (text + s)[1..] == text[1..] + s;
      forall name ensures !OpensWith(text + s, name, values) {
        assert Mark(name)[0] == '%' && (text + s)[0] != '%';
      }
      SubstituteText(text[1..], s, values);
      assert [text[0]] + (text[1..] + Substitute(s, values)) == text + Substitute(s, values);
    }
  }

  /** Sequential replacement is simultaneous substitution, in whatever order the passes run. */
  lemma PassesAreSimultaneous(t: Template, order: seq<string>, values: Values)
    requires Plain(values) && Separated(t) && Covered(t, order)
    requires forall i :: 0 <= i < |order| ==> order[i] in values
    ensures Passes(Render(t), order, values) == Substitute(Render(t), values)
  {
    forall n | Uses(t, n) ensures n in values { assert n in order; }
    PassesMeanIt(t, order, values);
    SeparatedIsWhole(t);
    SubstituteMeansIt(t, values);
  }

  /** The ten passes of `expand`, for every template over its ten placeholders. */
  lemma ExpandIsSimultaneous(t: Template, ctx: Context, upper: string -> string, lower: string -> string)
    requires Plain(ValuesOf(ctx, upper, lower)) && Separated(t) && Covered(t, PASSES)
    ensures Expand(Render(t), ctx, upper, lower) == Substitute(Render(t), ValuesOf(ctx, upper, lower))
  {
    PassesAreSimultaneous(t, PASSES, ValuesOf(ctx, upper, lower));
  }

  lemma AloneStandsFor(name: string, ctx: Context, upper: string -> string, lower: string -> string)
    requires Plain(ValuesOf(ctx, upper, lower)) && name in PASSES
    ensures Expand(Mark(name), ctx, upper, lower) == ValuesOf(ctx, upper, lower)[name]
  {
    var values := ValuesOf(ctx, upper, lower);
    var t := Hole("", name, End(""));
    assert Render(t) == Mark(name);
    assert name in values;
    hide ValuesOf;
    ExpandIsSimultaneous(t, ctx, upper, lower);
    SubstituteMeansIt(t, values);
    assert Meaning(t, values) == values[name];
  }

  /** What each placeholder stands for: the field's own path, the value being filled or as it was before it was
      mapped, either in either case, and the entry of a repeated group, one- and zero-based. */
  predicate StandsFor(name: string, ctx: Context, upper: string -> string, lower: string -> string, text: string) {
    var value := if ctx.value.Some? then ctx.value.value else "";
    var raw := if ctx.raw.Some? then ctx.raw.value else value;
    var index, length := if ctx.index.Some? then ctx.index.value else 0, if ctx.length.Some? then ctx.length.value else 0;
    && (name == "INPUTPATH" ==> text == if ctx.inputPath.Some? then ctx.inputPath.value else "")
    && (name == "VALUE" ==> text == value)
    && (name == "UPPERVALUE" ==> text == upper(value))
    && (name == "LOWERVALUE" ==> text == lower(value))
    && (name == "UNMAPPEDVALUE" ==> text == raw)
    && (name == "UPPERUNMAPPEDVALUE" ==> text == upper(raw))
    && (name == "LOWERUNMAPPEDVALUE" ==> text == lower(raw))
    && (name == "NUMBER0" ==> text == RecipeDates.Decimal(index + 1))
    && (name == "INDEX0" ==> text == RecipeDates.Decimal(index))
    && (name == "LENGTHPLUSONE0" ==> text == RecipeDates.Decimal(length + 1))
  }

  /** Each of the ten is replaced by what it stands for. */
  lemma PlaceholdersStandFor(name: string, ctx: Context, upper: string -> string, lower: string -> string)
    requires Plain(ValuesOf(ctx, upper, lower))
    requires name in {"INPUTPATH", "VALUE", "UPPERVALUE", "LOWERVALUE", "UNMAPPEDVALUE", "UPPERUNMAPPEDVALUE",
                      "LOWERUNMAPPEDVALUE", "NUMBER0", "INDEX0", "LENGTHPLUSONE0"}
    ensures StandsFor(name, ctx, upper, lower, Expand(Mark(name), ctx, upper, lower))
  {
    EveryPass();
    hide Expand, ValuesOf, StandsFor, Mark;
    AloneStandsFor(name, ctx, upper, lower);
    ValuesAre(ctx, upper, lower, name);
  }

  lemma EveryPass()
    ensures "INPUTPATH" in PASSES && "VALUE" in PASSES && "UPPERVALUE" in PASSES && "LOWERVALUE" in PASSES
    ensures "UNMAPPEDVALUE" in PASSES && "UPPERUNMAPPEDVALUE" in PASSES && "LOWERUNMAPPEDVALUE" in PASSES
    ensures "NUMBER0" in PASSES && "INDEX0" in PASSES && "LENGTHPLUSONE0" in PASSES
  {
    assert PASSES[0] in PASSES && PASSES[1] in PASSES && PASSES[2] in PASSES && PASSES[3] in PASSES && PASSES[4] in PASSES;
    assert PASSES[5] in PASSES && PASSES[6] in PASSES && PASSES[7] in PASSES && PASSES[8] in PASSES && PASSES[9] in PASSES;
  }

  lemma ValuesAre(ctx: Context, upper: string -> string, lower: string -> string, name: string)
    ensures name in PASSES ==> StandsFor(name, ctx, upper, lower, ValuesOf(ctx, upper, lower)[name])
  {
    hide RecipeDates.Decimal;
  }
}
