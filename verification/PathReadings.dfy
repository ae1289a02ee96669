/** When the ten passes of `expand` (extension/adapters/recipe-selectors.js) equal one simultaneous
    substitution, for every string: a template is read once from the left into characters and
    placeholders, and a pass is disturbed when it meets a mark that is none of them. */
module PathReadings {
  import opened PathExpansion

  /** A string read: a character, which may be a sign that belongs to no placeholder, or a placeholder. */
  datatype Reading = Nil | Char(c: char, rest: Reading) | Slot(name: string, rest: Reading)

  function Text(r: Reading): string {
    match r
    case Nil => ""
    case Char(c, rest) => [c] + Text(rest)
    case Slot(name, rest) => Mark(name) + Text(rest)
  }

  /** Every placeholder replaced where it stands. */
  function Replaced(r: Reading, values: Values): string
    requires Named(r, values)
  {
    match r
    case Nil => ""
    case Char(c, rest) => [c] + Replaced(rest, values)
    case Slot(name, rest) => values[name] + Replaced(rest, values)
  }

  predicate Named(r: Reading, values: Values) {
    match r
    case Nil => true
    case Char(_, rest) => Named(rest, values)
    case Slot(name, rest) => name in values && Named(rest, values)
  }

  /** The reading Substitute makes of a string. */
  ghost function Read(s: string, values: Values): (r: Reading)
    ensures Named(r, values) && Text(r) == s
    decreases |s|
  {
    if s == "" then Nil
    else if exists name :: OpensWith(s, name, values) then
      var name :| OpensWith(s, name, values);
      assert Mark(name) + s[|Mark(name)|..] == s;
      Slot(name, Read(s[|Mark(name)|..], values))
    else
      Char(s[0], Read(s[1..], values))
  }

  lemma {:induction false} SubstituteReads(s: string, values: Values)
    requires Plain(values)
    ensures Substitute(s, values) == Replaced(Read(s, values), values)
    decreases |s|
  {
    if s == "" {
    } else if exists name :: OpensWith(s, name, values) {
      var name :| OpensWith(s, name, values);
      forall n | OpensWith(s, n, values) ensures n == name { OpensWithOne(s, n, name, values); }
      SubstituteReads(s[|Mark(name)|..], values);
    } else {
      SubstituteReads(s[1..], values);
    }
  }

  // ---- one pass ------------------------------------------------------------------------

  function Chars(s: string, rest: Reading): Reading { if s == "" then rest else Char(s[0], Chars(s[1..], rest)) }

  lemma Consed(s: string, t: string)
    ensures s == "" ==> s + t == t
    ensures s != "" ==> [s[0]] + (s[1..] + t) == s + t
  {
  }

  lemma {:induction false} CharsText(s: string, rest: Reading)
    ensures Text(Chars(s, rest)) == s + Text(rest)
  {
    Consed(s, Text(rest));
    if s != "" { CharsText(s[1..], rest); }
  }

  lemma {:induction false} CharsReplaced(s: string, rest: Reading, values: Values)
    requires Named(rest, values)
    ensures Named(Chars(s, rest), values) && Replaced(Chars(s, rest), values) == s + Replaced(rest, values)
  {
    Consed(s, Replaced(rest, values));
    if s != "" { CharsReplaced(s[1..], rest, values); }
  }

  function Filled(r: Reading, name: string, value: string): Reading {
    match r
    case Nil => Nil
    case Char(c, rest) => Char(c, Filled(rest, name, value))
    case Slot(n, rest) => if n == name then Chars(value, Filled(rest, name, value)) else Slot(n, Filled(rest, name, value))
  }

  /** After a sign: the name and another sign. */
  predicate Follows(r: Reading, name: string) { name + "%" <= Text(r) }

  /** No sign opens a mark of the name but that of a placeholder of the name, whose closing sign is used up. */
  predicate Clean(r: Reading, name: string) {
    match r
    case Nil => true
    case Char(c, rest) => (c == '%' ==> !Follows(rest, name)) && Clean(rest, name)
    case Slot(n, rest) => (n != name ==> !Follows(rest, name)) && Clean(rest, name)
  }

  /** No pass meets a mark that the template does not hold, the earlier passes having filled theirs. */
  predicate Undisturbed(r: Reading, order: seq<string>, values: Values)
    requires forall i :: 0 <= i < |order| ==> order[i] in values
    decreases |order|
  {
    order == [] || (Clean(r, order[0]) && Undisturbed(Filled(r, order[0], values[order[0]]), order[1..], values))
  }

  predicate IsNamed(r: Reading) {
    match r
    case Nil => true
    case Char(_, rest) => IsNamed(rest)
    case Slot(name, rest) => IsName(name) && IsNamed(rest)
  }

  lemma SignOpens(c: char, s: string, name: string)
    ensures Mark(name) <= [c] + s <==> c == '%' && name + "%" <= s
  {
    var whole, after := Mark(name), name + "%";
    assert whole == "%" + after && ([c] + s)[1..] == s;
    if whole <= [c] + s {
      assert ([c] + s)[0] == whole[0];
      assert ([c] + s)[1..|whole|] == s[..|after|] && whole[1..] == after;
    }
    if after <= s { assert ([c] + s)[..|whole|] == [c] + s[..|after|]; }
  }

  /** A pass that is not disturbed fills the placeholders of its name and nothing else. */
  lemma {:induction false} CleanPassFills(r: Reading, name: string, put: string)
    requires IsNamed(r) && IsName(name) && '$' !in put && Clean(r, name)
    ensures ReplaceAll(Text(r), Mark(name), put) == Text(Filled(r, name, put))
  {
    match r
    case Nil =>
    case Char(c, rest) =>
      CleanPassFills(rest, name, put);
      var s := [c] + Text(rest);
      assert s[0] == c && s[1..] == Text(rest);
      SignOpens(c, Text(rest), name);
      SkipsOne(s, Mark(name), put);
    case Slot(n, rest) =>
      CleanPassFills(rest, name, put);
      if n == name {
        var s := Mark(n) + Text(rest);
        assert Mark(name) <= s && s[|Mark(name)|..] == Text(rest);
        CharsText(put, Filled(rest, name, put));
      } else {
        SkipsOther(n, name, Text(rest), put);
      }
  }

  lemma SkipsOther(other: string, name: string, s: string, put: string)
    requires IsName(other) && IsName(name) && other != name && '$' !in put && !(name + "%" <= s)
    ensures ReplaceAll(Mark(other) + s, Mark(name), put) == Mark(other) + ReplaceAll(s, Mark(name), put)
  {
    var tail, pattern := "%" + s, Mark(name);
    SignOpens('%', s, name);
    SkipsOne(tail, pattern, put);
    assert tail[1..] == s;
    SkipsText(other, tail, pattern, put);
    OtherMarkOpensNot(Mark(other) + s, other, name);
    MarkParts(other, s);
    SkipsOne(Mark(other) + s, pattern, put);
    MarkParts(other, ReplaceAll(s, pattern, put));
  }

  lemma {:induction false} FilledKeeps(r: Reading, name: string, values: Values)
    requires name in values && Named(r, values) && IsNamed(r)
    ensures var f := Filled(r, name, values[name]);
            Named(f, values) && IsNamed(f) && Replaced(f, values) == Replaced(r, values)
  {
    match r
    case Nil =>
    case Char(_, rest) => FilledKeeps(rest, name, values);
    case Slot(n, rest) =>
      FilledKeeps(rest, name, values);
      CharsReplaced(values[name], Filled(rest, name, values[name]), values);
      CharsNamed(values[name], Filled(rest, name, values[name]));
  }

  lemma {:induction false} CharsNamed(s: string, rest: Reading)
    requires IsNamed(rest)
    ensures IsNamed(Chars(s, rest))
  {
    if s != "" { CharsNamed(s[1..], rest); }
  }

  predicate NoneLeft(r: Reading, order: seq<string>) {
    match r
    case Nil => true
    case Char(_, rest) => NoneLeft(rest, order)
    case Slot(name, rest) => name in order && NoneLeft(rest, order)
  }

  lemma {:induction false} FilledLeaves(r: Reading, order: seq<string>, value: string)
    requires order != [] && NoneLeft(r, order)
    ensures NoneLeft(Filled(r, order[0], value), order[1..])
  {
    match r
    case Nil =>
    case Char(_, rest) => FilledLeaves(rest, order, value);
    case Slot(n, rest) =>
      FilledLeaves(rest, order, value);
      CharsLeave(value, Filled(rest, order[0], value), order[1..]);
  }

  lemma {:induction false} CharsLeave(s: string, rest: Reading, order: seq<string>)
    requires NoneLeft(rest, order)
    ensures NoneLeft(Chars(s, rest), order)
  {
    if s != "" { CharsLeave(s[1..], rest, order); }
  }

  lemma {:induction false} NothingToReplace(r: Reading, values: Values)
    requires NoneLeft(r, []) && Named(r, values)
    ensures Replaced(r, values) == Text(r)
  {
    match r
    case Nil =>
    case Char(_, rest) => NothingToReplace(rest, values);
    case Slot(_, _) =>
  }

  lemma {:induction false} UndisturbedPasses(r: Reading, order: seq<string>, values: Values)
    requires Plain(values) && forall i :: 0 <= i < |order| ==> order[i] in values
    requires Named(r, values) && IsNamed(r) && NoneLeft(r, order) && Undisturbed(r, order, values)
    ensures Passes(Text(r), order, values) == Replaced(r, values)
    decreases |order|
  {
    if order == [] {
      NothingToReplace(r, values);
    } else {
      var put := values[order[0]];
      CleanPassFills(r, order[0], put);
      FilledKeeps(r, order[0], values);
      FilledLeaves(r, order, put);
      UndisturbedPasses(Filled(r, order[0], put), order[1..], values);
    }
  }

  ghost predicate Covers(order: seq<string>, values: Values) { forall name :: name in values <==> name in order }

  lemma {:induction false} ReadIsNamed(r: Reading, order: seq<string>, values: Values)
    requires Plain(values) && Covers(order, values) && Named(r, values)
    ensures IsNamed(r) && NoneLeft(r, order)
  {
    match r
    case Nil =>
    case Char(_, rest) => ReadIsNamed(rest, order, values);
    case Slot(_, rest) => ReadIsNamed(rest, order, values);
  }

  /** For every string, stray signs and all: passes that no mark disturbs are one simultaneous substitution. */
  lemma UndisturbedIsSimultaneous(s: string, order: seq<string>, values: Values)
    requires Plain(values) && Covers(order, values) && Undisturbed(Read(s, values), order, values)
    ensures Passes(s, order, values) == Substitute(s, values)
  {
    var r := Read(s, values);
    ReadIsNamed(r, order, values);
    UndisturbedPasses(r, order, values);
    SubstituteReads(s, values);
  }

  // ---- and no others -------------------------------------------------------------------

  /** Every placeholder from the k-th pass on stands for a character no name holds. */
  function Hashed(values: Values, order: seq<string>, k: nat): Values
    requires k <= |order|
  {
    map name | name in values :: if name in order[k..] then "#" else values[name]
  }

  predicate Distinct(order: seq<string>) { forall i, j :: 0 <= i < j < |order| ==> order[i] != order[j] }

  predicate AllHash(values: Values, order: seq<string>) { forall name :: name in order ==> name in values && values[name] == "#" }

  /** What one pass turns into placeholders, from the left. */
  function Taken(r: Reading, name: string): Reading
    decreases |Text(r)|
  {
    match r
    case Nil => Nil
    case Slot(n, rest) => Slot(n, Taken(rest, name))
    case Char(c, rest) =>
      if Leads(r, Mark(name)) then DropLength(r, Mark(name)); Slot(name, Taken(Drop(r, Mark(name)), name))
      else Char(c, Taken(rest, name))
  }

  /** A reading that begins with the characters of p, none in a placeholder. */
  predicate Leads(r: Reading, p: string)
    decreases |p|
  {
    p == "" || (r.Char? && r.c == p[0] && Leads(r.rest, p[1..]))
  }

  function Drop(r: Reading, p: string): Reading
    requires Leads(r, p)
    decreases |p|
  {
    if p == "" then r else Drop(r.rest, p[1..])
  }

  lemma {:induction false} DropLength(r: Reading, p: string)
    requires Leads(r, p)
    ensures Text(r) == p + Text(Drop(r, p))
    decreases |p|
  {
    if p == "" {
      assert p + Text(r) == Text(r);
    } else {
      DropLength(r.rest, p[1..]);
      assert [p[0]] + (p[1..] + Text(Drop(r, p))) == p + Text(Drop(r, p));
    }
  }

  lemma {:induction false} TakenReads(r: Reading, name: string)
    ensures Text(Taken(r, name)) == Text(r)
    decreases |Text(r)|
  {
    match r
    case Nil =>
    case Slot(n, rest) => TakenReads(rest, name);
    case Char(c, rest) =>
      if Leads(r, Mark(name)) {
        DropLength(r, Mark(name));
        TakenReads(Drop(r, Mark(name)), name);
      } else {
        TakenReads(rest, name);
      }
  }

  predicate HashAt(r: Reading, values: Values)
    requires Named(r, values)
  {
    match r
    case Nil => true
    case Char(_, rest) => HashAt(rest, values)
    case Slot(name, rest) => values[name] == "#" && HashAt(rest, values)
  }

  lemma FirstOf(r: Reading, values: Values)
    requires Named(r, values) && HashAt(r, values)
    ensures r.Nil? ==> Text(r) == "" && Replaced(r, values) == ""
    ensures r.Char? ==> Text(r) != "" && Text(r)[0] == r.c && Replaced(r, values) != "" && Replaced(r, values)[0] == r.c
    ensures r.Slot? ==> Text(r) != "" && Text(r)[0] == '%' && Replaced(r, values) != "" && Replaced(r, values)[0] == '#'
  {
  }

  lemma {:induction false} HashLeads(r: Reading, p: string, values: Values)
    requires Named(r, values) && HashAt(r, values) && '#' !in p
    ensures p <= Replaced(r, values) <==> Leads(r, p)
    decreases |p|
  {
    var s := Replaced(r, values);
    if p != "" && r.Char? {
      HashLeads(r.rest, p[1..], values);
      assert s[0] == r.c && s[1..] == Replaced(r.rest, values);
      if p <= s { assert s[..|p|][0] == p[0] && s[1..][..|p| - 1] == s[..|p|][1..]; }
      if Leads(r, p) { assert s[..|p|] == [s[0]] + s[1..][..|p| - 1]; }
    } else if p != "" {
      FirstOf(r, values);
      assert s != "" && s[0] != p[0] ==> !(p <= s);
    }
  }

  lemma {:induction false} DropKeeps(r: Reading, p: string, values: Values)
    requires Leads(r, p) && Named(r, values) && HashAt(r, values)
    ensures var d := Drop(r, p);
            Named(d, values) && HashAt(d, values) && Replaced(r, values) == p + Replaced(d, values)
    decreases |p|
  {
    if p == "" {
      assert p + Replaced(r, values) == Replaced(r, values);
    } else {
      DropKeeps(r.rest, p[1..], values);
      assert [p[0]] + (p[1..] + Replaced(Drop(r, p), values)) == p + Replaced(Drop(r, p), values);
    }
  }

  /** One pass over the characters that stand for placeholders already taken. */
  lemma {:induction false} PassTakes(r: Reading, name: string, values: Values)
    requires Named(r, values) && HashAt(r, values) && IsName(name) && name in values && values[name] == "#"
    ensures var t := Taken(r, name);
            Named(t, values) && HashAt(t, values) && ReplaceAll(Replaced(r, values), Mark(name), "#") == Replaced(t, values)
    decreases |Text(r)|
  {
    var s, p := Replaced(r, values), Mark(name);
    assert '#' !in p;
    HashLeads(r, p, values);
    match r
    case Nil =>
    case Slot(n, rest) =>
      PassTakes(rest, name, values);
      assert s[1..] == Replaced(rest, values);
      SkipsOne(s, p, "#");
    case Char(c, rest) =>
      if Leads(r, p) {
        DropLength(r, p);
        DropKeeps(r, p, values);
        PassTakes(Drop(r, p), name, values);
        assert s[|p|..] == Replaced(Drop(r, p), values);
      } else {
        PassTakes(rest, name, values);
        assert s[1..] == Replaced(rest, values);
        SkipsOne(s, p, "#");
      }
  }

  function TakenAll(r: Reading, order: seq<string>): Reading
    decreases |order|
  {
    if order == [] then r else TakenAll(Taken(r, order[0]), order[1..])
  }

  lemma {:induction false} PassesTake(r: Reading, order: seq<string>, values: Values)
    requires Plain(values) && AllHash(values, order) && Named(r, values) && HashAt(r, values)
    ensures var t := TakenAll(r, order);
            && Named(t, values) && HashAt(t, values) && Text(t) == Text(r)
            && Passes(Replaced(r, values), order, values) == Replaced(t, values)
    decreases |order|
  {
    if order != [] {
      PassTakes(r, order[0], values);
      TakenReads(r, order[0]);
      PassesTake(Taken(r, order[0]), order[1..], values);
    }
  }

  // ---- what a pass takes leaves no mark ------------------------------------------------

  predicate OnlyChars(r: Reading) { r.Nil? || (r.Char? && OnlyChars(r.rest)) }

  lemma {:induction false} LeadsText(r: Reading, p: string)
    requires OnlyChars(r)
    ensures p <= Text(r) <==> Leads(r, p)
    ensures Leads(r, p) ==> OnlyChars(Drop(r, p))
    decreases |p|
  {
    var s := Text(r);
    if p != "" && r.Char? {
      LeadsText(r.rest, p[1..]);
      assert s[0] == r.c && s[1..] == Text(r.rest);
      if p <= s { assert s[..|p|][0] == p[0] && s[1..][..|p| - 1] == s[..|p|][1..]; }
      if Leads(r, p) { assert s[..|p|] == [s[0]] + s[1..][..|p| - 1]; }
    }
  }

  lemma {:induction false} TakenIsClean(r: Reading, name: string)
    requires OnlyChars(r) && IsName(name)
    ensures Clean(Taken(r, name), name)
    decreases |Text(r)|
  {
    if r.Char? {
      LeadsText(r, Mark(name));
      if Leads(r, Mark(name)) {
        DropLength(r, Mark(name));
        TakenIsClean(Drop(r, Mark(name)), name);
      } else {
        TakenIsClean(r.rest, name);
        TakenReads(r.rest, name);
        SignOpens(r.c, Text(r.rest), name);
      }
    }
  }

  lemma {:induction false} CleanDrops(r: Reading, p: string, name: string)
    requires Leads(r, p) && Clean(r, name) && p != "" && p[|p| - 1] == '%'
    ensures Clean(Drop(r, p), name) && !Follows(Drop(r, p), name)
    decreases |p|
  {
    if |p| > 1 { CleanDrops(r.rest, p[1..], name); }
  }

  lemma {:induction false} TakingKeepsClean(r: Reading, other: string, name: string)
    requires Clean(r, name) && other != name
    ensures Clean(Taken(r, other), name)
    decreases |Text(r)|
  {
    match r
    case Nil =>
    case Slot(n, rest) =>
      TakingKeepsClean(rest, other, name);
      TakenReads(rest, other);
    case Char(c, rest) =>
      if Leads(r, Mark(other)) {
        DropLength(r, Mark(other));
        CleanDrops(r, Mark(other), name);
        TakingKeepsClean(Drop(r, Mark(other)), other, name);
        TakenReads(Drop(r, Mark(other)), other);
      } else {
        TakingKeepsClean(rest, other, name);
        TakenReads(rest, other);
      }
  }

  lemma {:induction false} TakingAllKeepsClean(r: Reading, order: seq<string>, name: string)
    requires Clean(r, name) && name !in order
    ensures Clean(TakenAll(r, order), name)
    decreases |order|
  {
    if order != [] {
      TakingKeepsClean(r, order[0], name);
      TakingAllKeepsClean(Taken(r, order[0]), order[1..], name);
    }
  }

  /** With hashes for placeholders, the result tells how its string was read. */
  lemma {:induction false} HashTells(a: Reading, b: Reading, values: Values)
    requires Named(a, values) && Named(b, values) && HashAt(a, values) && HashAt(b, values) && IsNamed(a) && IsNamed(b)
    requires Text(a) == Text(b) && Replaced(a, values) == Replaced(b, values)
    ensures a == b
  {
    var s, o := Text(a), Replaced(a, values);
    FirstOf(a, values);
    FirstOf(b, values);
    if a.Char? && b.Char? {
      assert s[1..] == Text(a.rest) == Text(b.rest);
      assert o[1..] == Replaced(a.rest, values) == Replaced(b.rest, values);
      assert s[0] == a.c == b.c;
      HashTells(a.rest, b.rest, values);
    } else if a.Slot? && b.Slot? {
      assert Mark(a.name) <= s && Mark(b.name) <= s;
      SamePrefix(s, a.name, b.name);
      assert s[|Mark(a.name)|..] == Text(a.rest) == Text(b.rest);
      assert o[1..] == Replaced(a.rest, values) == Replaced(b.rest, values);
      HashTells(a.rest, b.rest, values);
    }
  }

  predicate Slots(r: Reading, values: Values, order: seq<string>) { Named(r, values) && IsNamed(r) && NoneLeft(r, order) }

  lemma {:induction false} AllHashed(r: Reading, values: Values, order: seq<string>)
    requires Slots(r, values, order) && AllHash(values, order)
    ensures HashAt(r, values)
  {
    match r
    case Nil =>
    case Char(_, rest) => AllHashed(rest, values, order);
    case Slot(_, rest) => AllHashed(rest, values, order);
  }

  lemma {:induction false} TakenIsNamed(r: Reading, order: seq<string>)
    requires IsNamed(r) && forall i :: 0 <= i < |order| ==> IsName(order[i])
    ensures IsNamed(TakenAll(r, order))
    decreases |order|
  {
    if order != [] {
      OneTakenIsNamed(r, order[0]);
      TakenIsNamed(Taken(r, order[0]), order[1..]);
    }
  }

  lemma {:induction false} OneTakenIsNamed(r: Reading, name: string)
    requires IsNamed(r) && IsName(name)
    ensures IsNamed(Taken(r, name))
    decreases |Text(r)|
  {
    match r
    case Nil =>
    case Slot(_, rest) => OneTakenIsNamed(rest, name);
    case Char(_, rest) =>
      if Leads(r, Mark(name)) {
        DropLength(r, Mark(name));
        DropIsNamed(r, Mark(name));
        OneTakenIsNamed(Drop(r, Mark(name)), name);
      } else {
        OneTakenIsNamed(rest, name);
      }
  }

  lemma {:induction false} DropIsNamed(r: Reading, p: string)
    requires Leads(r, p) && IsNamed(r)
    ensures IsNamed(Drop(r, p))
    decreases |p|
  {
    if p != "" { DropIsNamed(r.rest, p[1..]); }
  }

  lemma {:induction false} PlainChars(s: string, values: Values)
    ensures var r := Chars(s, Nil);
            OnlyChars(r) && IsNamed(r) && Named(r, values) && HashAt(r, values) && Text(r) == s && Replaced(r, values) == s
  {
    if s != "" { PlainChars(s[1..], values); }
  }

  /** A reading whose first pass is disturbed comes out differently when hashes stand for its placeholders. */
  lemma FirstPassDisturbed(r: Reading, order: seq<string>, values: Values)
    requires Plain(values) && order != [] && Distinct(order) && AllHash(values, order)
    requires Slots(r, values, order) && !Clean(r, order[0])
    ensures Passes(Text(r), order, values) != Replaced(r, values)
  {
    var chars := Chars(Text(r), Nil);
    PlainChars(Text(r), values);
    PassesTake(chars, order, values);
    var t := TakenAll(chars, order);
    TakenIsClean(chars, order[0]);
    assert order[0] !in order[1..] by {
      forall j | 0 <= j < |order[1..]| ensures order[1..][j] != order[0] { assert order[1..][j] == order[j + 1]; }
    }
    TakingAllKeepsClean(Taken(chars, order[0]), order[1..], order[0]);
    assert TakenAll(chars, order) == TakenAll(Taken(chars, order[0]), order[1..]);
    TakenIsNamed(chars, order);
    AllHashed(r, values, order);
    if Replaced(t, values) == Replaced(r, values) { HashTells(t, r, values); }
  }

  lemma HashedIsPlain(values: Values, order: seq<string>, k: nat)
    requires Plain(values) && k <= |order|
    ensures Plain(Hashed(values, order, k)) && Hashed(values, order, k).Keys == values.Keys
  {
  }

  /** If a pass is disturbed, the k-th is the first to be, and with hashes from there on it shows. */
  lemma {:induction false} DisturbedShows(r: Reading, order: seq<string>, values: Values) returns (k: nat)
    requires Plain(values) && Distinct(order) && forall i :: 0 <= i < |order| ==> order[i] in values
    requires Slots(r, values, order) && !Undisturbed(r, order, values)
    ensures k < |order| && Plain(Hashed(values, order, k)) && Named(r, Hashed(values, order, k))
    ensures Passes(Text(r), order, Hashed(values, order, k)) != Replaced(r, Hashed(values, order, k))
    decreases |order|
  {
    if !Clean(r, order[0]) {
      k := 0;
      HashedIsPlain(values, order, 0);
      assert order[0..] == order;
      SlotsByKeys(r, values, Hashed(values, order, 0), order);
      FirstPassDisturbed(r, order, Hashed(values, order, 0));
    } else {
      var put := values[order[0]];
      var f := Filled(r, order[0], put);
      FilledKeeps(r, order[0], values);
      FilledLeaves(r, order, put);
      assert Distinct(order[1..]);
      var j := DisturbedShows(f, order[1..], values);
      k := j + 1;
      var later := Hashed(values, order, k);
      assert order[k..] == order[1..][j..];
      assert later == Hashed(values, order[1..], j);
      assert order[0] !in order[k..] by {
        forall i | 0 <= i < |order[k..]| ensures order[k..][i] != order[0] { assert order[k..][i] == order[k + i]; }
      }
      assert later[order[0]] == put;
      HashedIsPlain(values, order, k);
      SlotsByKeys(r, values, later, order);
      CleanPassFills(r, order[0], put);
      FilledKeeps(r, order[0], later);
    }
  }

  lemma {:induction false} SlotsByKeys(r: Reading, values: Values, others: Values, order: seq<string>)
    requires Slots(r, values, order) && values.Keys == others.Keys
    ensures Slots(r, others, order)
  {
    match r
    case Nil =>
    case Char(_, rest) => SlotsByKeys(rest, values, others, order);
    case Slot(_, rest) => SlotsByKeys(rest, values, others, order);
  }

  lemma {:induction false} ReadByKeys(s: string, values: Values, others: Values)
    requires Plain(values) && Plain(others) && values.Keys == others.Keys
    ensures Read(s, values) == Read(s, others)
    decreases |s|
  {
    forall name ensures OpensWith(s, name, values) == OpensWith(s, name, others) {
      assert name in values.Keys <==> name in others.Keys;
    }
    if s == "" {
    } else if name :| OpensWith(s, name, values) {
      forall n | OpensWith(s, n, values) || OpensWith(s, n, others) ensures n == name { SamePrefix(s, n, name); }
      ReadByKeys(s[|Mark(name)|..], values, others);
    } else {
      ReadByKeys(s[1..], values, others);
    }
  }

  ghost predicate AlwaysSimultaneous(s: string, order: seq<string>) {
    forall values: Values :: Plain(values) && Covers(order, values) ==> Passes(s, order, values) == Substitute(s, values)
  }

  ghost predicate NeverDisturbed(s: string, order: seq<string>) {
    forall values: Values :: Plain(values) && Covers(order, values) ==> Undisturbed(Read(s, values), order, values)
  }

  /** For every string: its passes equal one simultaneous substitution, whatever plain values are put
      in, exactly when no plain values let a pass meet a mark that the string does not hold. */
  lemma NeverDisturbedIsAlwaysSimultaneous(s: string, order: seq<string>)
    requires Distinct(order)
    ensures AlwaysSimultaneous(s, order) <==> NeverDisturbed(s, order)
  {
    forall values: Values | Plain(values) && Covers(order, values) && Undisturbed(Read(s, values), order, values)
      ensures Passes(s, order, values) == Substitute(s, values)
    {
      UndisturbedIsSimultaneous(s, order, values);
    }
    if values: Values :| Plain(values) && Covers(order, values) && !Undisturbed(Read(s, values), order, values) {
      var r := Read(s, values);
      ReadIsNamed(r, order, values);
      var k := DisturbedShows(r, order, values);
      var hashed := Hashed(values, order, k);
      HashedIsPlain(values, order, k);
      ReadByKeys(s, values, hashed);
      SubstituteReads(s, hashed);
      forall name ensures name in hashed <==> name in order { assert name in values.Keys <==> name in hashed.Keys; }
      assert Covers(order, hashed);
    }
  }
}
