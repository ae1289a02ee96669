/** The read-only gate before the legacy resume columns are dropped
    (alembic/versions/5a04926d6434): completeness of the copies, asked through aggregates. */
module ResumeCopies {
  import opened Options
  import Extremes

  /** What the aggregates see of one part: its index, and its length (text parts) or recorded
      size (PDF parts). Part indices are unique within a version or an upload. */
  type Parts = map<int, nat>

  function Count(parts: Parts): nat { |parts| }

  // ---- count, COALESCE(min, 0), COALESCE(max, -1), COALESCE(sum, 0) --------------------

  predicate IsMin(s: set<int>, m: int) {
    if s == {} then m == 0 else m in s && forall i :: i in s ==> m <= i
  }

  predicate IsMax(s: set<int>, m: int) {
    if s == {} then m == -1 else m in s && forall i :: i in s ==> i <= m
  }

  function Min(s: set<int>): (m: int)
    ensures IsMin(s, m)
  {
    if s == {} then 0 else Extremes.Least(s)
  }

  function Max(s: set<int>): (m: int)
    ensures IsMax(s, m)
  {
    if s == {} then -1 else Extremes.Greatest(s)
  }

  function Sum(parts: Parts, s: set<int>): nat
    requires s <= parts.Keys
  {
    if s == {} then 0 else var m := Max(s); Sum(parts, s - {m}) + parts[m]
  }

  /** One table of aggregate conditions, as the query spells them. */
  predicate AggregatesMatch(parts: Parts, count: int, total: int) {
    && Count(parts) == count
    && Min(parts.Keys) == 0
    && Max(parts.Keys) == count - 1
    && Sum(parts, parts.Keys) == total
  }

  // ---- what the aggregates are trusted to mean ----------------------------------------

  ghost predicate Gapless(parts: Parts, count: int) {
    forall i :: i in parts.Keys <==> 0 <= i < count
  }

  /** Reading the parts back in order: how long the joined value is. */
  function JoinedLength(parts: Parts, n: nat): nat
    requires forall i :: 0 <= i < n ==> i in parts
  {
    if n == 0 then 0 else JoinedLength(parts, n - 1) + parts[n - 1]
  }

  ghost predicate Complete(parts: Parts, count: int, total: int) {
    count >= 0 && Gapless(parts, count) && JoinedLength(parts, count) == total
  }

  ghost function Upto(n: nat): (s: set<int>)
    ensures |s| == n && forall i :: i in s <==> 0 <= i < n
  {
    if n == 0 then {} else Upto(n - 1) + {n - 1}
  }

  lemma GreatestUpto(n: nat)
    requires n > 0
    ensures Max(Upto(n)) == n - 1
  {
    assert n - 1 in Upto(n);
  }

  lemma SumStep(parts: Parts, n: nat)
    requires n > 0 && Upto(n) <= parts.Keys
    ensures Upto(n - 1) <= parts.Keys
    ensures Sum(parts, Upto(n)) == Sum(parts, Upto(n - 1)) + parts[n - 1]
  {
    GreatestUpto(n);
    var rest := Upto(n) - {n - 1};
    assert rest == Upto(n - 1);
  }

  lemma {:induction false} SumIsJoined(parts: Parts, n: nat)
    requires Upto(n) <= parts.Keys
    ensures Sum(parts, Upto(n)) == JoinedLength(parts, n)
  {
    hide Max, IsMax;
    if n == 0 {
      assert Upto(0) == {};
    } else {
      SumStep(parts, n);
      SumIsJoined(parts, n - 1);
    }
  }

  lemma SubsetOfEqualSize(s: set<int>, t: set<int>)
    requires s <= t && |s| == |t|
    ensures s == t
  {
    assert |t - s| == |t| - |s|;
  }

  /** Four numbers about a set of parts say that no part is missing or extra and that the value
      read back in order has the recorded length; and every such set passes. */
  lemma AggregatesMeanComplete(parts: Parts, count: int, total: int)
    ensures AggregatesMatch(parts, count, total) <==> Complete(parts, count, total)
  {
    if AggregatesMatch(parts, count, total) {
      assert parts.Keys <= Upto(count);
      SubsetOfEqualSize(parts.Keys, Upto(count));
      SumIsJoined(parts, count);
    }
    if Complete(parts, count, total) {
      assert parts.Keys == Upto(count);
      assert Count(parts) == |parts.Keys|;
      if count > 0 { assert 0 in parts.Keys && count - 1 in parts.Keys; }
      SumIsJoined(parts, count);
    }
  }

  // ---- the gate over both tables -------------------------------------------------------

  datatype Version = Version(userId: int, ready: bool, partCount: int, chars: int, parts: map<int, string>) {
    function Lengths(): Parts { map i | i in parts :: |parts[i]| }
  }

  datatype PdfPart = PdfPart(verified: bool, size: nat)

  datatype Upload = Upload(userId: int, status: string, nextPart: int, size: int, parts: map<int, PdfPart>) {
    function Verified(): Parts { map i | i in parts && parts[i].verified :: parts[i].size }
  }

  datatype Resume = Resume(userId: int, textVersionId: Option<int>, pdfUploadId: Option<int>)

  datatype Task = Task(kind: string, status: string)

  /** `config` maps a key to whether its value is anything but the JSON `false`. */
  datatype Db = Db(
    config: map<string, bool>,
    tasks: seq<Task>,
    tables: seq<seq<Resume>>,
    versions: map<int, Version>,
    uploads: map<int, Upload>)

  datatype Refusal = StillEnabled(key: string) | StillActive | Incomplete(table: nat)
  datatype Outcome = Pass | Refused(why: Refusal)

  const RETIRED_KEYS: seq<string> := ["resume_backfill_enabled", "resume_legacy_clear_enabled"]

  predicate RetiredActive(t: Task) {
    t.kind in {"backfill_resumes", "clear_resume_legacy"} && t.status in {"pending", "running"}
  }

  /** The WHERE clause, negated: a row the query does not count. */
  predicate RowPasses(db: Db, r: Resume) {
    && r.textVersionId.Some? && r.textVersionId.value in db.versions
    && (var v := db.versions[r.textVersionId.value];
        v.ready && v.userId == r.userId && AggregatesMatch(v.Lengths(), v.partCount, v.chars))
    && (r.pdfUploadId.Some? ==>
          && r.pdfUploadId.value in db.uploads
          && (var u := db.uploads[r.pdfUploadId.value];
              u.status == "ready" && u.userId == r.userId && AggregatesMatch(u.Verified(), u.nextPart, u.size)))
  }

  function JoinedText(parts: map<int, string>, n: nat): string
    requires forall i :: 0 <= i < n ==> i in parts
  {
    if n == 0 then "" else JoinedText(parts, n - 1) + parts[n - 1]
  }

  /** The parts of a text are there, from the first to the last and no other, and joined as long as recorded. */
  ghost predicate WholeText(v: Version) {
    && v.partCount >= 0 && (forall i :: i in v.parts <==> 0 <= i < v.partCount)
    && |JoinedText(v.parts, v.partCount)| == v.chars
  }

  function SizeOf(parts: map<int, PdfPart>, n: nat): nat
    requires forall i :: 0 <= i < n ==> i in parts
  {
    if n == 0 then 0 else SizeOf(parts, n - 1) + parts[n - 1].size
  }

  /** The verified parts of a PDF are its first up to the next it would take and no other, and of the recorded size. */
  ghost predicate WholePdf(u: Upload) {
    && u.nextPart >= 0 && (forall i :: (i in u.parts && u.parts[i].verified) <==> 0 <= i < u.nextPart)
    && SizeOf(u.parts, u.nextPart) == u.size
  }

  lemma {:induction false} LengthsJoin(v: Version, n: nat)
    requires forall i :: 0 <= i < n ==> i in v.parts
    ensures JoinedLength(v.Lengths(), n) == |JoinedText(v.parts, n)|
  {
    if n > 0 { LengthsJoin(v, n - 1); }
  }

  lemma {:induction false} SizesJoin(u: Upload, n: nat)
    requires forall i :: 0 <= i < n ==> i in u.parts && u.parts[i].verified
    ensures JoinedLength(u.Verified(), n) == SizeOf(u.parts, n)
  {
    if n > 0 { SizesJoin(u, n - 1); }
  }

  lemma CompleteIsWhole(v: Version, u: Upload)
    ensures Complete(v.Lengths(), v.partCount, v.chars) <==> WholeText(v)
    ensures Complete(u.Verified(), u.nextPart, u.size) <==> WholePdf(u)
  {
    assert forall i :: i in v.Lengths().Keys <==> i in v.parts;
    assert forall i :: i in u.Verified().Keys <==> i in u.parts && u.parts[i].verified;
    if v.partCount >= 0 && forall i :: i in v.parts <==> 0 <= i < v.partCount { LengthsJoin(v, v.partCount); }
    if u.nextPart >= 0 && forall i :: (i in u.parts && u.parts[i].verified) <==> 0 <= i < u.nextPart { SizesJoin(u, u.nextPart); }
  }

  /** What the drop relies on: the row's own user's finished version, its text whole; likewise its PDF, if it
      has one. */
  ghost predicate Canonical(db: Db, r: Resume) {
    && r.textVersionId.Some? && r.textVersionId.value in db.versions
    && (var v := db.versions[r.textVersionId.value]; v.ready && v.userId == r.userId && WholeText(v))
    && (r.pdfUploadId.Some? ==>
          && r.pdfUploadId.value in db.uploads
          && (var u := db.uploads[r.pdfUploadId.value]; u.status == "ready" && u.userId == r.userId && WholePdf(u)))
  }

  lemma RowPassesIffCanonical(db: Db, r: Resume)
    ensures RowPasses(db, r) <==> Canonical(db, r)
  {
    if r.textVersionId.Some? && r.textVersionId.value in db.versions {
      var v := db.versions[r.textVersionId.value];
      AggregatesMeanComplete(v.Lengths(), v.partCount, v.chars);
      CompleteIsWhole(v, Upload(0, "", 0, 0, map[]));
    }
    if r.pdfUploadId.Some? && r.pdfUploadId.value in db.uploads {
      var u := db.uploads[r.pdfUploadId.value];
      AggregatesMeanComplete(u.Verified(), u.nextPart, u.size);
      CompleteIsWhole(Version(0, false, 0, 0, map[]), u);
    }
  }

  ghost predicate AllCanonical(db: Db, table: seq<Resume>) {
    forall i :: 0 <= i < |table| ==> Canonical(db, table[i])
  }

  ghost predicate Enabled(db: Db, key: string) { key in db.config && db.config[key] }

  /** `_require_canonical_copies`: three refusals in this order, otherwise nothing. */
  method RequireCanonicalCopies(db: Db) returns (outcome: Outcome)
    ensures outcome.Pass? <==>
            && (forall k :: k in RETIRED_KEYS ==> !Enabled(db, k))
            && (forall i :: 0 <= i < |db.tasks| ==> !RetiredActive(db.tasks[i]))
            && (forall j :: 0 <= j < |db.tables| ==> AllCanonical(db, db.tables[j]))
    ensures outcome == Refused(StillActive) ==> forall k :: k in RETIRED_KEYS ==> !Enabled(db, k)
    ensures outcome.Refused? && outcome.why.Incomplete? ==>
            && (forall i :: 0 <= i < |db.tasks| ==> !RetiredActive(db.tasks[i]))
            && outcome.why.table < |db.tables| && !AllCanonical(db, db.tables[outcome.why.table])
            && (forall j :: 0 <= j < outcome.why.table ==> AllCanonical(db, db.tables[j]))
  {
    for k := 0 to |RETIRED_KEYS|
      invariant forall i :: 0 <= i < k ==> !Enabled(db, RETIRED_KEYS[i])
    {
      if RETIRED_KEYS[k] in db.config && db.config[RETIRED_KEYS[k]] {
        assert RETIRED_KEYS[k] in RETIRED_KEYS && Enabled(db, RETIRED_KEYS[k]);
        return Refused(StillEnabled(RETIRED_KEYS[k]));
      }
    }
    for i := 0 to |db.tasks|
      invariant forall j :: 0 <= j < i ==> !RetiredActive(db.tasks[j])
    {
      if RetiredActive(db.tasks[i]) { return Refused(StillActive); }
    }
    for j := 0 to |db.tables|
      invariant forall i :: 0 <= i < j ==> AllCanonical(db, db.tables[i])
    {
      var missing := 0;
      for i := 0 to |db.tables[j]|
        invariant 0 <= missing
        invariant missing == 0 <==> forall q :: 0 <= q < i ==> Canonical(db, db.tables[j][q])
      {
        RowPassesIffCanonical(db, db.tables[j][i]);
        if !RowPasses(db, db.tables[j][i]) { missing := missing + 1; }
      }
      if missing > 0 { return Refused(Incomplete(j)); }
    }
    outcome := Pass;
  }
}
