/** Recipes as the extension accepts them (extension/background/policy.js): a manifest, its chunks
    fetched or cached, and the table they decode to. */
module RecipeValidation {
  import opened Options
  import opened RecipeChain

  /** What the extension takes from the browser: atob, TextDecoder with JSON.parse, toLowerCase. */
  datatype Platform = Platform(hash: Hash, atob: string -> Option<Bytes>, parse: Bytes -> Option<Table>, lower: string -> string)

  /** A JSON value as the checks see it; `body` stands for everything they do not look at. */
  datatype Table =
    | NotAnObject
    | Table(name: Option<string>, matches: Option<seq<Option<string>>>, fieldsIsArray: bool, body: string)

  /** A manifest's keys and values, None where a value is missing or of another type. */
  datatype Raw = Raw(
    keys: set<string>, schemaVersion: Option<int>, encoding: Option<string>, digestAlgorithm: Option<string>,
    chunkCount: Option<int>, revision: Option<string>, adapter: Option<string>, maxAge: Option<int>,
    chunks: Option<seq<string>>)

  /** The reply to a request for one chunk. */
  datatype PartReply = PartReply(
    status: int, keys: set<string>, adapter: Option<string>, revision: Option<string>, index: Option<int>,
    schemaVersion: Option<int>, payload: Option<string>)

  datatype Config = Config(revision: string, adapter: string, maxAge: int, recipe: Table)

  const MANIFEST_KEYS := {"adapter", "chunk_count", "digest_algorithm", "encoding", "max_age_seconds", "revision", "schema_version"}
  const CACHED_KEYS := MANIFEST_KEYS + {"chunks"}
  const PART_KEYS := {"adapter", "index", "payload", "revision", "schema_version"}

  /** /^[0-9a-f]{64}$/ */
  predicate Hex64(s: string) { |s| == 64 && forall i :: 0 <= i < 64 ==> s[i] in HEX }

  predicate IdChar(c: char) { 'a' <= c <= 'z' || '0' <= c <= '9' }

  /** /^[a-z0-9][a-z0-9_.-]{0,63}$/ */
  predicate AdapterId(s: string) {
    1 <= |s| <= 64 && IdChar(s[0]) && forall i :: 1 <= i < |s| ==> IdChar(s[i]) || s[i] in "_.-"
  }

  predicate ValidManifest(raw: Raw, adapter: string) {
    && raw.schemaVersion == Some(2) && raw.encoding == Some("identity-chunks")
    && raw.digestAlgorithm == Some("chunk-chain-sha256")
    && raw.chunkCount.Some? && 1 <= raw.chunkCount.value <= 0x1f_ffff_ffff_ffff
    && raw.revision.Some? && Hex64(raw.revision.value)
    && raw.adapter == Some(adapter) && AdapterId(adapter)
    && raw.maxAge.Some? && 0 <= raw.maxAge.value <= 86400
  }

  predicate PartOk(part: PartReply, raw: Raw, adapter: string, index: nat) {
    && part.status == 200 && part.keys == PART_KEYS && part.adapter == Some(adapter) && part.revision == raw.revision
    && part.index == Some(index) && part.schemaVersion == Some(2) && part.payload.Some?
  }

  /** The payloads of the first n chunks, None if a reply is missing or is not that chunk. */
  function Payloads(replies: seq<PartReply>, raw: Raw, adapter: string, n: nat): Option<seq<string>> {
    if n == 0 then Some([])
    else
      var before := Payloads(replies, raw, adapter, n - 1);
      if before.Some? && n <= |replies| && PartOk(replies[n - 1], raw, adapter, n - 1)
      then Some(before.value + [replies[n - 1].payload.value]) else None
  }

  /** The response with the chunks a live one is completed by. */
  function Completed(raw: Raw, adapter: string, replies: seq<PartReply>): Option<Raw> {
    if !ValidManifest(raw, adapter) then None
    else if raw.keys == MANIFEST_KEYS then
      var chunks := Payloads(replies, raw, adapter, raw.chunkCount.value);
      if chunks.None? then None else Some(raw.(keys := CACHED_KEYS, chunks := chunks))
    else Some(raw)
  }

  function Decoded(p: Platform, chunks: seq<string>): Option<seq<Bytes>> {
    if chunks == [] then Some([])
    else
      var before, last := Decoded(p, chunks[..|chunks| - 1]), p.atob(chunks[|chunks| - 1]);
      if before.Some? && last.Some? then Some(before.value + [last.value]) else None
  }

  predicate Https(m: Option<string>) { m.Some? && "https://" <= m.value }

  predicate IsTableFor(p: Platform, table: Table, adapter: string) {
    && table.Table? && table.name.Some? && p.lower(table.name.value) == adapter
    && table.matches.Some? && table.matches.value != [] && (forall m :: m in table.matches.value ==> Https(m))
    && table.fieldsIsArray
  }

  /** validateRecipe. */
  function Accepted(p: Platform, raw: Raw): Option<Config> {
    if raw.keys != CACHED_KEYS || raw.chunks.None? || raw.chunkCount != Some(|raw.chunks.value|) then None
    else
      var parts := Decoded(p, raw.chunks.value);
      if parts.None? || raw.revision != Some(Hex(Chain(p.hash, parts.value, |parts.value|))) then None
      else
        var table := p.parse(Concat(parts.value));
        if table.Some? && raw.adapter.Some? && raw.maxAge.Some? && IsTableFor(p, table.value, raw.adapter.value)
        then Some(Config(raw.revision.value, raw.adapter.value, raw.maxAge.value, table.value)) else None
  }

  /** RecipeStore.validate. */
  function Validate(p: Platform, raw: Raw, adapter: string, replies: seq<PartReply>): Option<Config> {
    var whole := Completed(raw, adapter, replies);
    if whole.None? then None else Accepted(p, whole.value)
  }

  // ---- what an accepted response is -----------------------------------------------------------

  lemma {:induction false} DecodedLength(p: Platform, chunks: seq<string>)
    ensures Decoded(p, chunks).Some? ==> |Decoded(p, chunks).value| == |chunks|
  {
    if chunks != [] { DecodedLength(p, chunks[..|chunks| - 1]); }
  }

  lemma {:induction false} PayloadsLength(replies: seq<PartReply>, raw: Raw, adapter: string, n: nat)
    ensures Payloads(replies, raw, adapter, n).Some? ==> |Payloads(replies, raw, adapter, n).value| == n
  {
    if n > 0 { PayloadsLength(replies, raw, adapter, n - 1); }
  }

  /** The chunks behind an accepted response. */
  ghost predicate From(p: Platform, raw: Raw, adapter: string, replies: seq<PartReply>, parts: seq<Bytes>) {
    && Completed(raw, adapter, replies).Some? && Completed(raw, adapter, replies).value.chunks.Some?
    && Decoded(p, Completed(raw, adapter, replies).value.chunks.value) == Some(parts)
  }

  lemma AcceptedIsChained(p: Platform, raw: Raw, adapter: string, replies: seq<PartReply>) returns (parts: seq<Bytes>)
    requires Validate(p, raw, adapter, replies).Some?
    ensures From(p, raw, adapter, replies, parts) && parts != []
    ensures var c := Validate(p, raw, adapter, replies).value;
            && c.revision == Hex(Chain(p.hash, parts, |parts|)) && p.parse(Concat(parts)) == Some(c.recipe)
            && c.adapter == adapter && p.lower(c.recipe.name.OrElse("")) == adapter && 0 <= c.maxAge <= 86400
  {
    var whole := Completed(raw, adapter, replies).value;
    DecodedLength(p, whole.chunks.value);
    parts := Decoded(p, whole.chunks.value).value;
  }

  /** Two responses accepted under one revision, each fetched live or read back from a cache, decode to
      one table, and so are for one adapter; unless two of the strings their chains hash collide. */
  lemma OneRevisionOneTable(p: Platform, raw: Raw, adapter: string, replies: seq<PartReply>,
                            raw': Raw, adapter': string, replies': seq<PartReply>,
                            parts: seq<Bytes>, parts': seq<Bytes>)
    requires IsDigest(p.hash) && InLimits(parts) && InLimits(parts')
    requires Validate(p, raw, adapter, replies).Some? && From(p, raw, adapter, replies, parts)
    requires Validate(p, raw', adapter', replies').Some? && From(p, raw', adapter', replies', parts')
    requires Validate(p, raw, adapter, replies).value.revision == Validate(p, raw', adapter', replies').value.revision
    requires forall x, y :: x in Hashed(p.hash, parts, |parts|) && y in Hashed(p.hash, parts', |parts'|) ==> !Collide(p.hash, x, y)
    ensures parts == parts' && adapter == adapter'
    ensures Validate(p, raw, adapter, replies).value.recipe == Validate(p, raw', adapter', replies').value.recipe
  {
    hide Completed, Accepted, Validate, Hex, Collide, InLimits, IsTableFor;
    var a := AcceptedIsChained(p, raw, adapter, replies);
    var b := AcceptedIsChained(p, raw', adapter', replies');
    HexIsInjective(Chain(p.hash, parts, |parts|), Chain(p.hash, parts', |parts'|));
    if parts != parts' {
      var x, y := ChainBinds(p.hash, parts, parts');
    }
  }

  /** What is stored of an accepted live response reads back as the same configuration, without a fetch. */
  lemma CachedReadsBack(p: Platform, raw: Raw, adapter: string, replies: seq<PartReply>)
    requires Validate(p, raw, adapter, replies).Some?
    ensures Validate(p, Completed(raw, adapter, replies).value, adapter, []) == Validate(p, raw, adapter, replies)
  {
    assert "chunks" in CACHED_KEYS && "chunks" !in MANIFEST_KEYS;
  }

  // ---- what is accepted ----------------------------------------------------------------

  /** A manifest of schema 2 for the adapter, with nothing in it but what it must have, or that and its chunks. */
  predicate IsManifest(raw: Raw, adapter: string) {
    && raw.schemaVersion == Some(2) && raw.encoding == Some("identity-chunks") && raw.digestAlgorithm == Some("chunk-chain-sha256")
    && raw.chunkCount.Some? && 1 <= raw.chunkCount.value < 0x20_0000_0000_0000
    && raw.revision.Some? && raw.adapter == Some(adapter) && AdapterId(adapter)
    && raw.maxAge.Some? && 0 <= raw.maxAge.value <= 86400
  }

  /** The i-th reply is that chunk of that revision, and decodes to the part. */
  predicate Sends(p: Platform, raw: Raw, adapter: string, reply: PartReply, i: nat, part: Bytes) {
    && reply.status == 200 && reply.keys == {"adapter", "index", "payload", "revision", "schema_version"}
    && reply.adapter == Some(adapter) && reply.revision == raw.revision && reply.index == Some(i) && reply.schemaVersion == Some(2)
    && reply.payload.Some? && p.atob(reply.payload.value) == Some(part)
  }

  /** The parts come with the response, or live, one reply each. */
  predicate Delivers(p: Platform, raw: Raw, adapter: string, replies: seq<PartReply>, parts: seq<Bytes>) {
    && raw.chunkCount == Some(|parts|)
    && if raw.keys == {"adapter", "chunk_count", "digest_algorithm", "encoding", "max_age_seconds", "revision", "schema_version"}
       then |parts| <= |replies| && forall i :: 0 <= i < |parts| ==> Sends(p, raw, adapter, replies[i], i, parts[i])
       else
         && raw.keys == {"adapter", "chunk_count", "chunks", "digest_algorithm", "encoding", "max_age_seconds", "revision", "schema_version"}
         && raw.chunks.Some? && |raw.chunks.value| == |parts|
         && forall i :: 0 <= i < |parts| ==> p.atob(raw.chunks.value[i]) == Some(parts[i])
  }

  predicate Holds(p: Platform, adapter: string, parts: seq<Bytes>, table: Table) {
    && p.parse(Concat(parts)) == Some(table)
    && table.Table? && table.name.Some? && p.lower(table.name.value) == adapter && table.fieldsIsArray
    && table.matches.Some? && |table.matches.value| > 0
    && forall i :: 0 <= i < |table.matches.value| ==> table.matches.value[i].Some? && "https://" <= table.matches.value[i].value
  }

  lemma {:induction false} DecodedIs(p: Platform, chunks: seq<string>, parts: seq<Bytes>)
    ensures Decoded(p, chunks) == Some(parts) <==>
            |parts| == |chunks| && forall i :: 0 <= i < |parts| ==> p.atob(chunks[i]) == Some(parts[i])
  {
    if chunks != [] && parts != [] {
      var n := |chunks| - 1;
      DecodedIs(p, chunks[..n], parts[..|parts| - 1]);
      assert parts == parts[..|parts| - 1] + [parts[|parts| - 1]];
    }
  }

  lemma {:induction false} PayloadsAre(replies: seq<PartReply>, raw: Raw, adapter: string, n: nat, chunks: seq<string>)
    ensures Payloads(replies, raw, adapter, n) == Some(chunks) <==>
            && |chunks| == n && n <= |replies|
            && forall i :: 0 <= i < n ==> PartOk(replies[i], raw, adapter, i) && replies[i].payload.value == chunks[i]
  {
    hide PartOk;
    assert forall i :: 0 <= i < |replies| && PartOk(replies[i], raw, adapter, i) ==> replies[i].payload.Some? by { OkIsSent(replies, raw, adapter); }
    if n > 0 && chunks != [] {
      PayloadsAre(replies, raw, adapter, n - 1, chunks[..|chunks| - 1]);
      assert chunks == chunks[..|chunks| - 1] + [chunks[|chunks| - 1]];
    }
  }

  lemma OkIsSent(replies: seq<PartReply>, raw: Raw, adapter: string)
    ensures forall i :: 0 <= i < |replies| && PartOk(replies[i], raw, adapter, i) ==> replies[i].payload.Some?
  {
  }

  lemma RevisionIsHex(p: Platform, parts: seq<Bytes>)
    requires IsDigest(p.hash) && parts != []
    ensures Hex64(Hex(Chain(p.hash, parts, |parts|)))
  {
    var digest := Chain(p.hash, parts, |parts|);
    ChainLength(p.hash, parts, |parts|);
    HexLength(digest);
    HexCharacters(digest);
    hide Hex, Chain;
  }

  /** The parts are the decoded chunks of the response as completed. */
  lemma DeliversIs(p: Platform, raw: Raw, adapter: string, replies: seq<PartReply>, parts: seq<Bytes>)
    requires ValidManifest(raw, adapter) && raw.keys in {MANIFEST_KEYS, CACHED_KEYS}
    ensures Delivers(p, raw, adapter, replies, parts) <==>
            && raw.chunkCount == Some(|parts|)
            && From(p, raw, adapter, replies, parts)
  {
    assert MANIFEST_KEYS != CACHED_KEYS by { assert "chunks" in CACHED_KEYS && "chunks" !in MANIFEST_KEYS; }
    var n := raw.chunkCount.value;
    if raw.keys == MANIFEST_KEYS {
      hide ValidManifest;
      if Delivers(p, raw, adapter, replies, parts) {
        var chunks := seq(n, i requires 0 <= i < n => replies[i].payload.value);
        forall i | 0 <= i < n ensures PartOk(replies[i], raw, adapter, i) { assert Sends(p, raw, adapter, replies[i], i, parts[i]); }
        PayloadsAre(replies, raw, adapter, n, chunks);
        DecodedIs(p, chunks, parts);
      }
      if raw.chunkCount == Some(|parts|) && From(p, raw, adapter, replies, parts) {
        var chunks := Payloads(replies, raw, adapter, n).value;
        PayloadsAre(replies, raw, adapter, n, chunks);
        DecodedIs(p, chunks, parts);
      }
    } else if raw.chunks.Some? {
      DecodedIs(p, raw.chunks.value, parts);
    }
  }

  lemma TableIs(p: Platform, table: Table, adapter: string, parts: seq<Bytes>)
    ensures Holds(p, adapter, parts, table) <==> p.parse(Concat(parts)) == Some(table) && IsTableFor(p, table, adapter)
  {
    hide Concat;
    if table.Table? && table.matches.Some? {
      var matches := table.matches.value;
      if forall m :: m in matches ==> Https(m) {
        forall i | 0 <= i < |matches| ensures Https(matches[i]) { assert matches[i] in matches; }
      }
    }
  }

  lemma AcceptedHolds(p: Platform, raw: Raw, adapter: string, replies: seq<PartReply>, parts: seq<Bytes>)
    requires Validate(p, raw, adapter, replies).Some? && From(p, raw, adapter, replies, parts)
    ensures var c := Validate(p, raw, adapter, replies).value;
            && IsManifest(raw, adapter) && raw.keys in {MANIFEST_KEYS, CACHED_KEYS} && ValidManifest(raw, adapter)
            && raw.chunkCount == Some(|parts|) && Holds(p, adapter, parts, c.recipe)
            && c.revision == raw.revision.value && c.adapter == adapter && c.maxAge == raw.maxAge.value
            && c.revision == Hex(Chain(p.hash, parts, |parts|))
  {
    TableIs(p, Validate(p, raw, adapter, replies).value.recipe, adapter, parts);
    hide Hex, Chain, Concat, Payloads, AdapterId, Hex64, IsTableFor, Holds;
    DecodedLength(p, Completed(raw, adapter, replies).value.chunks.value);
    hide Decoded;
  }

  lemma HoldsIsAccepted(p: Platform, raw: Raw, adapter: string, replies: seq<PartReply>, parts: seq<Bytes>, table: Table)
    requires ValidManifest(raw, adapter) && raw.keys in {MANIFEST_KEYS, CACHED_KEYS}
    requires raw.chunkCount == Some(|parts|) && From(p, raw, adapter, replies, parts)
    requires raw.revision == Some(Hex(Chain(p.hash, parts, |parts|))) && Holds(p, adapter, parts, table)
    ensures Validate(p, raw, adapter, replies) == Some(Config(raw.revision.value, adapter, raw.maxAge.value, table))
  {
    TableIs(p, table, adapter, parts);
    hide Hex, Chain, Concat, Payloads, AdapterId, Hex64, IsTableFor, Holds;
    DecodedLength(p, Completed(raw, adapter, replies).value.chunks.value);
    hide Decoded;
  }

  /** A manifest for the adapter whose chunks decode to the parts, chain to its revision and hold the table. */
  predicate Published(p: Platform, raw: Raw, adapter: string, replies: seq<PartReply>, parts: seq<Bytes>, c: Config) {
    && IsManifest(raw, adapter)
    && c.revision == raw.revision.value && c.adapter == adapter && c.maxAge == raw.maxAge.value
    && Delivers(p, raw, adapter, replies, parts) && c.revision == Hex(Chain(p.hash, parts, |parts|))
    && Holds(p, adapter, parts, c.recipe)
  }

  lemma AcceptedIsPublished(p: Platform, raw: Raw, adapter: string, replies: seq<PartReply>, c: Config) returns (parts: seq<Bytes>)
    requires Validate(p, raw, adapter, replies) == Some(c)
    ensures Published(p, raw, adapter, replies, parts, c)
  {
    parts := AcceptedIsChained(p, raw, adapter, replies);
    AcceptedHolds(p, raw, adapter, replies, parts);
    DeliversIs(p, raw, adapter, replies, parts);
    hide Hex, Chain, Concat, Validate, From, Holds, Delivers, IsManifest, ValidManifest;
  }

  lemma PublishedIsAccepted(p: Platform, raw: Raw, adapter: string, replies: seq<PartReply>, parts: seq<Bytes>, c: Config)
    requires IsDigest(p.hash) && Published(p, raw, adapter, replies, parts, c)
    ensures Validate(p, raw, adapter, replies) == Some(c)
  {
    hide Hex, Chain, Concat, Validate, From, Holds, AdapterId, Hex64;
    RevisionIsHex(p, parts);
    assert CACHED_KEYS == {"adapter", "chunk_count", "chunks", "digest_algorithm", "encoding", "max_age_seconds", "revision", "schema_version"};
    DeliversIs(p, raw, adapter, replies, parts);
    HoldsIsAccepted(p, raw, adapter, replies, parts, c.recipe);
  }

  /** A response is accepted, live or read back, if and only if it is a manifest for the adapter whose chunks decode,
      chain to its revision and hold a table for that adapter; as that revision, age and table. */
  lemma AcceptedExactly(p: Platform, raw: Raw, adapter: string, replies: seq<PartReply>, c: Config)
    requires IsDigest(p.hash)
    ensures Validate(p, raw, adapter, replies) == Some(c) <==> exists parts :: Published(p, raw, adapter, replies, parts, c)
  {
    hide Validate, Published;
    if Validate(p, raw, adapter, replies) == Some(c) { var parts := AcceptedIsPublished(p, raw, adapter, replies, c); }
    if parts :| Published(p, raw, adapter, replies, parts, c) { PublishedIsAccepted(p, raw, adapter, replies, parts, c); }
  }

  // ---- the methods ---------------------------------------------------------------------

  /** The loop that fetches a live response's chunks. */
  method FetchChunks(raw: Raw, adapter: string, replies: seq<PartReply>) returns (chunks: Option<seq<string>>)
    requires ValidManifest(raw, adapter)
    ensures chunks == Payloads(replies, raw, adapter, raw.chunkCount.value)
  {
    var payloads: seq<string> := [];
    for index := 0 to raw.chunkCount.value
      invariant Payloads(replies, raw, adapter, index) == Some(payloads)
    {
      if index >= |replies| || !PartOk(replies[index], raw, adapter, index) {
        NoneFromHere(replies, raw, adapter, index + 1, raw.chunkCount.value);
        return None;
      }
      payloads := payloads + [replies[index].payload.value];
    }
    chunks := Some(payloads);
  }

  lemma {:induction false} NoneFromHere(replies: seq<PartReply>, raw: Raw, adapter: string, n: nat, m: nat)
    requires n <= m && Payloads(replies, raw, adapter, n).None?
    ensures Payloads(replies, raw, adapter, m).None?
  {
    if n < m { NoneFromHere(replies, raw, adapter, n, m - 1); }
  }

  method ValidateRecipe(p: Platform, raw: Raw) returns (config: Option<Config>)
    requires IsDigest(p.hash)
    ensures config == Accepted(p, raw)
  {
    if raw.keys != CACHED_KEYS || raw.chunks.None? || raw.chunkCount != Some(|raw.chunks.value|) { return None; }
    var parts := Decoded(p, raw.chunks.value);
    if parts.None? { return None; }
    var digest := ChunkChainDigest(p.hash, parts.value);
    if raw.revision != Some(digest) { return None; }
    var bytes := Reassemble(parts.value);
    var table := p.parse(bytes[..]);
    if table.None? || raw.adapter.None? || raw.maxAge.None? { return None; }
    if !IsTableFor(p, table.value, raw.adapter.value) { return None; }
    config := Some(Config(raw.revision.value, raw.adapter.value, raw.maxAge.value, table.value));
  }
}
