/** The policy response as the extension validates it (extension/background/policy.js): what is
    accepted is exactly the rendering of a policy, nothing more in it and nothing missing. */
module PolicyResponse {
  import opened Options
  import opened RecipeValidation

  datatype Json = Null | Bool(b: bool) | Num(n: real) | Str(s: string) | Arr(items: seq<Json>) | Obj(fields: map<string, Json>)

  datatype Feature = Feature(allowed: bool, reason: Option<string>)

  datatype Policy = Policy(revision: string, adapter: string, maxAge: int, features: map<string, Feature>)

  const FEATURES := ["autofill", "ai_suggestions", "resume_upload", "auto_advance"]
  const POLICY_KEYS := {"adapter", "features", "max_age_seconds", "revision", "schema_version"}
  const REASONS := {"FEATURE_DISABLED", "ADAPTER_DISABLED"}

  function FeatureNames(): set<string> { set name | name in FEATURES }

  // ---- validatePolicy ------------------------------------------------------------------

  predicate IsInteger(j: Json) { j.Num? && j.n.Floor as real == j.n }

  function ValidFeature(v: Json): Option<Feature> {
    if !v.Obj? || v.fields.Keys != {"allowed", "reason"} then None
    else
      var allowed, reason := v.fields["allowed"], v.fields["reason"];
      if !allowed.Bool? || !(reason.Null? || (reason.Str? && reason.s in REASONS)) then None
      else if allowed.b && !reason.Null? then None
      else if !allowed.b && reason.Null? then None
      else Some(Feature(allowed.b, if reason.Null? then None else Some(reason.s)))
  }

  /** The features copied before index n. */
  function CopiedFeatures(f: map<string, Json>, n: nat): Option<map<string, Feature>>
    requires n <= |FEATURES| && forall i :: 0 <= i < |FEATURES| ==> FEATURES[i] in f
  {
    if n == 0 then Some(map[])
    else
      var before, feature := CopiedFeatures(f, n - 1), ValidFeature(f[FEATURES[n - 1]]);
      if before.Some? && feature.Some? then Some(before.value[FEATURES[n - 1] := feature.value]) else None
  }

  function ValidFeatures(j: Json): Option<map<string, Feature>> {
    if !j.Obj? || j.fields.Keys != FeatureNames() then None else CopiedFeatures(j.fields, |FEATURES|)
  }

  function ValidPolicy(raw: Json, adapter: string): Option<Policy> {
    if !raw.Obj? || raw.fields.Keys != POLICY_KEYS then None
    else
      var revision, id, age := raw.fields["revision"], raw.fields["adapter"], raw.fields["max_age_seconds"];
      if raw.fields["schema_version"] != Num(1.0) then None
      else if !revision.Str? || !Hex64(revision.s) then None
      else if !id.Str? || !AdapterId(id.s) then None
      else if adapter != "" && id.s != adapter then None
      else if !IsInteger(age) || age.n < 0.0 || age.n > 86400.0 then None
      else
        var features := ValidFeatures(raw.fields["features"]);
        if features.None? then None else Some(Policy(revision.s, id.s, age.n.Floor, features.value))
  }

  // ---- its meaning ---------------------------------------------------------------------

  function RenderFeature(f: Feature): Json {
    Obj(map["allowed" := Bool(f.allowed), "reason" := if f.reason.None? then Null else Str(f.reason.value)])
  }

  function RenderFeatures(features: map<string, Feature>): Json {
    Obj(map name | name in features :: RenderFeature(features[name]))
  }

  function Render(p: Policy): Json {
    Obj(map["adapter" := Str(p.adapter), "features" := RenderFeatures(p.features),
            "max_age_seconds" := Num(p.maxAge as real), "revision" := Str(p.revision), "schema_version" := Num(1.0)])
  }

  /** A switched-off feature says why, and only it does. */
  predicate ProperFeature(f: Feature) {
    if f.allowed then f.reason.None? else f.reason.Some? && f.reason.value in REASONS
  }

  predicate ProperFeatures(features: map<string, Feature>) {
    features.Keys == FeatureNames() && forall name :: name in features ==> ProperFeature(features[name])
  }

  predicate Proper(p: Policy, adapter: string) {
    && Hex64(p.revision) && AdapterId(p.adapter) && (adapter != "" ==> p.adapter == adapter)
    && 0 <= p.maxAge <= 86400 && ProperFeatures(p.features)
  }

  lemma FeatureIsStrict(v: Json, f: Feature)
    ensures ValidFeature(v) == Some(f) <==> v == RenderFeature(f) && ProperFeature(f)
  {
    if ValidFeature(v) == Some(f) {
      assert v.fields == map["allowed" := v.fields["allowed"], "reason" := v.fields["reason"]];
    }
  }

  lemma {:induction false} CopiedIsPointwise(f: map<string, Json>, n: nat)
    requires n <= |FEATURES| && forall i :: 0 <= i < |FEATURES| ==> FEATURES[i] in f
    ensures CopiedFeatures(f, n).Some? <==> forall i :: 0 <= i < n ==> ValidFeature(f[FEATURES[i]]).Some?
    ensures CopiedFeatures(f, n).Some? ==>
              var c := CopiedFeatures(f, n).value;
              && (forall name :: name in c <==> exists i :: 0 <= i < n && FEATURES[i] == name)
              && (forall name :: name in c ==> name in f && ValidFeature(f[name]) == Some(c[name]))
  {
    hide ValidFeature;
    if n > 0 { CopiedIsPointwise(f, n - 1); }
  }

  lemma AcceptedFeatures(j: Json, features: map<string, Feature>)
    requires ValidFeatures(j) == Some(features)
    ensures j == RenderFeatures(features) && ProperFeatures(features)
  {
    hide ValidFeature, RenderFeature, ProperFeature;
    CopiedIsPointwise(j.fields, |FEATURES|);
    forall name | name in features ensures j.fields[name] == RenderFeature(features[name]) && ProperFeature(features[name]) {
      FeatureIsStrict(j.fields[name], features[name]);
    }
    assert features.Keys == FeatureNames();
    assert j.fields == RenderFeatures(features).fields;
  }

  lemma RenderedFeatures(features: map<string, Feature>)
    requires ProperFeatures(features)
    ensures ValidFeatures(RenderFeatures(features)) == Some(features)
  {
    hide ValidFeature, RenderFeature, ProperFeature;
    var f := RenderFeatures(features).fields;
    assert f.Keys == FeatureNames();
    forall name | name in f ensures ValidFeature(f[name]) == Some(features[name]) {
      FeatureIsStrict(f[name], features[name]);
    }
    assert forall i :: 0 <= i < |FEATURES| ==> FEATURES[i] in FeatureNames();
    CopiedIsPointwise(f, |FEATURES|);
    assert CopiedFeatures(f, |FEATURES|).value == features;
  }

  lemma FeaturesAreStrict(j: Json, features: map<string, Feature>)
    ensures ValidFeatures(j) == Some(features) <==> j == RenderFeatures(features) && ProperFeatures(features)
  {
    if ValidFeatures(j) == Some(features) { AcceptedFeatures(j, features); }
    if ProperFeatures(features) { RenderedFeatures(features); }
  }

  /** A response is accepted as a policy exactly when it is that policy written out. */
  lemma PolicyIsStrict(raw: Json, adapter: string, p: Policy)
    ensures ValidPolicy(raw, adapter) == Some(p) <==> raw == Render(p) && Proper(p, adapter)
  {
    hide ValidFeatures, RenderFeatures, ProperFeatures, Hex64, AdapterId;
    FeaturesAreStrict(RenderFeatures(p.features), p.features);
    if raw.Obj? && raw.fields.Keys == POLICY_KEYS {
      FeaturesAreStrict(raw.fields["features"], p.features);
      var f := raw.fields;
      assert f == map["adapter" := f["adapter"], "features" := f["features"], "max_age_seconds" := f["max_age_seconds"],
                      "revision" := f["revision"], "schema_version" := f["schema_version"]];
    } else {
      assert Render(p).fields.Keys == POLICY_KEYS;
    }
  }

  /** The loop over POLICY_FEATURES. */
  method CopyFeatures(f: map<string, Json>) returns (features: Option<map<string, Feature>>)
    requires f.Keys == FeatureNames()
    ensures features == ValidFeatures(Obj(f))
  {
    assert forall i :: 0 <= i < |FEATURES| ==> FEATURES[i] in FeatureNames();
    var copied: map<string, Feature> := map[];
    for i := 0 to |FEATURES|
      invariant CopiedFeatures(f, i) == Some(copied)
    {
      var feature := ValidFeature(f[FEATURES[i]]);
      if feature.None? {
        CopiedIsPointwise(f, |FEATURES|);
        return None;
      }
      copied := copied[FEATURES[i] := feature.value];
    }
    features := Some(copied);
  }
}
