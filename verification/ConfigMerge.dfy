/** Nested configurations, their recursive merge, and the variants of the experiment matrices. */
module ConfigMerge {
  import opened Common

  /** A configuration value: anything but a dictionary is a leaf. */
  datatype Value = Leaf(token: string) | Dict(entries: map<string, Value>)

  /** Both sides define k as a dictionary, so the merge descends there. */
  predicate Nested(base: Value, patch: Value, k: string)
    requires base.Dict? && patch.Dict?
  {
    k in base.entries && k in patch.entries && base.entries[k].Dict? && patch.entries[k].Dict?
  }

  function Merge(base: Value, patch: Value): (r: Value)
    requires base.Dict? && patch.Dict?
    ensures r.Dict? && r.entries.Keys == base.entries.Keys + patch.entries.Keys
    decreases patch
  {
    Dict(map k | k in base.entries.Keys + patch.entries.Keys ::
      if Nested(base, patch, k) then Merge(base.entries[k], patch.entries[k])
      else if k in patch.entries then patch.entries[k]
      else base.entries[k])
  }

  /** The source's loop: a copy of base, overwritten key by key in whatever order the patch lists them. */
  method DeepMerge(base: Value, patch: Value) returns (out: Value)
    requires base.Dict? && patch.Dict?
    ensures out == Merge(base, patch)
    decreases patch
  {
    var m, todo := base.entries, patch.entries.Keys;
    while todo != {}
      invariant todo <= patch.entries.Keys && m.Keys == base.entries.Keys + (patch.entries.Keys - todo)
      invariant forall k :: k in m ==>
        m[k] == if k in patch.entries.Keys - todo then Merge(base, patch).entries[k] else base.entries[k]
      decreases todo
    {
      var k :| k in todo;
      var v := patch.entries[k];
      if k in m && m[k].Dict? && v.Dict? {
        var sub := DeepMerge(m[k], v);
        m := m[k := sub];
      } else {
        m := m[k := v];
      }
      todo := todo - {k};
    }
    out := Dict(m);
  }

  // ---------- Lookup law ----------

  function Lookup(v: Value, path: seq<string>): Option<Value> {
    if path == [] then Some(v)
    else if v.Dict? && path[0] in v.entries then Lookup(v.entries[path[0]], path[1..])
    else None
  }

  /** Walking the path in v meets a leaf before the path ends. */
  predicate LeafAbove(v: Value, path: seq<string>) {
    path != [] && (v.Leaf? || (path[0] in v.entries && LeafAbove(v.entries[path[0]], path[1..])))
  }

  /** Walking the path in v meets a missing key. */
  predicate Misses(v: Value, path: seq<string>) {
    path != [] && v.Dict? && (path[0] !in v.entries || Misses(v.entries[path[0]], path[1..]))
  }

  /** The merge is right-biased: what the patch says at a path wins (two dictionaries merge), a patch leaf above
      the path hides it, and where the patch says nothing the base shows through. */
  lemma {:induction false} MergeLookup(base: Value, patch: Value, path: seq<string>)
    requires base.Dict? && patch.Dict?
    ensures var b, p, r := Lookup(base, path), Lookup(patch, path), Lookup(Merge(base, patch), path);
      && (p.Some? ==>
            r == Some(if b.Some? && b.value.Dict? && p.value.Dict? then Merge(b.value, p.value) else p.value))
      && (LeafAbove(patch, path) ==> r == None)
      && (Misses(patch, path) ==> r == b)
    decreases |path|
  {
    LookupCases(patch, path);
    if path != [] {
      var k := path[0];
      if k in base.entries && k in patch.entries && Nested(base, patch, k) {
        MergeLookup(base.entries[k], patch.entries[k], path[1..]);
      }
    }
  }

  /** Exactly one of the three cases of the law applies to any path. */
  lemma {:induction false} LookupCases(patch: Value, path: seq<string>)
    ensures Lookup(patch, path).Some? <==> !LeafAbove(patch, path) && !Misses(patch, path)
    ensures !(LeafAbove(patch, path) && Misses(patch, path))
    decreases |path|
  {
    if path != [] && patch.Dict? && path[0] in patch.entries {
      LookupCases(patch.entries[path[0]], path[1..]);
    }
  }

  // ---------- Idempotence and associativity ----------

  /** Applying a patch a second time changes nothing. */
  lemma {:induction false} MergeIdempotent(base: Value, patch: Value)
    requires base.Dict? && patch.Dict?
    ensures Merge(Merge(base, patch), patch) == Merge(base, patch)
    decreases patch
  {
    var m := Merge(base, patch);
    forall k | k in m.entries ensures Merge(m, patch).entries[k] == m.entries[k] {
      if k in patch.entries && patch.entries[k].Dict? {
        if Nested(base, patch, k) {
          MergeIdempotent(base.entries[k], patch.entries[k]);
        } else {
          MergeSelf(patch.entries[k]);
        }
      }
    }
    assert Merge(m, patch).entries == m.entries;
  }

  lemma {:induction false} MergeSelf(v: Value)
    requires v.Dict?
    ensures Merge(v, v) == v
    decreases v
  {
    forall k | k in v.entries ensures Merge(v, v).entries[k] == v.entries[k] {
      if v.entries[k].Dict? { MergeSelf(v.entries[k]); }
    }
    assert Merge(v, v).entries == v.entries;
  }

  /** Everything a defines is also defined by c, at every depth where both are dictionaries. */
  predicate Covered(a: Value, c: Value)
    requires a.Dict? && c.Dict?
    decreases a
  {
    forall k :: k in a.entries ==> k in c.entries && (Nested(a, c, k) ==> Covered(a.entries[k], c.entries[k]))
  }

  lemma {:induction false} CoveredExact(a: Value, c: Value)
    requires a.Dict? && c.Dict?
    ensures Merge(a, c) == c <==> Covered(a, c)
    decreases a
  {
    var m := Merge(a, c);
    forall k | k in a.entries && k in c.entries
      ensures m.entries[k] == c.entries[k] <==> (Nested(a, c, k) ==> Covered(a.entries[k], c.entries[k]))
    {
      if Nested(a, c, k) { CoveredExact(a.entries[k], c.entries[k]); }
    }
    if Covered(a, c) {
      assert m.entries.Keys == c.entries.Keys;
      assert m.entries == c.entries;
    }
  }

  /** No path has a dictionary in a and in c but a leaf in b, unless what a holds there is covered by c. */
  predicate NoClash(a: Value, b: Value, c: Value)
    requires a.Dict? && b.Dict? && c.Dict?
    decreases a
  {
    forall k :: k in b.entries && Nested(a, c, k) ==>
      if b.entries[k].Dict? then NoClash(a.entries[k], b.entries[k], c.entries[k])
      else Covered(a.entries[k], c.entries[k])
  }

  /** Merging is associative on exactly the triples without a clash. */
  lemma {:induction false} AssociativeExact(a: Value, b: Value, c: Value)
    requires a.Dict? && b.Dict? && c.Dict?
    ensures Merge(Merge(a, b), c) == Merge(a, Merge(b, c)) <==> NoClash(a, b, c)
    decreases a
  {
    var l, r := Merge(Merge(a, b), c), Merge(a, Merge(b, c));
    forall k | k in l.entries
      ensures l.entries[k] == r.entries[k] <==>
        (k in b.entries && Nested(a, c, k) ==>
          if b.entries[k].Dict? then NoClash(a.entries[k], b.entries[k], c.entries[k])
          else Covered(a.entries[k], c.entries[k]))
    {
      AssociativeAt(a, b, c, k);
      if k in b.entries && Nested(a, c, k) {
        if b.entries[k].Dict? {
          AssociativeExact(a.entries[k], b.entries[k], c.entries[k]);
        } else {
          CoveredExact(a.entries[k], c.entries[k]);
        }
      }
    }
    assert l.entries.Keys == r.entries.Keys;
    if NoClash(a, b, c) {
      assert l.entries == r.entries;
    }
  }

  /** A dictionary overwritten by a leaf and then by an empty dictionary: merged left to right its entry is lost,
      merged right to left it survives. */
  lemma GroupingMatters()
    ensures var inner := map["x" := Leaf("1")];
      var a, b, c := Dict(map["k" := Dict(inner)]), Dict(map["k" := Leaf("0")]), Dict(map["k" := Dict(map[])]);
      && Merge(Merge(a, b), c) == c
      && Merge(a, Merge(b, c)) == a
      && !NoClash(a, b, c)
  {
    var inner := map["x" := Leaf("1")];
    var a, b, c := Dict(map["k" := Dict(inner)]), Dict(map["k" := Leaf("0")]), Dict(map["k" := Dict(map[])]);
    assert Merge(Dict(inner), Dict(map[])).entries == inner;
    assert Merge(a, b).entries == b.entries && Merge(b, c).entries == c.entries;
    assert Merge(a, c).entries == a.entries;
    assert "x" in a.entries["k"].entries && "x" !in c.entries["k"].entries;
    AssociativeExact(a, b, c);
  }

  /** What the two groupings hold at one key. */
  lemma AssociativeAt(a: Value, b: Value, c: Value, k: string)
    requires a.Dict? && b.Dict? && c.Dict? && k in a.entries.Keys + b.entries.Keys + c.entries.Keys
    ensures var l, r := Merge(Merge(a, b), c).entries[k], Merge(a, Merge(b, c)).entries[k];
      if k in b.entries && Nested(a, c, k) then
        if b.entries[k].Dict? then
          l == Merge(Merge(a.entries[k], b.entries[k]), c.entries[k]) &&
          r == Merge(a.entries[k], Merge(b.entries[k], c.entries[k]))
        else l == c.entries[k] && r == Merge(a.entries[k], c.entries[k])
      else l == r
  {
    var ab, bc := Merge(a, b), Merge(b, c);
    assert k in ab.entries <==> k in a.entries || k in b.entries;
    assert k in bc.entries <==> k in b.entries || k in c.entries;
  }

  // ---------- Experiment variants ----------

  datatype Spec = Spec(filterOverrides: map<string, Value>, configOverlay: Value)

  const OFF := Leaf("False")
  const NO_OVERLAY := Dict(map[])

  function ExpansionOverlay(gates: map<string, Value>): Value {
    Dict(map["regime_profiles" := Dict(map["expansion" := Dict(gates)])])
  }

  const EXPERIMENT_MATRIX: seq<Spec> := [
    Spec(map[], NO_OVERLAY),
    Spec(map["session" := OFF], NO_OVERLAY),
    Spec(map["regime" := OFF], NO_OVERLAY),
    Spec(map["cooldown" := OFF], NO_OVERLAY),
    Spec(map["session" := OFF, "regime" := OFF], NO_OVERLAY),
    Spec(map["session" := OFF, "regime" := OFF, "cooldown" := OFF, "news" := OFF], NO_OVERLAY)]

  const SESSION_MATRIX: seq<Spec> := [
    Spec(map[], NO_OVERLAY),
    Spec(map[], ExpansionOverlay(map["allowed_sessions" := Leaf("London, New York, Overlap")])),
    Spec(map[], ExpansionOverlay(map["allowed_sessions" := Leaf("New York"), "min_hour_utc" := Leaf("0")])),
    Spec(map[], ExpansionOverlay(map["allowed_sessions" := Leaf("New York, Overlap"), "min_hour_utc" := Leaf("0")])),
    Spec(map["session" := OFF], NO_OVERLAY)]

  function WithFilters(base: Value, overrides: map<string, Value>): (r: Value)
    requires base.Dict?
    ensures r.Dict?
  {
    if overrides == map[] then base
    else
      var existing := if "filters" in base.entries && base.entries["filters"].Dict?
                      then base.entries["filters"].entries else map[];
      Dict(base.entries["filters" := Dict(existing + overrides)])
  }

  function Variant(base: Value, spec: Spec): Value
    requires base.Dict? && spec.configOverlay.Dict?
  {
    var merged := WithFilters(base, spec.filterOverrides);
    if spec.configOverlay.entries == map[] then merged else Merge(merged, spec.configOverlay)
  }

  method BuildVariant(base: Value, spec: Spec) returns (merged: Value)
    requires base.Dict? && spec.configOverlay.Dict?
    ensures merged == Variant(base, spec)
  {
    merged := base;
    if spec.filterOverrides != map[] {
      var existing: map<string, Value> := map[];
      if "filters" in merged.entries && merged.entries["filters"].Dict? {
        existing := merged.entries["filters"].entries;
      }
      merged := Dict(merged.entries["filters" := Dict(existing + spec.filterOverrides)]);
    }
    if spec.configOverlay.entries != map[] {
      merged := DeepMerge(merged, spec.configOverlay);
    }
  }

  /** The path lies outside what the spec sets: not an overridden filter, and not defined by the overlay. */
  predicate Outside(spec: Spec, path: seq<string>) {
    (spec.filterOverrides != map[] && |path| > 0 && path[0] == "filters" ==>
       |path| > 1 && path[1] !in spec.filterOverrides) &&
    (Misses(spec.configOverlay, path))
  }

  /** A variant agrees with the base configuration on every path outside its override and overlay. */
  lemma VariantAgreesOutside(base: Value, spec: Spec, path: seq<string>)
    requires base.Dict? && spec.configOverlay.Dict? && Outside(spec, path)
    ensures Lookup(Variant(base, spec), path) == Lookup(base, path)
  {
    var merged := WithFilters(base, spec.filterOverrides);
    assert Lookup(merged, path) == Lookup(base, path) by {
      if spec.filterOverrides != map[] && path[0] == "filters" {
        var rest := path[1..];
        assert Lookup(merged, path) == Lookup(merged.entries["filters"], rest);
      }
    }
    MergeLookup(merged, spec.configOverlay, path);
  }

  /** Inside its override and overlay a variant shows what they say: an overridden filter the override's value, unless
      the overlay speaks of it, and every leaf of the overlay itself. */
  lemma VariantShowsChanges(base: Value, spec: Spec, path: seq<string>)
    requires base.Dict? && spec.configOverlay.Dict?
    ensures
      |path| >= 2 && path[0] == "filters" && path[1] in spec.filterOverrides && Misses(spec.configOverlay, path) ==>
        Lookup(Variant(base, spec), path) == Lookup(spec.filterOverrides[path[1]], path[2..])
    ensures var shown := Lookup(spec.configOverlay, path);
      path != [] && shown.Some? && shown.value.Leaf? ==> Lookup(Variant(base, spec), path) == shown
  {
    var merged := WithFilters(base, spec.filterOverrides);
    MergeLookup(merged, spec.configOverlay, path);
    if |path| >= 2 && path[0] == "filters" && path[1] in spec.filterOverrides {
      var rest := path[1..];
      assert merged.entries["filters"].entries[path[1]] == spec.filterOverrides[path[1]];
      assert Lookup(merged, path) == Lookup(merged.entries["filters"], rest);
      assert rest[0] == path[1] && rest[1..] == path[2..];
    }
  }

  const RELAXABLE_FILTERS := {"session", "regime", "cooldown", "news"}

  /** The throughput variant turns off the four relaxable filters, over any base configuration. */
  lemma ThroughputVariantRelaxes(base: Value, f: string)
    requires base.Dict? && f in RELAXABLE_FILTERS
    ensures Lookup(Variant(base, EXPERIMENT_MATRIX[5]), ["filters", f]) == Some(Leaf("False"))
  {
    var path := ["filters", f];
    VariantShowsChanges(base, EXPERIMENT_MATRIX[5], path);
    assert path[2..] == [];
  }

  /** The New York variant lets its expansion sessions start at any hour, and leaves every filter as it is. */
  lemma NewYorkVariantAdjustsSessions(base: Value, f: string)
    requires base.Dict?
    ensures SESSION_MATRIX[2].configOverlay.Dict?
    ensures var v := Variant(base, SESSION_MATRIX[2]);
      && Lookup(v, ["regime_profiles", "expansion", "min_hour_utc"]) == Some(Leaf("0"))
      && Lookup(v, ["filters", f]) == Lookup(base, ["filters", f])
  {
    var spec, path := SESSION_MATRIX[2], ["regime_profiles", "expansion", "min_hour_utc"];
    VariantShowsChanges(base, spec, path);
    assert path[1..] == ["expansion", "min_hour_utc"] && path[1..][1..] == ["min_hour_utc"];
    assert path[1..][1..][1..] == [];
    VariantAgreesOutside(base, spec, ["filters", f]);
  }

  const HARD_RISK_FILTERS := {"position_limit", "daily_loss", "spread", "structure_h1_gate"}

  /** Every variant of both matrices keeps the hard risk filters of the base configuration, whatever that is. */
  lemma HardRiskStackKept(base: Value, spec: Spec, risk: string)
    requires base.Dict? && (spec in EXPERIMENT_MATRIX || spec in SESSION_MATRIX) && risk in HARD_RISK_FILTERS
    ensures spec.configOverlay.Dict?
    ensures Lookup(Variant(base, spec), ["filters", risk]) == Lookup(base, ["filters", risk])
  {
    RelaxableOnly(spec, risk);
    VariantAgreesOutside(base, spec, ["filters", risk]);
  }

  lemma RelaxableOnly(spec: Spec, risk: string)
    requires (spec in EXPERIMENT_MATRIX || spec in SESSION_MATRIX) && risk in HARD_RISK_FILTERS
    ensures spec.configOverlay.Dict? && Outside(spec, ["filters", risk])
  {
    assert spec.filterOverrides.Keys <= {"session", "regime", "cooldown", "news"};
    assert |"position_limit"| == 14 && |"daily_loss"| == 10 && |"structure_h1_gate"| == 17;
    assert |"session"| == 7 && |"regime"| == 6 && |"cooldown"| == 8 && |"news"| == 4;
    assert |"spread"| == 6 && "spread"[0] != "regime"[0];
    assert spec.configOverlay == NO_OVERLAY || "regime_profiles" in spec.configOverlay.entries;
    assert |"filters"| == 7 && |"regime_profiles"| == 15;
  }
}
