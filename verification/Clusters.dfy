/** Discovery clusters: grouping tiered variants by near-equal headline metrics, and the watchlist split. */
module Clusters {
  import opened Common
  import opened Sorting
  import opened Names
  import opened Numbers
  import Gate

  datatype Headline = Headline(trades: Option<real>, expectancy: Option<Num>, profitFactor: Option<Num>,
                               maxDd: Option<real>)

  datatype Row = Row(folder: string, tier: Option<Gate.Tier>, metrics: Headline)

  datatype Key = Key(tier: Gate.Tier, trades: int, expectancy: Option<Num>, profitFactor: Option<Num>,
                     maxDd: Option<real>)

  datatype Bucket = Bucket(key: Key, members: seq<string>)

  datatype Cluster = Cluster(tier: Gate.Tier, variants: seq<string>, metrics: Option<Headline>, preferred: string)

  /** The six-digit rounding, kept abstract, and the fixed display order of the variants. */
  datatype Setting = Setting(round6: real -> real, order: seq<string>)

  // ---------- Keys and members ----------

  function Truncate(x: real): int { if x >= 0.0 then x.Floor else -(-x).Floor }

  function Rounded(cfg: Setting, x: Option<Num>): Option<Num> {
    if x.Some? && x.value.Fin? then Some(Fin(cfg.round6(x.value.value))) else x
  }

  function KeyOf(cfg: Setting, tier: Gate.Tier, m: Headline): Key {
    Key(tier,
        if m.trades.Some? then Truncate(m.trades.value) else -1,
        Rounded(cfg, m.expectancy),
        Rounded(cfg, m.profitFactor),
        if m.maxDd.Some? then Some(cfg.round6(m.maxDd.value)) else None)
  }

  predicate Kept(r: Row) { r.tier.Some? && r.folder != "" }

  /** A key that holds NaN equals no other, not even itself: its bucket would stay with one folder for good. */
  predicate Comparable(m: Headline) { m.expectancy != Some(NaN) && m.profitFactor != Some(NaN) }

  predicate HasKey(cfg: Setting, r: Row, key: Key) {
    Kept(r) && Comparable(r.metrics) && KeyOf(cfg, r.tier.value, r.metrics) == key
  }

  /** Folders of the rows with the given key, in row order. */
  function Members(cfg: Setting, rows: seq<Row>, key: Key): seq<string> {
    if rows == [] then []
    else
      var r := rows[|rows| - 1];
      Members(cfg, rows[..|rows| - 1], key) + if HasKey(cfg, r, key) then [r.folder] else []
  }

  lemma {:induction false} MemberRows(cfg: Setting, rows: seq<Row>, key: Key, f: string)
    ensures f in Members(cfg, rows, key) <==> exists r :: r in rows && HasKey(cfg, r, key) && r.folder == f
  {
    if rows != [] {
      var init, last := rows[..|rows| - 1], rows[|rows| - 1];
      MemberRows(cfg, init, key, f);
      assert forall r :: r in rows <==> r in init || r == last;
    }
  }

  /** Metrics recorded for a folder: those of its last kept row. */
  function LastMetrics(rows: seq<Row>, f: string): Option<Headline> {
    if rows == [] then None
    else if Kept(rows[|rows| - 1]) && rows[|rows| - 1].folder == f then Some(rows[|rows| - 1].metrics)
    else LastMetrics(rows[..|rows| - 1], f)
  }

  /** When a folder is listed twice, its later row counts. */
  lemma {:induction false} LastMetricsIsLast(rows: seq<Row>, f: string)
    ensures var m := LastMetrics(rows, f);
      && (m.None? ==> forall i :: 0 <= i < |rows| && Kept(rows[i]) ==> rows[i].folder != f)
      && (m.Some? ==>
            exists i :: 0 <= i < |rows| && Kept(rows[i]) && rows[i].folder == f && rows[i].metrics == m.value &&
              forall j :: i < j < |rows| && Kept(rows[j]) ==> rows[j].folder != f)
  {
    if rows != [] && !(Kept(rows[|rows| - 1]) && rows[|rows| - 1].folder == f) {
      LastMetricsIsLast(rows[..|rows| - 1], f);
    }
  }

  // ---------- Preferred test ----------

  const VARIANT_CONFIG_DELTA_RANK: map<string, int> :=
    map["a1_session_relaxed" := 1, "a2_regime_relaxed" := 1, "a3_cooldown_relaxed" := 1,
        "a4_session_regime_relaxed" := 2, "a5_throughput_discovery" := 10,
        "b1_london_only_relaxed" := 1, "b2_ny_only_relaxed" := 1, "b3_overlap_relaxed" := 1,
        "b4_full_session_relaxed" := 1]

  function RankOf(v: string): int {
    if v in VARIANT_CONFIG_DELTA_RANK then VARIANT_CONFIG_DELTA_RANK[v] else 99
  }

  /** Position of the first occurrence of v, or 999 when it is not listed. */
  function OrderOf(order: seq<string>, v: string): int {
    if v !in order then 999 else FirstAt(order, v)
  }

  function FirstAt(order: seq<string>, v: string): (i: nat)
    requires v in order
    ensures i < |order| && order[i] == v && forall j :: 0 <= j < i ==> order[j] != v
  {
    if order[0] == v then 0 else 1 + FirstAt(order[1..], v)
  }

  predicate PrefLe(order: seq<string>, a: string, b: string) {
    RankOf(a) < RankOf(b) ||
    (RankOf(a) == RankOf(b) &&
      (OrderOf(order, a) < OrderOf(order, b) || (OrderOf(order, a) == OrderOf(order, b) && LexLe(a, b))))
  }

  lemma PrefOrder(order: seq<string>)
    ensures TotalPreorder((a, b) => PrefLe(order, a, b))
  {
    LexOrder();
  }

  function PreferredNextTest(variants: seq<string>, order: seq<string>): string
    requires variants != []
  {
    StableSort((a, b) => PrefLe(order, a, b), variants)[0]
  }

  /** The preferred test is one of the variants and the least by (rank, order, name). */
  lemma PreferredIsMinimum(variants: seq<string>, order: seq<string>)
    requires variants != []
    ensures var p := PreferredNextTest(variants, order);
      p in variants && forall v :: v in variants ==> PrefLe(order, p, v)
  {
    var le := (a, b) => PrefLe(order, a, b);
    PrefOrder(order);
    SortSorted(le, variants);
    var s := StableSort(le, variants);
    assert s[0] in multiset(variants);
    forall v | v in variants ensures PrefLe(order, s[0], v) {
      assert v in multiset(s);
      var i :| 0 <= i < |s| && s[i] == v;
      assert le(s[0], s[i]);
    }
  }

  /** The order, written out: the fewest changed settings, then the earliest in the display order, then the name. */
  lemma PreferredInWords(variants: seq<string>, order: seq<string>, v: string)
    requires v in variants
    ensures var p := PreferredNextTest(variants, order);
      && RankOf(p) <= RankOf(v)
      && (RankOf(p) == RankOf(v) ==> OrderOf(order, p) <= OrderOf(order, v))
      && (RankOf(p) == RankOf(v) && OrderOf(order, p) == OrderOf(order, v) ==> LexLe(p, v))
  {
    PreferredIsMinimum(variants, order);
  }

  /** One relaxed filter ranks before two, two before all, and these before an unknown variant. */
  lemma RanksOf(v: string)
    ensures RankOf("a1_session_relaxed") == 1 && RankOf("a4_session_regime_relaxed") == 2
    ensures RankOf("a5_throughput_discovery") == 10
    ensures v !in VARIANT_CONFIG_DELTA_RANK ==> RankOf(v) == 99
  {
  }

  // ---------- Buckets ----------

  function IndexOfKey(buckets: seq<Bucket>, key: Key): (i: nat)
    ensures i <= |buckets| && (i < |buckets| ==> buckets[i].key == key)
    ensures forall j :: 0 <= j < i ==> buckets[j].key != key
  {
    if buckets == [] || buckets[0].key == key then 0 else 1 + IndexOfKey(buckets[1..], key)
  }

  function AddTo(buckets: seq<Bucket>, key: Key, f: string): seq<Bucket> {
    var i := IndexOfKey(buckets, key);
    if i < |buckets| then buckets[i := Bucket(key, buckets[i].members + [f])] else buckets + [Bucket(key, [f])]
  }

  function Buckets(cfg: Setting, rows: seq<Row>): seq<Bucket> {
    if rows == [] then []
    else
      var b, r := Buckets(cfg, rows[..|rows| - 1]), rows[|rows| - 1];
      if Kept(r) && Comparable(r.metrics) then AddTo(b, KeyOf(cfg, r.tier.value, r.metrics), r.folder) else b
  }

  ghost predicate DistinctKeys(buckets: seq<Bucket>) {
    forall i, j :: 0 <= i < j < |buckets| ==> buckets[i].key != buckets[j].key
  }

  /** The buckets partition the kept rows by key. */
  lemma {:induction false} BucketsPartition(cfg: Setting, rows: seq<Row>)
    ensures var b := Buckets(cfg, rows);
      && DistinctKeys(b)
      && (forall i :: 0 <= i < |b| ==> b[i].members == Members(cfg, rows, b[i].key) != [])
      && (forall key :: Members(cfg, rows, key) != [] ==> IndexOfKey(b, key) < |b|)
  {
    if rows != [] {
      var init, r := rows[..|rows| - 1], rows[|rows| - 1];
      BucketsPartition(cfg, init);
      if Kept(r) && Comparable(r.metrics) {
        var b, key := Buckets(cfg, init), KeyOf(cfg, r.tier.value, r.metrics);
        var b' := AddTo(b, key, r.folder);
        var at := IndexOfKey(b, key);
        assert at < |b| ==> b[at].members == Members(cfg, init, key) != [];
        forall k | Members(cfg, rows, k) != [] ensures IndexOfKey(b', k) < |b'| {
          var i := IndexOfKey(b, k);
          assert k != key ==> i < |b|;
          assert b'[if i < |b| then i else |b|].key == k;
        }
      }
    }
  }

  /** At least two different folders. */
  predicate IsBig(b: Bucket) { |SortedNames(b.members)| >= 2 }

  function ClusterOf(cfg: Setting, rows: seq<Row>, b: Bucket): Cluster
    requires IsBig(b)
  {
    var uniq := SortedNames(b.members);
    var pref := PreferredNextTest(uniq, cfg.order);
    Cluster(b.key.tier, uniq, LastMetrics(rows, pref), pref)
  }

  /** The bucket a key has in the end. */
  function BucketFor(cfg: Setting, rows: seq<Row>, k: Key): Bucket { Bucket(k, Members(cfg, rows, k)) }

  function TierRank(t: Gate.Tier): nat { if t.RelaxCandidate? then 0 else 1 }

  predicate ClusterLe(a: Cluster, b: Cluster) {
    TierRank(a.tier) < TierRank(b.tier) || (TierRank(a.tier) == TierRank(b.tier) && LexLe(a.preferred, b.preferred))
  }

  lemma ClusterOrder()
    ensures TotalPreorder(ClusterLe)
  {
    LexOrder();
  }

  // ---------- The cluster list ----------

  /** The clusters of the big buckets, in bucket order. */
  function Collected(cfg: Setting, rows: seq<Row>, buckets: seq<Bucket>): seq<Cluster> {
    if buckets == [] then []
    else
      var b := buckets[|buckets| - 1];
      Collected(cfg, rows, buckets[..|buckets| - 1]) + if IsBig(b) then [ClusterOf(cfg, rows, b)] else []
  }

  function Unsorted(cfg: Setting, rows: seq<Row>): seq<Cluster> { Collected(cfg, rows, Buckets(cfg, rows)) }

  function Build(cfg: Setting, rows: seq<Row>): seq<Cluster> { StableSort(ClusterLe, Unsorted(cfg, rows)) }

  lemma {:induction false} CollectedFrom(cfg: Setting, rows: seq<Row>, buckets: seq<Bucket>, c: Cluster)
    ensures c in Collected(cfg, rows, buckets) <==>
      exists b :: b in buckets && IsBig(b) && c == ClusterOf(cfg, rows, b)
  {
    if buckets != [] {
      var init, last := buckets[..|buckets| - 1], buckets[|buckets| - 1];
      CollectedFrom(cfg, rows, init, c);
      assert forall b :: b in buckets <==> b in init || b == last;
    }
  }

  lemma AllBuckets(cfg: Setting, rows: seq<Row>)
    ensures forall b :: b in Buckets(cfg, rows) ==> b == BucketFor(cfg, rows, b.key)
  {
    BucketsPartition(cfg, rows);
  }

  /** Every listed cluster comes from a key shared by two folders, and every such key is listed. */
  lemma ClusterKey(cfg: Setting, rows: seq<Row>, c: Cluster) returns (k: Key)
    requires c in Unsorted(cfg, rows)
    ensures IsBig(BucketFor(cfg, rows, k)) && c == ClusterOf(cfg, rows, BucketFor(cfg, rows, k))
  {
    AllBuckets(cfg, rows);
    CollectedFrom(cfg, rows, Buckets(cfg, rows), c);
    var b :| b in Buckets(cfg, rows) && IsBig(b) && c == ClusterOf(cfg, rows, b);
    k := b.key;
    assert b == BucketFor(cfg, rows, k);
  }

  lemma KeyCluster(cfg: Setting, rows: seq<Row>, k: Key)
    requires IsBig(BucketFor(cfg, rows, k))
    ensures ClusterOf(cfg, rows, BucketFor(cfg, rows, k)) in Unsorted(cfg, rows)
  {
    var buckets, b := Buckets(cfg, rows), BucketFor(cfg, rows, k);
    BucketsPartition(cfg, rows);
    assert SortedNames(b.members)[0] in b.members;
    var i := IndexOfKey(buckets, k);
    assert buckets[i] == b;
    CollectedFrom(cfg, rows, buckets, ClusterOf(cfg, rows, b));
  }

  lemma BuildElements(cfg: Setting, rows: seq<Row>, c: Cluster)
    ensures c in Build(cfg, rows) <==> c in Unsorted(cfg, rows)
  {
    assert c in multiset(Build(cfg, rows)) <==> c in multiset(Unsorted(cfg, rows));
  }

  /** The second loop of the source. */
  method CollectClusters(cfg: Setting, ghost rows: seq<Row>, buckets: seq<Bucket>, metricsByVf: map<string, Headline>)
    returns (out: seq<Cluster>)
    requires forall f :: LastMetrics(rows, f) == if f in metricsByVf then Some(metricsByVf[f]) else None
    ensures out == Collected(cfg, rows, buckets)
  {
    out := [];
    for i := 0 to |buckets|
      invariant out == Collected(cfg, rows, buckets[..i])
    {
      assert buckets[..i + 1][..i] == buckets[..i];
      var uniq := SortedNames(buckets[i].members);
      if |uniq| >= 2 {
        var pref := PreferredNextTest(uniq, cfg.order);
        var rep := if pref in metricsByVf then Some(metricsByVf[pref]) else None;
        assert ClusterOf(cfg, rows, buckets[i]) == Cluster(buckets[i].key.tier, uniq, rep, pref);
        out := out + [Cluster(buckets[i].key.tier, uniq, rep, pref)];
      }
    }
    assert buckets[..|buckets|] == buckets;
  }

  /** Fills the buckets row by row, turns the big ones into clusters and sorts these. */
  method BuildDiscoveryClusters(cfg: Setting, rows: seq<Row>) returns (out: seq<Cluster>)
    ensures out == Build(cfg, rows)
  {
    var buckets: seq<Bucket>, metricsByVf: map<string, Headline> := [], map[];
    for i := 0 to |rows|
      invariant buckets == Buckets(cfg, rows[..i])
      invariant forall f :: LastMetrics(rows[..i], f) == if f in metricsByVf then Some(metricsByVf[f]) else None
    {
      var r := rows[i];
      assert rows[..i + 1][..i] == rows[..i];
      if Kept(r) {
        if Comparable(r.metrics) { buckets := AddTo(buckets, KeyOf(cfg, r.tier.value, r.metrics), r.folder); }
        metricsByVf := metricsByVf[r.folder := r.metrics];
      }
    }
    assert rows[..|rows|] == rows;
    out := CollectClusters(cfg, rows, buckets, metricsByVf);
    out := StableSort(ClusterLe, out);
  }

  // ---------- Canonical clusters ----------

  /** No folder is listed twice among the kept rows. */
  ghost predicate DistinctFolders(rows: seq<Row>) {
    forall i, j :: 0 <= i < j < |rows| && Kept(rows[i]) && Kept(rows[j]) ==> rows[i].folder != rows[j].folder
  }

  /** With distinct folders a variant belongs to one key only. */
  lemma MembersDisjoint(cfg: Setting, rows: seq<Row>, k: Key, l: Key, f: string)
    requires DistinctFolders(rows) && f in Members(cfg, rows, k) && f in Members(cfg, rows, l)
    ensures k == l
  {
    MemberRows(cfg, rows, k, f);
    MemberRows(cfg, rows, l, f);
    var r :| r in rows && HasKey(cfg, r, k) && r.folder == f;
    var s :| s in rows && HasKey(cfg, s, l) && s.folder == f;
    var i :| 0 <= i < |rows| && rows[i] == r;
    var j :| 0 <= j < |rows| && rows[j] == s;
    assert i == j;
  }

  lemma {:induction false} LastMetricsIs(rows: seq<Row>, i: nat)
    requires DistinctFolders(rows) && i < |rows| && Kept(rows[i])
    ensures LastMetrics(rows, rows[i].folder) == Some(rows[i].metrics)
  {
    if i < |rows| - 1 {
      LastMetricsIs(rows[..|rows| - 1], i);
    }
  }

  lemma ClusterVariants(cfg: Setting, rows: seq<Row>, b: Bucket)
    requires IsBig(b)
    ensures var c := ClusterOf(cfg, rows, b);
      c.preferred in c.variants && forall v :: v in c.variants <==> v in b.members
  {
    PreferredIsMinimum(SortedNames(b.members), cfg.order);
  }

  /** No folder appears in two clusters of the list. */
  ghost predicate Apart(cs: seq<Cluster>) {
    forall i, j :: 0 <= i < j < |cs| ==> NoShared(cs[i], cs[j])
  }

  ghost predicate NoShared(c: Cluster, e: Cluster) { forall v :: v in c.variants ==> v !in e.variants }

  lemma BucketsShareNothing(cfg: Setting, rows: seq<Row>, b: Bucket, d: Bucket)
    requires DistinctFolders(rows) && IsBig(b) && IsBig(d) && b.key != d.key
    requires b == BucketFor(cfg, rows, b.key) && d == BucketFor(cfg, rows, d.key)
    ensures Unrelated(ClusterOf(cfg, rows, b), ClusterOf(cfg, rows, d))
  {
    var c, e := ClusterOf(cfg, rows, b), ClusterOf(cfg, rows, d);
    ClusterVariants(cfg, rows, b);
    ClusterVariants(cfg, rows, d);
    forall v | v in c.variants ensures v !in e.variants {
      if v in d.members { MembersDisjoint(cfg, rows, b.key, d.key, v); }
    }
    LexTotal(c.preferred, e.preferred);
  }

  ghost predicate Unrelated(c: Cluster, e: Cluster) { c != e && !Same(ClusterLe, c, e) && NoShared(c, e) }

  ghost predicate AllUnrelated(cs: seq<Cluster>) { forall i, j :: 0 <= i < j < |cs| ==> Unrelated(cs[i], cs[j]) }

  /** Clusters of different buckets never share a variant, so their sort keys never tie. */
  lemma {:induction false} CollectedApart(cfg: Setting, rows: seq<Row>, buckets: seq<Bucket>)
    requires DistinctFolders(rows) && DistinctKeys(buckets)
    requires forall b :: b in buckets ==> b == BucketFor(cfg, rows, b.key)
    ensures AllUnrelated(Collected(cfg, rows, buckets))
  {
    if buckets != [] {
      var init, last := buckets[..|buckets| - 1], buckets[|buckets| - 1];
      CollectedApart(cfg, rows, init);
      if IsBig(last) {
        var cs, e := Collected(cfg, rows, init), ClusterOf(cfg, rows, last);
        forall i | 0 <= i < |cs| ensures Unrelated(cs[i], e) {
          EarlierUnrelated(cfg, rows, init, last, cs[i]);
        }
        AppendUnrelated(cs, e);
      }
    }
  }

  lemma AppendUnrelated(cs: seq<Cluster>, e: Cluster)
    requires AllUnrelated(cs) && forall i :: 0 <= i < |cs| ==> Unrelated(cs[i], e)
    ensures AllUnrelated(cs + [e])
  {
  }

  lemma EarlierUnrelated(cfg: Setting, rows: seq<Row>, init: seq<Bucket>, last: Bucket, c: Cluster)
    requires DistinctFolders(rows) && IsBig(last) && last == BucketFor(cfg, rows, last.key)
    requires forall b :: b in init ==> b == BucketFor(cfg, rows, b.key) && b.key != last.key
    requires c in Collected(cfg, rows, init)
    ensures Unrelated(c, ClusterOf(cfg, rows, last))
  {
    CollectedFrom(cfg, rows, init, c);
    var b :| b in init && IsBig(b) && c == ClusterOf(cfg, rows, b);
    BucketsShareNothing(cfg, rows, b, last);
  }

  lemma ClustersApart(cfg: Setting, rows: seq<Row>)
    requires DistinctFolders(rows)
    ensures var cs := Unsorted(cfg, rows); NoTies(ClusterLe, cs) && NoRepeats(cs) && Apart(cs)
  {
    BucketsPartition(cfg, rows);
    AllBuckets(cfg, rows);
    CollectedApart(cfg, rows, Buckets(cfg, rows));
  }

  lemma MembersIgnoreOrder(cfg: Setting, a: seq<Row>, b: seq<Row>, k: Key)
    requires multiset(a) == multiset(b)
    ensures SortedNames(Members(cfg, a, k)) == SortedNames(Members(cfg, b, k))
  {
    forall f ensures f in Members(cfg, a, k) <==> f in Members(cfg, b, k) {
      MemberRows(cfg, a, k, f);
      MemberRows(cfg, b, k, f);
      assert forall r :: r in a <==> r in multiset(a);
      assert forall r :: r in b <==> r in multiset(b);
    }
    SortedNamesCanonical(Members(cfg, a, k), Members(cfg, b, k));
  }

  lemma ClusterIgnoresOrder(cfg: Setting, a: seq<Row>, b: seq<Row>, k: Key)
    requires multiset(a) == multiset(b) && DistinctFolders(a) && DistinctFolders(b) && IsBig(BucketFor(cfg, a, k))
    ensures IsBig(BucketFor(cfg, b, k))
    ensures ClusterOf(cfg, a, BucketFor(cfg, a, k)) == ClusterOf(cfg, b, BucketFor(cfg, b, k))
  {
    MembersIgnoreOrder(cfg, a, b, k);
    ClusterVariants(cfg, a, BucketFor(cfg, a, k));
    MetricsIgnoreOrder(cfg, a, b, k, ClusterOf(cfg, a, BucketFor(cfg, a, k)).preferred);
  }

  lemma MetricsIgnoreOrder(cfg: Setting, a: seq<Row>, b: seq<Row>, k: Key, p: string)
    requires multiset(a) == multiset(b) && DistinctFolders(a) && DistinctFolders(b) && p in Members(cfg, a, k)
    ensures LastMetrics(a, p) == LastMetrics(b, p)
  {
    MemberRows(cfg, a, k, p);
    var r :| r in a && HasKey(cfg, r, k) && r.folder == p;
    var i :| 0 <= i < |a| && a[i] == r;
    assert r in multiset(b);
    var j :| 0 <= j < |b| && b[j] == r;
    LastMetricsIs(a, i);
    LastMetricsIs(b, j);
  }

  lemma UnsortedSubset(cfg: Setting, a: seq<Row>, b: seq<Row>, c: Cluster)
    requires multiset(a) == multiset(b) && DistinctFolders(a) && DistinctFolders(b) && c in Unsorted(cfg, a)
    ensures c in Unsorted(cfg, b)
  {
    var k := ClusterKey(cfg, a, c);
    ClusterIgnoresOrder(cfg, a, b, k);
    KeyCluster(cfg, b, k);
  }

  /** With distinct folders the cluster list does not depend on the order of the rows. */
  lemma ClustersCanonical(cfg: Setting, a: seq<Row>, b: seq<Row>)
    requires multiset(a) == multiset(b) && DistinctFolders(a) && DistinctFolders(b)
    ensures Build(cfg, a) == Build(cfg, b)
  {
    ClustersApart(cfg, a);
    ClustersApart(cfg, b);
    forall c ensures c in Unsorted(cfg, a) <==> c in Unsorted(cfg, b) {
      if c in Unsorted(cfg, a) { UnsortedSubset(cfg, a, b, c); }
      if c in Unsorted(cfg, b) { UnsortedSubset(cfg, b, a, c); }
    }
    SameElements(Unsorted(cfg, a), Unsorted(cfg, b));
    ClusterOrder();
    SortIgnoresOrder(ClusterLe, Unsorted(cfg, a), Unsorted(cfg, b));
  }

  /** Every cluster has at least two variants, and its preferred test is the least of them. */
  lemma ClusterShape(cfg: Setting, rows: seq<Row>, c: Cluster)
    requires c in Build(cfg, rows)
    ensures |c.variants| >= 2 && NoRepeats(c.variants) && c.preferred in c.variants
    ensures forall v :: v in c.variants ==> PrefLe(cfg.order, c.preferred, v)
  {
    BuildElements(cfg, rows, c);
    var k := ClusterKey(cfg, rows, c);
    PreferredIsMinimum(c.variants, cfg.order);
    SortedNamesDistinct(Members(cfg, rows, k));
  }

  /** The list goes by tier, relax candidates first, and then by the name of the preferred test. */
  lemma ClusterListSorted(cfg: Setting, rows: seq<Row>, i: nat, j: nat)
    requires i < j < |Build(cfg, rows)|
    ensures var c, e := Build(cfg, rows)[i], Build(cfg, rows)[j];
      (c.tier.RelaxCandidate? && e.tier.Watchlist?) || (c.tier == e.tier && LexLe(c.preferred, e.preferred))
  {
    ClusterOrder();
    SortSorted(ClusterLe, Unsorted(cfg, rows));
  }

  /** A cluster shows the metrics of its preferred test. */
  lemma ClusterShowsPreferred(cfg: Setting, rows: seq<Row>, c: Cluster, r: Row)
    requires DistinctFolders(rows) && c in Build(cfg, rows) && r in rows && Kept(r) && r.folder == c.preferred
    ensures c.metrics == Some(r.metrics)
  {
    BuildElements(cfg, rows, c);
    var k := ClusterKey(cfg, rows, c);
    var i :| 0 <= i < |rows| && rows[i] == r;
    LastMetricsIs(rows, i);
  }

  // ---------- Which variants share a cluster ----------

  /** Cutting a number off towards zero. */
  lemma TruncateIs(x: real)
    ensures var t := Truncate(x) as real;
      if x >= 0.0 then t <= x < t + 1.0 else t - 1.0 < x <= t
  {
  }

  /** Two figures agree: neither is given, both are the same infinity, or both round alike. */
  predicate Agree(cfg: Setting, x: Option<Num>, y: Option<Num>) {
    if x.None? || y.None? then x.None? && y.None?
    else if x.value.Fin? && y.value.Fin? then cfg.round6(x.value.value) == cfg.round6(y.value.value)
    else x == y
  }

  /** Near-equal headlines: as many whole trades, a missing number standing for -1, and three figures that agree. */
  predicate NearEqual(cfg: Setting, m: Headline, n: Headline) {
    (if m.trades.Some? then Truncate(m.trades.value) else -1)
      == (if n.trades.Some? then Truncate(n.trades.value) else -1) &&
    Agree(cfg, m.expectancy, n.expectancy) && Agree(cfg, m.profitFactor, n.profitFactor) &&
    (m.maxDd.Some? <==> n.maxDd.Some?) &&
    (m.maxDd.Some? && n.maxDd.Some? ==> cfg.round6(m.maxDd.value) == cfg.round6(n.maxDd.value))
  }

  lemma SameKeyMeans(cfg: Setting, r: Row, s: Row)
    requires Kept(r) && Kept(s)
    ensures KeyOf(cfg, r.tier.value, r.metrics) == KeyOf(cfg, s.tier.value, s.metrics)
      <==> r.tier == s.tier && NearEqual(cfg, r.metrics, s.metrics)
  {
  }

  ghost predicate Together(clusters: seq<Cluster>, f: string, g: string) {
    exists c :: c in clusters && f in c.variants && g in c.variants
  }

  /** With distinct folders, two different variants share a cluster exactly when they have the same tier and near-equal
      headlines, neither of them with a NaN. */
  lemma TogetherExactly(cfg: Setting, rows: seq<Row>, r: Row, s: Row)
    requires DistinctFolders(rows) && r in rows && s in rows && Kept(r) && Kept(s) && r.folder != s.folder
    ensures Together(Build(cfg, rows), r.folder, s.folder)
      <==> r.tier == s.tier && NearEqual(cfg, r.metrics, s.metrics) && Comparable(r.metrics) && Comparable(s.metrics)
  {
    SameKeyMeans(cfg, r, s);
    if Together(Build(cfg, rows), r.folder, s.folder) {
      var c :| c in Build(cfg, rows) && r.folder in c.variants && s.folder in c.variants;
      BuildElements(cfg, rows, c);
      var k := ClusterKey(cfg, rows, c);
      ClusterVariants(cfg, rows, BucketFor(cfg, rows, k));
      MemberHasKey(cfg, rows, r, k);
      MemberHasKey(cfg, rows, s, k);
    }
    if Comparable(r.metrics) && Comparable(s.metrics) && r.tier == s.tier && NearEqual(cfg, r.metrics, s.metrics) {
      SharedKeyClusters(cfg, rows, r, s);
    }
  }

  /** A folder listed under a key is that of a row with the key. */
  lemma MemberHasKey(cfg: Setting, rows: seq<Row>, r: Row, k: Key)
    requires DistinctFolders(rows) && r in rows && Kept(r) && r.folder in Members(cfg, rows, k)
    ensures HasKey(cfg, r, k)
  {
    MemberRows(cfg, rows, k, r.folder);
    var s :| s in rows && HasKey(cfg, s, k) && s.folder == r.folder;
    var i :| 0 <= i < |rows| && rows[i] == r;
    var j :| 0 <= j < |rows| && rows[j] == s;
    assert i == j;
  }

  lemma SharedKeyClusters(cfg: Setting, rows: seq<Row>, r: Row, s: Row)
    requires r in rows && s in rows && Kept(r) && r.folder != s.folder
    requires HasKey(cfg, r, KeyOf(cfg, r.tier.value, r.metrics)) && HasKey(cfg, s, KeyOf(cfg, r.tier.value, r.metrics))
    ensures Together(Build(cfg, rows), r.folder, s.folder)
  {
    var k := KeyOf(cfg, r.tier.value, r.metrics);
    var b := BucketFor(cfg, rows, k);
    MemberRows(cfg, rows, k, r.folder);
    MemberRows(cfg, rows, k, s.folder);
    TwoNames(SortedNames(b.members), r.folder, s.folder);
    KeyCluster(cfg, rows, k);
    BuildElements(cfg, rows, ClusterOf(cfg, rows, b));
    ClusterVariants(cfg, rows, b);
  }

  lemma TwoNames(names: seq<string>, f: string, g: string)
    requires f in names && g in names && f != g
    ensures |names| >= 2
  {
    var i :| 0 <= i < |names| && names[i] == f;
    var j :| 0 <= j < |names| && names[j] == g;
    assert i != j;
  }

  // ---------- The watchlist split ----------

  /** Variants of all watchlist clusters. */
  function ClusteredWatch(clusters: seq<Cluster>): set<string> {
    if clusters == [] then {}
    else
      var c := clusters[|clusters| - 1];
      ClusteredWatch(clusters[..|clusters| - 1]) +
      if |c.variants| >= 2 && c.tier.Watchlist? then (set v | v in c.variants) else {}
  }

  lemma {:induction false} ClusteredWatchIs(clusters: seq<Cluster>, v: string)
    ensures v in ClusteredWatch(clusters) <==>
      exists c :: c in clusters && |c.variants| >= 2 && c.tier.Watchlist? && v in c.variants
  {
    if clusters != [] {
      var init, last := clusters[..|clusters| - 1], clusters[|clusters| - 1];
      ClusteredWatchIs(init, v);
      assert forall c :: c in clusters <==> c in init || c == last;
    }
  }

  /** Names listed one by one in the report, sorted: watchlist variants that are in no watchlist cluster.
      `watchlist` holds the keys of a dictionary. */
  method UnclusteredWatchlist(watchlist: seq<string>, clusters: seq<Cluster>) returns (shown: seq<string>)
    requires NoRepeats(watchlist)
    ensures forall v :: v in shown <==> v in watchlist && v !in ClusteredWatch(clusters)
    ensures NoRepeats(shown) && Sorted(LexLe, shown)
  {
    var watch: set<string> := {};
    for i := 0 to |clusters|
      invariant watch == ClusteredWatch(clusters[..i])
    {
      assert clusters[..i + 1][..i] == clusters[..i];
      var c := clusters[i];
      if |c.variants| >= 2 && c.tier.Watchlist? {
        watch := watch + (set v | v in c.variants);
      }
    }
    assert clusters[..|clusters|] == clusters;
    var kept: seq<string> := [];
    for i := 0 to |watchlist|
      invariant NoRepeats(kept)
      invariant forall v :: v in kept <==> v in watchlist[..i] && v !in watch
    {
      assert watchlist[i] !in watchlist[..i];
      if watchlist[i] !in watch { kept := kept + [watchlist[i]]; }
    }
    assert watchlist[..|watchlist|] == watchlist;
    shown := StableSort(LexLe, kept);
    SortedListing(kept);
  }

  lemma SortedListing(names: seq<string>)
    requires NoRepeats(names)
    ensures var r := StableSort(LexLe, names);
      NoRepeats(r) && Sorted(LexLe, r) && forall v :: v in r <==> v in names
  {
    var r := StableSort(LexLe, names);
    LexOrder();
    SortSorted(LexLe, names);
    PermutationNoRepeats(names, r);
    assert forall v :: v in r <==> v in multiset(r);
    assert forall v :: v in names <==> v in multiset(names);
  }

  /** A cluster that contains a row's folder has the row's tier. */
  lemma ClusterTier(cfg: Setting, rows: seq<Row>, r: Row, c: Cluster)
    requires DistinctFolders(rows) && r in rows && Kept(r) && c in Build(cfg, rows) && r.folder in c.variants
    ensures c.tier == r.tier.value
  {
    BuildElements(cfg, rows, c);
    var k := ClusterKey(cfg, rows, c);
    ClusterVariants(cfg, rows, BucketFor(cfg, rows, k));
    MemberHasKey(cfg, rows, r, k);
  }

  /** Sorting keeps clusters apart. */
  lemma SortedApart(us: seq<Cluster>)
    requires NoRepeats(us) && Apart(us)
    ensures Apart(StableSort(ClusterLe, us))
  {
    var cs := StableSort(ClusterLe, us);
    PermutationNoRepeats(us, cs);
    forall i, j | 0 <= i < j < |cs| ensures NoShared(cs[i], cs[j]) {
      assert cs[i] in multiset(us) && cs[j] in multiset(us);
      var a :| 0 <= a < |us| && us[a] == cs[i];
      var b :| 0 <= b < |us| && us[b] == cs[j];
      assert if a < b then NoShared(us[a], us[b]) else NoShared(us[b], us[a]);
    }
  }

  lemma EachVariantInOneCluster(cfg: Setting, rows: seq<Row>)
    requires DistinctFolders(rows)
    ensures Apart(Build(cfg, rows))
  {
    ClustersApart(cfg, rows);
    SortedApart(Unsorted(cfg, rows));
  }

  /** A watchlist variant that the report does not list by itself lies in a cluster of the report, and the other
      way round; with EachVariantInOneCluster, it is shown exactly once. */
  lemma WatchlistShownOnce(cfg: Setting, rows: seq<Row>, r: Row)
    requires DistinctFolders(rows) && r in rows && Kept(r) && r.tier == Some(Gate.Watchlist)
    ensures r.folder in ClusteredWatch(Build(cfg, rows)) <==>
      exists c :: c in Build(cfg, rows) && r.folder in c.variants
  {
    var cs := Build(cfg, rows);
    ClusteredWatchIs(cs, r.folder);
    forall c | c in cs && r.folder in c.variants ensures c.tier.Watchlist? && |c.variants| >= 2 {
      ClusterShape(cfg, rows, c);
      ClusterTier(cfg, rows, r, c);
    }
  }

  // ---------- From the comparison table to the report ----------

  datatype TableRow = TableRow(folder: string, row: Gate.Row)

  /** What every row of the table is compared with. */
  datatype Baseline = Baseline(folder: string, row: Gate.Row, trades: real, maxWorsenRatio: real)

  function TierOf(t: TableRow, base: Baseline): Option<Gate.Tier> {
    if t.folder == "" || t.folder == base.folder then None
    else Gate.ClassifyTier(t.row, base.row, base.trades, base.maxWorsenRatio)
  }

  function TieredRow(t: TableRow, tier: Gate.Tier): Row {
    Row(t.folder, Some(tier), Headline(t.row.trades, t.row.expectancy, t.row.profitFactor, t.row.maxDd))
  }

  function TieredRows(table: seq<TableRow>, base: Baseline): seq<Row> {
    if table == [] then []
    else
      var t := table[|table| - 1];
      TieredRows(table[..|table| - 1], base)
      + if TierOf(t, base).Some? then [TieredRow(t, TierOf(t, base).value)] else []
  }

  ghost predicate OnWatchlist(tiered: seq<Row>, f: string) {
    exists r :: r in tiered && r.folder == f && r.tier == Some(Gate.Watchlist)
  }

  /** The tiering loop: rows with a tier, and the names that get a watchlist line, in order of insertion. */
  method BuildTieredRows(table: seq<TableRow>, base: Baseline) returns (tiered: seq<Row>, watchlist: seq<string>)
    ensures tiered == TieredRows(table, base)
    ensures NoRepeats(watchlist) && forall f :: f in watchlist <==> OnWatchlist(tiered, f)
  {
    tiered, watchlist := [], [];
    for i := 0 to |table|
      invariant tiered == TieredRows(table[..i], base)
      invariant NoRepeats(watchlist) && forall f :: f in watchlist <==> OnWatchlist(tiered, f)
    {
      assert table[..i + 1][..i] == table[..i];
      var t := table[i];
      if t.folder == "" || t.folder == base.folder { continue; }
      var tier := Gate.ClassifyTier(t.row, base.row, base.trades, base.maxWorsenRatio);
      if tier.Some? {
        var added := Row(t.folder, tier, Headline(t.row.trades, t.row.expectancy, t.row.profitFactor, t.row.maxDd));
        OneMoreRow(tiered, added);
        tiered := tiered + [added];
        if tier.value.Watchlist? && t.folder !in watchlist { watchlist := watchlist + [t.folder]; }
      }
    }
    assert table[..|table|] == table;
  }

  lemma OneMoreRow(tiered: seq<Row>, added: Row)
    ensures forall f ::
      OnWatchlist(tiered + [added], f) <==>
      OnWatchlist(tiered, f) || (f == added.folder && added.tier == Some(Gate.Watchlist))
  {
    assert forall r :: r in tiered + [added] <==> r in tiered || r == added;
  }

  lemma {:induction false} TieredFrom(table: seq<TableRow>, base: Baseline, r: Row)
    ensures r in TieredRows(table, base) <==>
      exists t :: t in table && TierOf(t, base).Some? && r == TieredRow(t, TierOf(t, base).value)
  {
    if table != [] {
      var init, last := table[..|table| - 1], table[|table| - 1];
      TieredFrom(init, base, r);
      assert forall t :: t in table <==> t in init || t == last;
    }
  }

  /** Written out: the rows are those of the named variants other than the baseline that some tier takes, with their
      tier and their four figures. */
  lemma TieredRowsAre(table: seq<TableRow>, base: Baseline, r: Row)
    ensures r in TieredRows(table, base) <==>
      exists t :: t in table && t.folder != "" && t.folder != base.folder &&
        var tier := Gate.ClassifyTier(t.row, base.row, base.trades, base.maxWorsenRatio);
        tier.Some? && r.folder == t.folder && r.tier == tier &&
        r.metrics.trades == t.row.trades && r.metrics.expectancy == t.row.expectancy &&
        r.metrics.profitFactor == t.row.profitFactor && r.metrics.maxDd == t.row.maxDd
  {
    TieredFrom(table, base, r);
  }

  ghost predicate DistinctTable(table: seq<TableRow>) {
    forall i, j :: 0 <= i < j < |table| ==> table[i].folder != table[j].folder
  }

  lemma {:induction false} TieredDistinct(table: seq<TableRow>, base: Baseline)
    requires DistinctTable(table)
    ensures DistinctFolders(TieredRows(table, base))
  {
    if table != [] {
      var init, last := table[..|table| - 1], table[|table| - 1];
      var rows := TieredRows(init, base);
      TieredDistinct(init, base);
      forall i | 0 <= i < |rows| ensures rows[i].folder != last.folder {
        TieredFrom(init, base, rows[i]);
        var t :| t in init && TierOf(t, base).Some? && rows[i] == TieredRow(t, TierOf(t, base).value);
        var k :| 0 <= k < |init| && init[k] == t;
        assert table[k].folder != table[|table| - 1].folder;
      }
    }
  }

  /** The variant of this row lies in one of the clusters. */
  ghost predicate InCluster(clusters: seq<Cluster>, f: string) { exists c :: c in clusters && f in c.variants }

  lemma WatchlistVariant(cfg: Setting, table: seq<TableRow>, base: Baseline, t: TableRow)
    requires DistinctTable(table) && t in table && TierOf(t, base) == Some(Gate.Watchlist)
    ensures var rows := TieredRows(table, base);
      && OnWatchlist(rows, t.folder)
      && (t.folder in ClusteredWatch(Build(cfg, rows)) <==> InCluster(Build(cfg, rows), t.folder))
  {
    var rows := TieredRows(table, base);
    TieredDistinct(table, base);
    TieredFrom(table, base, TieredRow(t, Gate.Watchlist));
    WatchlistShownOnce(cfg, rows, TieredRow(t, Gate.Watchlist));
  }

  lemma ListedVariant(table: seq<TableRow>, base: Baseline, f: string)
    requires OnWatchlist(TieredRows(table, base), f)
    ensures exists t :: t in table && t.folder == f && TierOf(t, base) == Some(Gate.Watchlist)
  {
    var r :| r in TieredRows(table, base) && r.folder == f && r.tier == Some(Gate.Watchlist);
    TieredFrom(table, base, r);
  }

  /** From the table to the report. With distinct folders every variant classified as watchlist is shown exactly once:
      it is named by itself, or it is a member of one cluster; never both, never neither, and never in two. */
  method ReportWatchlist(cfg: Setting, table: seq<TableRow>, base: Baseline)
    returns (clusters: seq<Cluster>, shown: seq<string>)
    ensures clusters == Build(cfg, TieredRows(table, base))
    ensures NoRepeats(shown) && Sorted(LexLe, shown)
    ensures forall f :: f in shown ==>
      exists t :: t in table && t.folder == f && TierOf(t, base) == Some(Gate.Watchlist)
    ensures DistinctTable(table) ==> Apart(clusters)
    ensures DistinctTable(table) ==>
      forall t :: t in table && TierOf(t, base) == Some(Gate.Watchlist) ==>
        (t.folder in shown <==> !InCluster(clusters, t.folder))
  {
    var tiered, watchlist := BuildTieredRows(table, base);
    clusters := BuildDiscoveryClusters(cfg, tiered);
    shown := UnclusteredWatchlist(watchlist, clusters);
    forall f | f in shown ensures exists t :: t in table && t.folder == f && TierOf(t, base) == Some(Gate.Watchlist) {
      ListedVariant(table, base, f);
    }
    if DistinctTable(table) {
      TieredDistinct(table, base);
      EachVariantInOneCluster(cfg, tiered);
      forall t | t in table && TierOf(t, base) == Some(Gate.Watchlist)
        ensures t.folder in shown <==> !InCluster(clusters, t.folder)
      {
        WatchlistVariant(cfg, table, base, t);
      }
    }
  }
}
