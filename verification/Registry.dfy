/** The experiment and edge registries: keyed record lists with generated ids. */
module Registry {
  import opened Common

  datatype Record = Record(id: Option<string>, fields: map<string, string>)

  // ---------- Generated ids ----------

  predicate IsDigit(c: char) { '0' <= c <= '9' }

  predicate AllDigits(s: string) { forall i :: 0 <= i < |s| ==> IsDigit(s[i]) }

  function Digit(d: nat): char
    requires d < 10
  {
    '0' + d as char
  }

  function Decimal(n: nat): string {
    if n < 10 then [Digit(n)] else Decimal(n / 10) + [Digit(n % 10)]
  }

  /** Left-pads with zeros to at least three digits. */
  function Pad3(s: string): string
    decreases 3 - |s|
  {
    if |s| >= 3 then s else Pad3("0" + s)
  }

  function ValueOf(s: string): nat
    requires AllDigits(s)
  {
    if s == [] then 0 else 10 * ValueOf(s[..|s| - 1]) + (s[|s| - 1] - '0') as nat
  }

  function PrintId(prefix: string, n: nat): string { prefix + "-" + Pad3(Decimal(n)) }

  /** The pattern prefix-(\d+)$, whose end anchor also allows one final newline. */
  function ParseId(prefix: string, s: string): Option<nat> {
    var body := if s != [] && s[|s| - 1] == '\n' then s[..|s| - 1] else s;
    var head := prefix + "-";
    if head < body && AllDigits(body[|head|..]) then Some(ValueOf(body[|head|..])) else None
  }

  lemma {:induction false} DecimalRoundTrip(n: nat)
    ensures Decimal(n) != [] && AllDigits(Decimal(n)) && ValueOf(Decimal(n)) == n
  {
    if n >= 10 {
      DecimalRoundTrip(n / 10);
      assert Decimal(n)[..|Decimal(n)| - 1] == Decimal(n / 10);
    } else {
      assert Decimal(n)[..0] == [];
    }
  }

  lemma {:induction false} LeadingZero(s: string)
    requires AllDigits(s)
    ensures AllDigits("0" + s) && ValueOf("0" + s) == ValueOf(s)
  {
    if s == [] {
      assert ("0" + s)[..0] == [];
    } else {
      LeadingZero(s[..|s| - 1]);
      assert ("0" + s)[..|s|] == "0" + s[..|s| - 1];
    }
  }

  lemma {:induction false} PadRoundTrip(s: string)
    requires AllDigits(s)
    ensures |Pad3(s)| >= |s| && AllDigits(Pad3(s)) && ValueOf(Pad3(s)) == ValueOf(s)
    decreases 3 - |s|
  {
    if |s| < 3 {
      LeadingZero(s);
      PadRoundTrip("0" + s);
    }
  }

  /** Reading a generated id gives back its number, padding or not. */
  lemma PrintParse(prefix: string, n: nat)
    ensures ParseId(prefix, PrintId(prefix, n)) == Some(n)
  {
    DecimalRoundTrip(n);
    PadRoundTrip(Decimal(n));
    var s, head, digits := PrintId(prefix, n), prefix + "-", Pad3(Decimal(n));
    assert s[|s| - 1] == digits[|digits| - 1] && IsDigit(digits[|digits| - 1]);
    assert s[|head|..] == digits;
  }

  /** Largest number among the well-formed ids, or 0. */
  function MaxNumber(prefix: string, recs: seq<Record>): nat {
    if recs == [] then 0
    else
      var m, r := MaxNumber(prefix, recs[..|recs| - 1]), recs[|recs| - 1];
      if r.id.Some? && ParseId(prefix, r.id.value).Some? && ParseId(prefix, r.id.value).value > m
      then ParseId(prefix, r.id.value).value else m
  }

  method NextId(prefix: string, recs: seq<Record>) returns (id: string)
    ensures id == PrintId(prefix, MaxNumber(prefix, recs) + 1)
  {
    var maxN := 0;
    for i := 0 to |recs|
      invariant maxN == MaxNumber(prefix, recs[..i])
    {
      assert recs[..i + 1][..i] == recs[..i];
      if recs[i].id.Some? {
        var m := ParseId(prefix, recs[i].id.value);
        if m.Some? { maxN := if m.value > maxN then m.value else maxN; }
      }
    }
    assert recs[..|recs|] == recs;
    id := PrintId(prefix, maxN + 1);
  }

  lemma {:induction false} MaxNumberBounds(prefix: string, recs: seq<Record>, i: nat)
    requires i < |recs| && recs[i].id.Some? && ParseId(prefix, recs[i].id.value).Some?
    ensures ParseId(prefix, recs[i].id.value).value <= MaxNumber(prefix, recs)
  {
    if i < |recs| - 1 { MaxNumberBounds(prefix, recs[..|recs| - 1], i); }
  }

  /** The largest number is that of some record, unless no id is well-formed. */
  lemma {:induction false} MaxNumberAttained(prefix: string, recs: seq<Record>)
    ensures MaxNumber(prefix, recs) == 0 ||
      exists r :: r in recs && r.id.Some? && ParseId(prefix, r.id.value) == Some(MaxNumber(prefix, recs))
  {
    if recs != [] {
      MaxNumberAttained(prefix, recs[..|recs| - 1]);
      assert forall r :: r in recs <==> r in recs[..|recs| - 1] || r == recs[|recs| - 1];
    }
  }

  /** Ids are padded with zeros to three digits, and longer numbers keep theirs. */
  lemma IdsOf(prefix: string, n: nat)
    ensures n < 10 ==> PrintId(prefix, n) == prefix + "-" + ['0', '0', Digit(n)]
    ensures 10 <= n < 100 ==> PrintId(prefix, n) == prefix + "-" + ['0', Digit(n / 10), Digit(n % 10)]
    ensures |Decimal(n)| >= 3 ==> PrintId(prefix, n) == prefix + "-" + Decimal(n)
  {
    DecimalRoundTrip(n);
    PadsTo3(Decimal(n));
    if 10 <= n < 100 {
      assert Decimal(n / 10) == [Digit(n / 10)];
      assert ['0'] + Decimal(n) == ['0', Digit(n / 10), Digit(n % 10)];
    } else if n < 10 {
      assert ['0', '0'] + Decimal(n) == ['0', '0', Digit(n)];
    }
  }

  lemma PadsTo3(s: string)
    requires s != []
    ensures Pad3(s) == if |s| == 1 then ['0', '0'] + s else if |s| == 2 then ['0'] + s else s
  {
    if |s| == 1 {
      assert Pad3(s) == Pad3("0" + s) == Pad3("0" + ("0" + s));
    }
  }

  ghost predicate HasId(recs: seq<Record>, id: string) { exists r :: r in recs && r.id == Some(id) }

  /** A generated id is new to the registry. */
  lemma GeneratedIdFresh(prefix: string, recs: seq<Record>)
    ensures !HasId(recs, PrintId(prefix, MaxNumber(prefix, recs) + 1))
  {
    var n := MaxNumber(prefix, recs) + 1;
    PrintParse(prefix, n);
    forall i | 0 <= i < |recs| ensures recs[i].id != Some(PrintId(prefix, n)) {
      if recs[i].id.Some? && ParseId(prefix, recs[i].id.value).Some? {
        MaxNumberBounds(prefix, recs, i);
      }
    }
  }

  // ---------- Operations on record lists ----------

  /** A missing or empty id is replaced by a generated one. */
  function IdFor(prefix: string, recs: seq<Record>, record: Record): string {
    if record.id.Some? && record.id.value != "" then record.id.value
    else PrintId(prefix, MaxNumber(prefix, recs) + 1)
  }

  /** Records with the id take over the new fields; all others stay. */
  function ReplaceAll(recs: seq<Record>, id: string, fields: map<string, string>): (out: seq<Record>)
    ensures |out| == |recs|
    ensures forall i :: 0 <= i < |recs| ==>
      out[i] == if recs[i].id == Some(id) then Record(Some(id), recs[i].fields + fields) else recs[i]
  {
    seq(|recs|, i requires 0 <= i < |recs| =>
      if recs[i].id == Some(id) then Record(Some(id), recs[i].fields + fields) else recs[i])
  }

  predicate Mentions(recs: seq<Record>, id: string) {
    recs != [] && (recs[|recs| - 1].id == Some(id) || Mentions(recs[..|recs| - 1], id))
  }

  lemma {:induction false} MentionsMeans(recs: seq<Record>, id: string)
    ensures Mentions(recs, id) <==> HasId(recs, id)
  {
    if recs != [] {
      MentionsMeans(recs[..|recs| - 1], id);
      assert forall r :: r in recs <==> r in recs[..|recs| - 1] || r == recs[|recs| - 1];
    }
  }

  function Upsert(recs: seq<Record>, record: Record): seq<Record> {
    var id := IdFor("EXP", recs, record);
    ReplaceAll(recs, id, record.fields) + if Mentions(recs, id) then [] else [Record(Some(id), record.fields)]
  }

  /** All records but those with the id, in order. */
  function Without(recs: seq<Record>, id: string): seq<Record> {
    if recs == [] then []
    else Without(recs[..|recs| - 1], id) + if recs[|recs| - 1].id == Some(id) then [] else [recs[|recs| - 1]]
  }

  function Get(recs: seq<Record>, id: string): Option<Record> {
    if recs == [] then None else if recs[0].id == Some(id) then Some(recs[0]) else Get(recs[1..], id)
  }

  /** Edges and rejected hypotheses: any record with the id is dropped and the new one goes last. */
  function AddLast(prefix: string, recs: seq<Record>, record: Record): seq<Record> {
    var id := IdFor(prefix, recs, record);
    Without(recs, id) + [Record(Some(id), record.fields)]
  }

  // ---------- The stored registries ----------

  /** The stored experiment list, loaded and saved by each operation. */
  class ExperimentRegistry {
    var experiments: seq<Record>

    method GetExperiment(id: string) returns (r: Option<Record>)
      ensures r == Get(experiments, id)
    {
      for i := 0 to |experiments|
        invariant Get(experiments, id) == Get(experiments[i..], id)
      {
        assert experiments[i..][1..] == experiments[i + 1..];
        if experiments[i].id == Some(id) { return Some(experiments[i]); }
      }
      return None;
    }

    method UpsertExperiment(record: Record) returns (stored: Record)
      modifies this
      ensures experiments == Upsert(old(experiments), record)
      ensures Get(experiments, IdFor("EXP", old(experiments), record)) == Some(stored)
    {
      var expId;
      if record.id.None? || record.id.value == "" {
        expId := NextId("EXP", experiments);
      } else {
        expId := record.id.value;
      }
      var replaced, out := false, [];
      for i := 0 to |experiments|
        invariant experiments == old(experiments)
        invariant out == ReplaceAll(experiments[..i], expId, record.fields)
        invariant replaced == Mentions(experiments[..i], expId)
      {
        var exp := experiments[i];
        assert experiments[..i + 1] == experiments[..i] + [exp];
        if exp.id == Some(expId) {
          out := out + [Record(Some(expId), exp.fields + record.fields)];
          replaced := true;
        } else {
          out := out + [exp];
        }
      }
      assert experiments[..|experiments|] == experiments;
      if !replaced { out := out + [Record(Some(expId), record.fields)]; }
      experiments := out;
      assert experiments == Upsert(old(experiments), record);
      UpsertGet(old(experiments), record);
      var found := GetExperiment(expId);
      stored := found.value;
    }

    method DeleteExperiment(id: string) returns (deleted: bool)
      modifies this
      ensures experiments == Without(old(experiments), id)
      ensures deleted == Mentions(old(experiments), id)
    {
      var kept := Without(experiments, id);
      WithoutShrinks(experiments, id);
      if |kept| == |experiments| { return false; }
      experiments := kept;
      return true;
    }
  }

  /** A stored list of confirmed edges (prefix EDGE) or rejected hypotheses (prefix REJ). */
  class EdgeRegistry {
    const prefix: string
    var records: seq<Record>

    constructor (prefix: string)
      ensures this.prefix == prefix && records == []
    {
      this.prefix := prefix;
      records := [];
    }

    method AddRecord(record: Record) returns (stored: Record)
      modifies this`records
      ensures records == AddLast(prefix, old(records), record)
      ensures stored == records[|records| - 1]
    {
      var id;
      if record.id.None? || record.id.value == "" {
        id := NextId(prefix, records);
      } else {
        id := record.id.value;
      }
      stored := Record(Some(id), record.fields);
      records := Without(records, id) + [stored];
    }
  }

  // ---------- Laws ----------

  /** An upsert under a known id changes just the records with it, in place; under a new id it adds one at the end. */
  lemma UpsertExactly(recs: seq<Record>, record: Record)
    ensures var id, out := IdFor("EXP", recs, record), Upsert(recs, record);
      && (HasId(recs, id) ==> |out| == |recs|)
      && (!HasId(recs, id) ==> out == recs + [Record(Some(id), record.fields)])
      && forall i :: 0 <= i < |recs| ==>
           out[i] == if recs[i].id == Some(id) then Record(Some(id), recs[i].fields + record.fields) else recs[i]
  {
    var id := IdFor("EXP", recs, record);
    MentionsMeans(recs, id);
    if !HasId(recs, id) {
      assert forall i :: 0 <= i < |recs| ==> recs[i] in recs;
      assert ReplaceAll(recs, id, record.fields) == recs;
    }
  }

  lemma WithoutAppend(recs: seq<Record>, r: Record, id: string)
    ensures Without(recs + [r], id) == Without(recs, id) + if r.id == Some(id) then [] else [r]
  {
    assert (recs + [r])[..|recs|] == recs;
  }

  lemma {:induction false} WithoutShrinks(recs: seq<Record>, id: string)
    ensures |Without(recs, id)| <= |recs|
    ensures Mentions(recs, id) <==> |Without(recs, id)| < |recs|
    ensures !Mentions(recs, id) ==> Without(recs, id) == recs
  {
    if recs != [] {
      var init, last := recs[..|recs| - 1], recs[|recs| - 1];
      WithoutShrinks(init, id);
      WithoutAppend(init, last, id);
      assert recs == init + [last];
    }
  }

  lemma {:induction false} WithoutElements(recs: seq<Record>, id: string, r: Record)
    ensures r in Without(recs, id) <==> r in recs && r.id != Some(id)
  {
    if recs != [] {
      WithoutElements(recs[..|recs| - 1], id, r);
      assert r in recs <==> r in recs[..|recs| - 1] || r == recs[|recs| - 1];
    }
  }

  /** No two records carry the same id. */
  ghost predicate UniqueIds(recs: seq<Record>) {
    forall i, j :: 0 <= i < j < |recs| && recs[i].id.Some? ==> recs[i].id != recs[j].id
  }

  lemma {:induction false} WithoutUnique(recs: seq<Record>, id: string)
    requires UniqueIds(recs)
    ensures UniqueIds(Without(recs, id))
  {
    if recs != [] {
      var init, last := recs[..|recs| - 1], recs[|recs| - 1];
      WithoutUnique(init, id);
      var kept := Without(init, id);
      forall i | 0 <= i < |kept| && kept[i].id.Some? ensures kept[i].id != last.id {
        WithoutElements(init, id, kept[i]);
        var k :| 0 <= k < |init| && init[k] == kept[i];
        assert recs[k].id != recs[|recs| - 1].id;
      }
    }
  }

  lemma UpsertUnique(recs: seq<Record>, record: Record)
    requires UniqueIds(recs)
    ensures UniqueIds(Upsert(recs, record))
  {
    var id := IdFor("EXP", recs, record);
    var out := ReplaceAll(recs, id, record.fields);
    assert forall i :: 0 <= i < |recs| ==> out[i].id == recs[i].id;
    MentionsMeans(recs, id);
    assert forall i :: 0 <= i < |recs| ==> recs[i] in recs;
  }

  lemma AddLastUnique(prefix: string, recs: seq<Record>, record: Record)
    requires UniqueIds(recs)
    ensures UniqueIds(AddLast(prefix, recs, record))
    ensures var id := IdFor(prefix, recs, record);
      AddLast(prefix, recs, record)[|Without(recs, id)|] == Record(Some(id), record.fields)
  {
    var id := IdFor(prefix, recs, record);
    WithoutUnique(recs, id);
    var kept := Without(recs, id);
    forall i | 0 <= i < |kept| ensures kept[i].id != Some(id) {
      WithoutElements(recs, id, kept[i]);
    }
  }

  datatype Op = Put(record: Record) | Remove(id: string)

  function Apply(recs: seq<Record>, op: Op): seq<Record> {
    match op case Put(r) => Upsert(recs, r) case Remove(id) => Without(recs, id)
  }

  function ApplyAll(recs: seq<Record>, ops: seq<Op>): seq<Record> {
    if ops == [] then recs else Apply(ApplyAll(recs, ops[..|ops| - 1]), ops[|ops| - 1])
  }

  /** Any sequence of upserts and deletes keeps experiment ids unique. */
  lemma {:induction false} RunKeepsIdsUnique(recs: seq<Record>, ops: seq<Op>)
    requires UniqueIds(recs)
    ensures UniqueIds(ApplyAll(recs, ops))
  {
    if ops != [] {
      var before := ApplyAll(recs, ops[..|ops| - 1]);
      RunKeepsIdsUnique(recs, ops[..|ops| - 1]);
      match ops[|ops| - 1]
      case Put(r) => UpsertUnique(before, r);
      case Remove(id) => WithoutUnique(before, id);
    }
  }

  function AddAll(prefix: string, recs: seq<Record>, added: seq<Record>): seq<Record> {
    if added == [] then recs else AddLast(prefix, AddAll(prefix, recs, added[..|added| - 1]), added[|added| - 1])
  }

  /** Any sequence of additions to an edge registry keeps ids unique. */
  lemma {:induction false} AdditionsKeepIdsUnique(prefix: string, recs: seq<Record>, added: seq<Record>)
    requires UniqueIds(recs)
    ensures UniqueIds(AddAll(prefix, recs, added))
  {
    if added != [] {
      AdditionsKeepIdsUnique(prefix, recs, added[..|added| - 1]);
      AddLastUnique(prefix, AddAll(prefix, recs, added[..|added| - 1]), added[|added| - 1]);
    }
  }

  predicate Named(record: Record) { record.id.Some? && record.id.value != "" }

  /** Upserting the same record twice is upserting it once exactly when it names its id: otherwise the second
      call generates another one. */
  lemma UpsertIdempotentExact(recs: seq<Record>, record: Record)
    ensures Upsert(Upsert(recs, record), record) == Upsert(recs, record) <==> Named(record)
  {
    if Named(record) {
      UpsertNamedTwice(recs, record);
    } else {
      var once := Upsert(recs, record);
      GeneratedIdFresh("EXP", once);
      NotMentioned(once, IdFor("EXP", once, record));
      assert |Upsert(once, record)| == |once| + 1;
    }
  }

  lemma UpsertNamedTwice(recs: seq<Record>, record: Record)
    requires Named(record)
    ensures Upsert(Upsert(recs, record), record) == Upsert(recs, record)
  {
    var id, once := record.id.value, Upsert(recs, record);
    UpsertMentions(recs, record);
    var twice := Upsert(once, record);
    forall i | 0 <= i < |once| ensures twice[i] == once[i] {
      if i < |recs| && recs[i].id == Some(id) {
        assert recs[i].fields + record.fields + record.fields == recs[i].fields + record.fields;
      } else {
        assert record.fields + record.fields == record.fields;
      }
    }
  }

  lemma NotMentioned(recs: seq<Record>, id: string)
    requires !HasId(recs, id)
    ensures !Mentions(recs, id)
  {
    MentionsMeans(recs, id);
  }

  lemma UpsertMentions(recs: seq<Record>, record: Record)
    ensures Mentions(Upsert(recs, record), IdFor("EXP", recs, record))
  {
    var id, once := IdFor("EXP", recs, record), Upsert(recs, record);
    MentionsMeans(recs, id);
    MentionsMeans(once, id);
    if Mentions(recs, id) {
      var r :| r in recs && r.id == Some(id);
      var i :| 0 <= i < |recs| && recs[i] == r;
      assert once[i].id == Some(id);
    } else {
      assert once[|recs|].id == Some(id);
    }
  }

  lemma {:induction false} WithoutConcat(a: seq<Record>, b: seq<Record>, id: string)
    ensures Without(a + b, id) == Without(a, id) + Without(b, id)
  {
    if b == [] {
      assert a + b == a;
    } else {
      var init, last := b[..|b| - 1], b[|b| - 1];
      WithoutConcat(a, init, id);
      WithoutAppend(a + init, last, id);
      WithoutAppend(init, last, id);
      assert b == init + [last] && a + b == a + init + [last];
    }
  }

  lemma {:induction false} ReplaceKeepsOthers(recs: seq<Record>, id: string, fields: map<string, string>)
    ensures Without(ReplaceAll(recs, id, fields), id) == Without(recs, id)
  {
    if recs != [] {
      var init := recs[..|recs| - 1];
      ReplaceKeepsOthers(init, id, fields);
      assert ReplaceAll(recs, id, fields)[..|recs| - 1] == ReplaceAll(init, id, fields);
    }
  }

  /** An upsert leaves all other records and their order alone. */
  lemma UpsertKeepsOthers(recs: seq<Record>, record: Record)
    ensures var id := IdFor("EXP", recs, record); Without(Upsert(recs, record), id) == Without(recs, id)
  {
    var id := IdFor("EXP", recs, record);
    ReplaceKeepsOthers(recs, id, record.fields);
    var tail := if Mentions(recs, id) then [] else [Record(Some(id), record.fields)];
    assert tail != [] ==> tail[..0] == [];
    WithoutConcat(ReplaceAll(recs, id, record.fields), tail, id);
  }

  /** Deleting a freshly inserted record restores the registry. */
  lemma DeleteUndoesInsert(recs: seq<Record>, record: Record)
    requires !Mentions(recs, IdFor("EXP", recs, record))
    ensures Without(Upsert(recs, record), IdFor("EXP", recs, record)) == recs
  {
    UpsertKeepsOthers(recs, record);
    WithoutShrinks(recs, IdFor("EXP", recs, record));
  }

  /** With no id given, the insert is always fresh, so deleting the assigned id always restores the registry. */
  lemma DeleteUndoesGenerated(recs: seq<Record>, record: Record)
    requires !Named(record)
    ensures Without(Upsert(recs, record), IdFor("EXP", recs, record)) == recs
  {
    GeneratedIdFresh("EXP", recs);
    NotMentioned(recs, IdFor("EXP", recs, record));
    DeleteUndoesInsert(recs, record);
  }

  lemma {:induction false} GetFirst(recs: seq<Record>, id: string)
    ensures Mentions(recs, id) <==> Get(recs, id).Some?
    ensures Get(recs, id).Some? ==> Get(recs, id).value in recs && Get(recs, id).value.id == Some(id)
  {
    MentionsMeans(recs, id);
    if recs != [] && recs[0].id != Some(id) {
      GetFirst(recs[1..], id);
      MentionsMeans(recs[1..], id);
      assert forall r :: r in recs <==> r == recs[0] || r in recs[1..];
    }
  }

  /** After an upsert, looking the id up gives the old fields overwritten by the new ones. */
  lemma UpsertGet(recs: seq<Record>, record: Record)
    ensures var id := IdFor("EXP", recs, record);
      var before := Get(recs, id);
      Get(Upsert(recs, record), id)
      == Some(Record(Some(id), (if before.Some? then before.value.fields else map[]) + record.fields))
  {
    var id := IdFor("EXP", recs, record);
    GetFirst(recs, id);
    var tail := if Mentions(recs, id) then [] else [Record(Some(id), record.fields)];
    assert map[] + record.fields == record.fields;
    GetReplaced(recs, id, record.fields, tail);
  }

  lemma {:induction false} GetReplaced(recs: seq<Record>, id: string, fields: map<string, string>, tail: seq<Record>)
    ensures var out := Get(ReplaceAll(recs, id, fields) + tail, id);
      out == if Get(recs, id).Some? then Some(Record(Some(id), Get(recs, id).value.fields + fields)) else Get(tail, id)
  {
    var out := ReplaceAll(recs, id, fields);
    if recs == [] {
      assert out + tail == tail;
    } else if recs[0].id != Some(id) {
      GetReplaced(recs[1..], id, fields, tail);
      assert (out + tail)[1..] == ReplaceAll(recs[1..], id, fields) + tail;
    }
  }
}
