/** The in-place merge: it updates the caller's dictionary object and shares sub-dictionaries of the patch. */
module ConfigInPlace {
  import opened ConfigMerge

  datatype Cell = Scalar(token: string) | Sub(table: Table)

  /** A mutable dictionary. Repr is the set of dictionary objects reachable from it, which form a tree. */
  class Table {
    var entries: map<string, Cell>
    ghost var Repr: set<Table>

    ghost predicate Valid()
      reads this, Repr
      decreases Repr
      ensures Valid() ==> this in Repr
    {
      this in Repr &&
      (forall k :: k in entries && entries[k].Sub? ==>
        entries[k].table in Repr && entries[k].table.Repr <= Repr && this !in entries[k].table.Repr &&
        entries[k].table.Valid()) &&
      (forall j, k :: j in entries && k in entries && j != k && entries[j].Sub? && entries[k].Sub? ==>
        entries[j].table.Repr !! entries[k].table.Repr)
    }

    /** The configuration value this dictionary stands for. */
    ghost function Abs(): (v: Value)
      requires Valid()
      reads this, Repr
      decreases Repr
      ensures v.Dict? && v.entries.Keys == entries.Keys
      ensures forall k :: k in entries ==>
        v.entries[k] == if entries[k].Sub? then entries[k].table.Abs() else Leaf(entries[k].token)
    {
      Dict(map k | k in entries :: if entries[k].Sub? then entries[k].table.Abs() else Leaf(entries[k].token))
    }
  }

  /** Snapshot taken when a merge starts: the two values, the objects below each key on either side,
      all objects of the patch, and all objects the merged dictionary may consist of. */
  datatype Plan = Plan(b: Value, p: Value, below: map<string, set<Table>>, added: map<string, set<Table>>,
                       patchObjects: set<Table>, objects: set<Table>)

  ghost function At(m: map<string, set<Table>>, k: string): set<Table> { if k in m then m[k] else {} }

  /** Objects allowed below key k when the keys in todo are still to be merged. */
  ghost function Room(plan: Plan, todo: set<string>, k: string): set<Table> {
    At(plan.below, k) + if k in todo then {} else At(plan.added, k)
  }

  /** The value key k should have by now. */
  ghost function Want(plan: Plan, todo: set<string>, k: string): Value
    requires plan.b.Dict? && plan.p.Dict? && k in plan.b.entries.Keys + plan.p.entries.Keys
    requires k in todo ==> k in plan.b.entries
  {
    if k in plan.p.entries && k !in todo then Merge(plan.b, plan.p).entries[k] else plan.b.entries[k]
  }

  /** The sets of objects below different keys are disjoint, and none contains base. */
  ghost predicate Separated(plan: Plan, base: Table) {
    plan.b.Dict? && plan.p.Dict? && base in plan.objects && base !in plan.patchObjects &&
    plan.patchObjects <= plan.objects &&
    (forall k :: k in plan.below ==>
      base !in plan.below[k] && plan.below[k] <= plan.objects && plan.below[k] !! plan.patchObjects) &&
    (forall k :: k in plan.added ==> plan.added[k] <= plan.patchObjects) &&
    (forall j, k :: j in plan.below && k in plan.below && j != k ==> plan.below[j] !! plan.below[k]) &&
    (forall j, k :: j in plan.added && k in plan.added && j != k ==> plan.added[j] !! plan.added[k])
  }

  lemma RoomsSeparate(plan: Plan, base: Table, todo: set<string>, k: string)
    requires Separated(plan, base)
    ensures base !in Room(plan, todo, k) && Room(plan, todo, k) <= plan.objects
    ensures forall j :: j != k ==> Room(plan, todo, j) !! Room(plan, todo, k)
  {
  }

  lemma BaseInNoRoom(plan: Plan, base: Table, todo: set<string>)
    requires Separated(plan, base)
    ensures forall k :: base !in Room(plan, todo, k)
  {
  }

  /** The patch is as it was at the start. */
  ghost predicate PatchIntact(patch: Table, plan: Plan)
    reads patch, patch.Repr
  {
    patch.Valid() && patch.Repr == plan.patchObjects && patch.Abs() == plan.p &&
    forall k :: k in patch.entries && patch.entries[k].Sub? ==>
      k in plan.added && plan.added[k] == patch.entries[k].table.Repr
  }

  /** Below key k of base lies a valid tree within its room, standing for the value it should by now. */
  ghost predicate KeyDone(base: Table, plan: Plan, todo: set<string>, k: string)
    requires Separated(plan, base) && k in base.entries && k in plan.b.entries.Keys + plan.p.entries.Keys
    requires k in todo ==> k in plan.b.entries
    reads base, plan.objects
  {
    match base.entries[k]
    case Scalar(token) => Leaf(token) == Want(plan, todo, k)
    case Sub(t) =>
      t in plan.objects && t.Repr <= plan.objects && t.Repr <= Room(plan, todo, k) && t.Valid() &&
      t.Abs() == Want(plan, todo, k)
  }

  /** The loop has merged all keys of the patch but those in todo. */
  ghost predicate Merging(base: Table, plan: Plan, todo: set<string>)
    reads base, plan.objects
  {
    Separated(plan, base) && todo <= plan.p.entries.Keys &&
    base.entries.Keys == plan.b.entries.Keys + (plan.p.entries.Keys - todo) &&
    forall k :: k in base.entries ==> KeyDone(base, plan, todo, k)
  }

  lemma MergeFinishes(base: Table, plan: Plan)
    requires Merging(base, plan, {}) && base.Repr == plan.objects
    ensures base.Valid() && base.Abs() == Merge(plan.b, plan.p)
  {
    forall k | k in base.entries && base.entries[k].Sub?
      ensures var t := base.entries[k].table;
        t in base.Repr && t.Repr <= base.Repr && base !in t.Repr && t.Valid() && t.Repr <= Room(plan, {}, k)
    {
      assert KeyDone(base, plan, {}, k);
      RoomsSeparate(plan, base, {}, k);
    }
    forall j, k | j in base.entries && k in base.entries && j != k && base.entries[j].Sub? && base.entries[k].Sub?
      ensures base.entries[j].table.Repr !! base.entries[k].table.Repr
    {
      RoomsSeparate(plan, base, {}, k);
    }
    forall k | k in base.entries ensures base.Abs().entries[k] == Merge(plan.b, plan.p).entries[k] {
      assert KeyDone(base, plan, {}, k);
    }
    assert base.Abs().entries == Merge(plan.b, plan.p).entries;
  }

  /** Finishing k changes neither the room nor the wanted value of any other key. */
  lemma OthersUnaffected(plan: Plan, base: Table, todo: set<string>, k: string)
    requires Separated(plan, base)
    ensures forall j :: j != k ==> Room(plan, todo, j) == Room(plan, todo - {k}, j)
    ensures forall j ::
      j != k && j in plan.b.entries.Keys + plan.p.entries.Keys && (j in todo ==> j in plan.b.entries) ==>
      Want(plan, todo, j) == Want(plan, todo - {k}, j)
  {
  }

  /** With k done and every other key as done as it was, only the rest of todo is left to merge. */
  lemma KeyFinished(base: Table, plan: Plan, todo: set<string>, k: string)
    requires Separated(plan, base) && todo <= plan.p.entries.Keys && k in todo && k in base.entries
    requires base.entries.Keys == plan.b.entries.Keys + (plan.p.entries.Keys - (todo - {k}))
    requires KeyDone(base, plan, todo - {k}, k)
    requires forall j :: j in base.entries && j != k ==> KeyDone(base, plan, todo, j)
    ensures Merging(base, plan, todo - {k})
  {
    OthersUnaffected(plan, base, todo, k);
  }

  lemma WantNested(plan: Plan, todo: set<string>, k: string)
    requires plan.b.Dict? && plan.p.Dict? && Nested(plan.b, plan.p, k) && k in todo
    ensures Want(plan, todo, k) == plan.b.entries[k]
    ensures Want(plan, todo - {k}, k) == Merge(plan.b.entries[k], plan.p.entries[k])
  {
  }

  /** Both sides hold a dictionary at k: merge the patch's into the one base already has. */
  method MergeChild(base: Table, patch: Table, k: string, ghost plan: Plan, ghost todo: set<string>)
    requires Merging(base, plan, todo) && PatchIntact(patch, plan) && k in todo
    requires k in base.entries && base.entries[k].Sub? && patch.entries[k].Sub?
    modifies base.entries[k].table.Repr
    ensures Merging(base, plan, todo - {k}) && PatchIntact(patch, plan)
    ensures patch.Repr == old(patch.Repr) && base.Repr == old(base.Repr)
    decreases patch.Repr, 0
  {
    var t, v := base.entries[k].table, patch.entries[k].table;
    assert KeyDone(base, plan, todo, k);
    RoomsSeparate(plan, base, todo, k);
    WantNested(plan, todo, k);
    assert t.Repr !! patch.Repr;
    DeepMergeInPlace(t, v);
    assert PatchIntact(patch, plan);
    assert KeyDone(base, plan, todo - {k}, k);
    forall j | j in base.entries && j != k ensures KeyDone(base, plan, todo, j) {
      assert old(KeyDone(base, plan, todo, j));
      var c := base.entries[j];
      if c.Sub? {
        assert old(c.table.Repr) !! old(t.Repr);
        assert c.table.Repr == old(c.table.Repr) && c.table.Valid() && c.table.Abs() == old(c.table.Abs());
      }
    }
    KeyFinished(base, plan, todo, k);
  }

  /** Otherwise the patch's cell, dictionary object included, simply becomes base's. */
  method SetCell(base: Table, patch: Table, k: string, ghost plan: Plan, ghost todo: set<string>)
    requires Merging(base, plan, todo) && PatchIntact(patch, plan) && k in todo
    requires !(k in base.entries && base.entries[k].Sub? && patch.entries[k].Sub?)
    modifies base`entries
    ensures Merging(base, plan, todo - {k}) && PatchIntact(patch, plan)
  {
    BaseInNoRoom(plan, base, todo);
    base.entries := base.entries[k := patch.entries[k]];
    assert PatchIntact(patch, plan);
    assert KeyDone(base, plan, todo - {k}, k);
    forall j | j in base.entries && j != k ensures KeyDone(base, plan, todo, j) {
      assert old(KeyDone(base, plan, todo, j));
      var c := base.entries[j];
      if c.Sub? {
        assert base !in c.table.Repr;
        assert c.table.Valid() && c.table.Abs() == old(c.table.Abs());
      }
    }
    KeyFinished(base, plan, todo, k);
  }

  ghost function Below(t: Table): map<string, set<Table>>
    reads t, t.Repr
    requires t.Valid()
  {
    map k | k in t.entries && t.entries[k].Sub? :: t.entries[k].table.Repr
  }

  /** A merge starts with every key as base has it. */
  lemma MergeStarts(base: Table, patch: Table, plan: Plan)
    requires base.Valid() && patch.Valid() && base.Repr !! patch.Repr
    requires plan == Plan(base.Abs(), patch.Abs(), Below(base), Below(patch), patch.Repr, base.Repr + patch.Repr)
    ensures Merging(base, plan, patch.entries.Keys) && PatchIntact(patch, plan)
    ensures forall k :: k in plan.below ==> plan.below[k] <= base.Repr
  {
    assert Separated(plan, base);
  }

  /** The merged dictionary may consist of all objects of both sides. */
  ghost method Adopt(base: Table, patch: Table, plan: Plan, todo: set<string>)
    requires Merging(base, plan, todo) && PatchIntact(patch, plan)
    modifies base`Repr
    ensures Merging(base, plan, todo) && PatchIntact(patch, plan) && base.Repr == plan.objects
  {
    BaseInNoRoom(plan, base, todo);
    base.Repr := plan.objects;
    assert PatchIntact(patch, plan);
    forall j | j in base.entries ensures KeyDone(base, plan, todo, j) {
      assert old(KeyDone(base, plan, todo, j));
      var c := base.entries[j];
      if c.Sub? {
        assert base !in c.table.Repr;
        assert c.table.Valid() && c.table.Abs() == old(c.table.Abs());
      }
    }
  }

  /** One pass through the loop body. */
  method MergeKey(base: Table, patch: Table, k: string, ghost plan: Plan, ghost todo: set<string>,
                  ghost owned: set<Table>)
    requires Merging(base, plan, todo) && PatchIntact(patch, plan) && k in todo
    requires base in owned && forall j :: j in plan.below ==> plan.below[j] <= owned
    modifies owned
    ensures Merging(base, plan, todo - {k}) && PatchIntact(patch, plan)
    ensures patch.Repr == old(patch.Repr) && base.Repr == old(base.Repr)
    decreases patch.Repr, 1
  {
    if k in base.entries && base.entries[k].Sub? && patch.entries[k].Sub? {
      assert KeyDone(base, plan, todo, k);
      MergeChild(base, patch, k, plan, todo);
    } else {
      SetCell(base, patch, k, plan, todo);
    }
  }

  method DeepMergeInPlace(base: Table, patch: Table)
    requires base.Valid() && patch.Valid() && base.Repr !! patch.Repr
    modifies base.Repr
    ensures base.Valid() && base.Repr == old(base.Repr) + patch.Repr
    ensures base.Abs() == Merge(old(base.Abs()), old(patch.Abs()))
    ensures patch.Valid() && patch.Abs() == old(patch.Abs()) && patch.Repr == old(patch.Repr)
    decreases patch.Repr, 2
  {
    ghost var plan := Plan(base.Abs(), patch.Abs(), Below(base), Below(patch), patch.Repr, base.Repr + patch.Repr);
    ghost var owned := base.Repr;
    var todo := patch.entries.Keys;
    MergeStarts(base, patch, plan);
    Adopt(base, patch, plan, todo);
    while todo != {}
      invariant Merging(base, plan, todo) && PatchIntact(patch, plan)
      invariant base.Repr == plan.objects && patch.Repr == old(patch.Repr)
      invariant forall k :: k in plan.below ==> plan.below[k] <= owned
      decreases todo
    {
      var k :| k in todo;
      MergeKey(base, patch, k, plan, todo, owned);
      todo := todo - {k};
    }
    MergeFinishes(base, plan);
  }
}
