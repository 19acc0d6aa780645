/** Which keys a document declares, and the pruning that makes a written file carry only those. */
module ConfigDeclared {
  import opened Wrappers
  import opened YamlTree
  import opened ConfigSchema

  // ---- the keys the schema knows ----

  datatype Shape = Leaf | Struct(fields: map<string, Shape>) | ListOf(fields: map<string, Shape>)

  function Leaves(table: Record): map<string, Shape> { map k | k in table :: Leaf }

  const ENTRY_FIELDS: map<string, Shape> := map[
    "name" := Leaf, "path" := Leaf, "default" := Leaf, "backend" := Leaf,
    "zfs" := Struct(Leaves(ZFS_ZERO)), "retention" := Struct(Leaves(RETENTION_ZERO))]

  function ShapeOf(k: string): Shape {
    if k == "storage" then ListOf(ENTRY_FIELDS)
    else if k == "muxers" then ListOf(Leaves(MUXER_ZERO))
    else if k in SECTIONS then Struct(Leaves(SECTIONS[k]))
    else Leaf
  }

  const SCHEMA: map<string, Shape> := map k | k in SECTIONS.Keys + {"storage", "muxers"} :: ShapeOf(k)

  // The paths the theorems speak about.
  function SectionKey(s: string, k: string): Path { Key(Key(Root, s), k) }

  const STORAGE: Path := Key(Root, "storage")
  const MUXERS: Path := Key(Root, "muxers")

  function EntryAt(name: string): Path { Item(STORAGE, name) }

  function MuxerAt(address: string): Path { Item(MUXERS, address) }

  // ---- declaredKeys ----

  /** Every known key path the mapping `n`, found at `at`, contains. */
  function DeclaredIn(n: Node, fields: map<string, Shape>, at: Path): set<Path>
    requires n.Mapping?
    decreases n, 0
  {
    set k, p | k in n.m && k in fields && p in DeclaredAt(n.m[k], fields[k], Key(at, k)) :: p
  }

  function DeclaredAt(v: Node, shape: Shape, at: Path): set<Path>
    decreases v, 1
  {
    {at} +
    match shape
    case Struct(fields) => if v.Mapping? then DeclaredIn(v, fields, at) else {}
    case ListOf(fields) => if v.Sequence? then DeclaredInItems(v, fields, at) else {}
    case Leaf => {}
  }

  function DeclaredInItems(v: Node, fields: map<string, Shape>, at: Path): set<Path>
    requires v.Sequence?
    decreases v, 0
  {
    set i, p | 0 <= i < |v.items| && v.items[i].Mapping?
               && p in DeclaredIn(v.items[i], fields, Item(at, EntryKey(v.items[i].m))) :: p
  }

  method DeclaredKeys(n: Node, fields: map<string, Shape>, at: Path, into: set<Path>) returns (out: set<Path>)
    requires n.Mapping?
    ensures out == into + DeclaredIn(n, fields, at)
    decreases n, 0
  {
    out := into;
    var todo := n.m.Keys;
    while todo != {}
      invariant todo <= n.m.Keys
      invariant forall p :: p in out <==>
        p in into || exists k | k in n.m && k in fields && k !in todo :: p in DeclaredAt(n.m[k], fields[k], Key(at, k))
    {
      var k :| k in todo;
      todo := todo - {k};
      if k in fields {
        ghost var before := out;
        out := out + {Key(at, k)};
        var v := n.m[k];
        match fields[k] {
          case Leaf =>
          case Struct(sub) =>
            if v.Mapping? { out := DeclaredKeys(v, sub, Key(at, k), out); }
          case ListOf(sub) =>
            if v.Sequence? { out := DeclaredKeysOfItems(v, sub, Key(at, k), out); }
        }
        assert out == before + DeclaredAt(v, fields[k], Key(at, k));
      }
    }
  }

  method DeclaredKeysOfItems(v: Node, fields: map<string, Shape>, at: Path, into: set<Path>) returns (out: set<Path>)
    requires v.Sequence?
    ensures out == into + DeclaredInItems(v, fields, at)
    decreases v, 0
  {
    out := into;
    for i := 0 to |v.items|
      invariant forall p :: p in out <==>
        p in into || exists j | 0 <= j < i && v.items[j].Mapping? ::
          p in DeclaredIn(v.items[j], fields, Item(at, EntryKey(v.items[j].m)))
    {
      if v.items[i].Mapping? {
        out := DeclaredKeys(v.items[i], fields, Item(at, EntryKey(v.items[i].m)), out);
      }
    }
  }

  lemma {:induction false} DeclaredInWithin(n: Node, fields: map<string, Shape>, at: Path, p: Path)
    requires n.Mapping? && p in DeclaredIn(n, fields, at)
    ensures exists k :: k in n.m && k in fields && Within(p, Key(at, k)) && p in DeclaredAt(n.m[k], fields[k], Key(at, k))
    ensures Within(p, at)
    decreases n, 0
  {
    var k :| k in n.m && k in fields && p in DeclaredAt(n.m[k], fields[k], Key(at, k));
    DeclaredAtWithin(n.m[k], fields[k], Key(at, k), p);
    WithinTransitive(p, Key(at, k), at);
  }

  lemma {:induction false} DeclaredAtWithin(v: Node, shape: Shape, at: Path, p: Path)
    requires p in DeclaredAt(v, shape, at)
    ensures Within(p, at)
    decreases v, 1
  {
    if p != at {
      match shape {
        case Struct(fields) => DeclaredInWithin(v, fields, at, p);
        case ListOf(fields) =>
          var i :| 0 <= i < |v.items| && v.items[i].Mapping?
                   && p in DeclaredIn(v.items[i], fields, Item(at, EntryKey(v.items[i].m)));
          DeclaredInWithin(v.items[i], fields, Item(at, EntryKey(v.items[i].m)), p);
          WithinTransitive(p, Item(at, EntryKey(v.items[i].m)), at);
      }
    }
  }

  /** Below a key, a mapping declares what that key's own value declares. */
  lemma {:induction false} DeclaredBelow(n: Node, fields: map<string, Shape>, at: Path, k: string, p: Path)
    requires n.Mapping? && Within(p, Key(at, k))
    ensures p in DeclaredIn(n, fields, at)
       <==> k in n.m && k in fields && p in DeclaredAt(n.m[k], fields[k], Key(at, k))
  {
    if p in DeclaredIn(n, fields, at) {
      DeclaredInWithin(n, fields, at, p);
      var j :| j in n.m && j in fields && Within(p, Key(at, j)) && p in DeclaredAt(n.m[j], fields[j], Key(at, j));
      AncestorUnique(p, Key(at, j), Key(at, k));
    }
  }

  /** A path below a list entry's name is declared exactly when some entry with that name declares it. */
  lemma {:induction false} ItemDeclared(doc: Node, schema: map<string, Shape>, list: string, fields: map<string, Shape>, name: string, p: Path)
    requires doc.Mapping? && list in schema && schema[list] == ListOf(fields) && Within(p, Item(Key(Root, list), name))
    ensures p in DeclaredIn(doc, schema, Root)
       <==> list in doc.m && doc.m[list].Sequence?
            && exists i :: 0 <= i < |doc.m[list].items| && doc.m[list].items[i].Mapping?
                 && EntryKey(doc.m[list].items[i].m) == name
                 && p in DeclaredIn(doc.m[list].items[i], fields, Item(Key(Root, list), name))
  {
    var at := Key(Root, list);
    WithinTransitive(p, Item(at, name), at);
    DeclaredBelow(doc, schema, Root, list, p);
    WithinDepth(p, Item(at, name));
    if p in DeclaredIn(doc, schema, Root) {
      assert p in DeclaredInItems(doc.m[list], fields, at);
      var items := doc.m[list].items;
      var i :| 0 <= i < |items| && items[i].Mapping? && p in DeclaredIn(items[i], fields, Item(at, EntryKey(items[i].m)));
      DeclaredInWithin(items[i], fields, Item(at, EntryKey(items[i].m)), p);
      AncestorUnique(p, Item(at, EntryKey(items[i].m)), Item(at, name));
    }
  }

  lemma ListsAreNotSections()
    ensures "storage" !in SECTIONS && "muxers" !in SECTIONS
  {
  }

  lemma SchemaOfSection(s: string)
    requires s in SECTIONS && s != "storage" && s != "muxers"
    ensures s in SCHEMA && SCHEMA[s] == Struct(Leaves(SECTIONS[s]))
  {
  }

  lemma SchemaOfStorage()
    ensures "storage" in SCHEMA && SCHEMA["storage"] == ListOf(ENTRY_FIELDS)
  {
    hide Leaves;
    assert ShapeOf("storage") == ListOf(ENTRY_FIELDS);
  }

  lemma SchemaOfMuxers()
    ensures "muxers" in SCHEMA && SCHEMA["muxers"] == ListOf(Leaves(MUXER_ZERO))
  {
    assert ShapeOf("muxers") == ListOf(Leaves(MUXER_ZERO));
  }

  // ---- MarshalDeclared: the prune ----

  /** What `pruneMapping` leaves of the mapping `n` found at `at`; `keep` names leaf keys it must not drop. */
  function PrunedMapping(n: Node, d: set<Path>, at: Path, keep: set<string>): map<string, Node>
    requires n.Mapping?
    decreases n, 0
  {
    map k | k in n.m && Survives(n.m[k], d, Key(at, k), k in keep) :: Pruned(n.m[k], d, Key(at, k))
  }

  predicate Survives(v: Node, d: set<Path>, at: Path, keep: bool)
    decreases v, 2
  {
    match v
    case Mapping(_) => PrunedMapping(v, d, at, {}) != map[]
    case Sequence(items) => |items| > 0 || at in d
    case _ => at in d || keep
  }

  function Pruned(v: Node, d: set<Path>, at: Path): Node
    decreases v, 1
  {
    match v
    case Mapping(_) => Mapping(PrunedMapping(v, d, at, {}))
    case Sequence(items) => Sequence(seq(|items|, i requires 0 <= i < |items| => PrunedItem(v, i, d, at)))
    case _ => v
  }

  // `path` is what an entry could not be re-parsed without; `default: true` is what a list of
  // several could not.
  function KeptInItem(item: Node, several: bool): set<string> {
    {"path"} + if several && Child(Some(item), "default") == Some(Bool(true)) then {"default"} else {}
  }

  function PrunedItem(v: Node, i: nat, d: set<Path>, at: Path): Node
    requires v.Sequence? && i < |v.items|
    decreases v, 0
  {
    var item := v.items[i];
    if item.Mapping? then
      Mapping(PrunedMapping(item, d, Item(at, EntryKey(item.m)), KeptInItem(item, |v.items| > 1)))
    else item
  }

  function MarshalDeclared(c: Config, d: set<Path>): Node {
    Mapping(PrunedMapping(Marshal(c), d, Root, {}))
  }

  method PruneMapping(n: Node, d: set<Path>, at: Path, keep: set<string>) returns (kept: map<string, Node>)
    requires n.Mapping?
    ensures kept == PrunedMapping(n, d, at, keep)
    decreases n, 0
  {
    kept := map[];
    var todo := n.m.Keys;
    while todo != {}
      invariant todo <= n.m.Keys
      invariant forall k :: k in kept <==> k in n.m && k !in todo && Survives(n.m[k], d, Key(at, k), k in keep)
      invariant forall k | k in kept :: kept[k] == Pruned(n.m[k], d, Key(at, k))
    {
      var k :| k in todo;
      todo := todo - {k};
      var v := n.m[k];
      match v {
        case Mapping(_) =>
          var sub := PruneMapping(v, d, Key(at, k), {});
          if sub != map[] { kept := kept[k := Mapping(sub)]; }
        case Sequence(items) =>
          var sub := PruneSequence(v, d, Key(at, k));
          if |sub| > 0 || Key(at, k) in d { kept := kept[k := Sequence(sub)]; }
        case _ =>
          if Key(at, k) in d || k in keep { kept := kept[k := v]; }
      }
    }
  }

  method PruneSequence(v: Node, d: set<Path>, at: Path) returns (out: seq<Node>)
    requires v.Sequence?
    ensures Pruned(v, d, at) == Sequence(out) && |out| == |v.items|
    decreases v, 0
  {
    out := [];
    var several := |v.items| > 1;
    for i := 0 to |v.items|
      invariant |out| == i
      invariant forall j | 0 <= j < i :: out[j] == PrunedItem(v, j, d, at)
    {
      var item := v.items[i];
      if item.Mapping? {
        var keep := {"path"};
        if several && Child(Some(item), "default") == Some(Bool(true)) {
          keep := keep + {"default"};
        }
        var sub := PruneMapping(item, d, Item(at, EntryKey(item.m)), keep);
        out := out + [Mapping(sub)];
      } else {
        out := out + [item];
      }
    }
  }
}
