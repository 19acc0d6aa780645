/** Which keys a write changes, and which declared paths survive it. */
module ConfigWriteDeclared {
  import opened Wrappers
  import opened YamlTree
  import opened ConfigSchema
  import opened ConfigDeclared

  // ---- changedKeys ----

  /** The entry a bare path stands for once resolved, flagged default or not. */
  function PathOnly(path: string, lone: bool): StorageEntry {
    ResolvedEntry(StorageEntry("", path, false, "", ZFS_ZERO, None)).(isDefault := lone)
  }

  function NewEntryBaseline(item: Node, lone: bool): Node {
    var path := Child(Some(item), "path");
    MarshalEntry(PathOnly(if path.Some? && path.value.Str? then path.value.s else "", lone))
  }

  /** The last mapping of `items` with this identity. */
  function FindByName(items: seq<Node>, key: string): Option<Node> {
    if items == [] then None
    else if items[|items| - 1].Mapping? && EntryKey(items[|items| - 1].m) == key then Some(items[|items| - 1])
    else FindByName(items[..|items| - 1], key)
  }

  /** What item `i` of `next` is diffed against: its namesake, else the new-entry baseline. */
  function Previous(was: Option<Node>, next: Node, i: nat): Node
    requires next.Sequence? && i < |next.items| && next.items[i].Mapping?
  {
    var found := if was.Some? && was.value.Sequence?
                 then FindByName(was.value.items, EntryKey(next.items[i].m)) else None;
    if found.Some? then found.value else NewEntryBaseline(next.items[i], |next.items| == 1)
  }

  /** The leaf paths present in `next`, found at `at`, whose value differs from `was`. */
  function Changed(was: Option<Node>, next: Node, at: Path): set<Path>
    decreases next
  {
    match next
    case Mapping(m) => set k, p | k in m && p in Changed(Child(was, k), m[k], Key(at, k)) :: p
    case Sequence(items) =>
      set i, p | 0 <= i < |items| && items[i].Mapping?
                 && p in Changed(Some(Previous(was, next, i)), items[i], Item(at, EntryKey(items[i].m))) :: p
    case _ => if was == Some(next) then {} else {at}
  }

  function ChangedKeys(prev: Config, next: Config): set<Path> {
    Changed(Some(Marshal(prev)), Marshal(next), Root)
  }

  method DiffMaps(was: Option<Node>, next: Node, at: Path, into: set<Path>) returns (out: set<Path>)
    requires next.Mapping?
    ensures out == into + Changed(was, next, at)
    decreases next
  {
    out := into;
    var todo := next.m.Keys;
    while todo != {}
      invariant todo <= next.m.Keys
      invariant forall p :: p in out <==>
        p in into || exists k | k in next.m && k !in todo :: p in Changed(Child(was, k), next.m[k], Key(at, k))
    {
      var k :| k in todo;
      todo := todo - {k};
      var v := next.m[k];
      ghost var before := out;
      match v {
        case Mapping(_) => out := DiffMaps(Child(was, k), v, Key(at, k), out);
        case Sequence(_) => out := DiffSeq(Child(was, k), v, Key(at, k), out);
        case _ => if Child(was, k) != Some(v) { out := out + {Key(at, k)}; }
      }
      assert out == before + Changed(Child(was, k), v, Key(at, k));
    }
  }

  method DiffSeq(was: Option<Node>, next: Node, at: Path, into: set<Path>) returns (out: set<Path>)
    requires next.Sequence?
    ensures out == into + Changed(was, next, at)
    decreases next
  {
    hide ZFS_ZERO, SECTIONS, MUXER_ZERO, RETENTION_ZERO, DEFAULT_RETENTION;
    var byName: map<string, Node> := map[];
    if was.Some? && was.value.Sequence? {
      var items := was.value.items;
      for i := 0 to |items|
        invariant forall k :: k in byName <==> FindByName(items[..i], k).Some?
        invariant forall k | k in byName :: FindByName(items[..i], k) == Some(byName[k])
      {
        assert items[..i + 1][..i] == items[..i];
        if items[i].Mapping? {
          byName := byName[EntryKey(items[i].m) := items[i]];
        }
      }
      assert items[..|items|] == items;
    }
    out := into;
    for i := 0 to |next.items|
      invariant forall p :: p in out <==>
        p in into || exists j | 0 <= j < i && next.items[j].Mapping? ::
          p in Changed(Some(Previous(was, next, j)), next.items[j], Item(at, EntryKey(next.items[j].m)))
    {
      var item := next.items[i];
      if item.Mapping? {
        var key := EntryKey(item.m);
        var prev := if key in byName then byName[key] else NewEntryBaseline(item, |next.items| == 1);
        assert prev == Previous(was, next, i);
        out := DiffMaps(Some(prev), item, Item(at, key), out);
      }
    }
  }

  lemma {:induction false} ChangedWithin(was: Option<Node>, next: Node, at: Path, p: Path)
    requires p in Changed(was, next, at)
    ensures Within(p, at)
    decreases next
  {
    match next {
      case Mapping(m) =>
        var k :| k in m && p in Changed(Child(was, k), m[k], Key(at, k));
        ChangedWithin(Child(was, k), m[k], Key(at, k), p);
        WithinTransitive(p, Key(at, k), at);
      case Sequence(items) =>
        var i :| 0 <= i < |items| && items[i].Mapping?
                 && p in Changed(Some(Previous(was, next, i)), items[i], Item(at, EntryKey(items[i].m)));
        ChangedWithin(Some(Previous(was, next, i)), items[i], Item(at, EntryKey(items[i].m)), p);
        WithinTransitive(p, Item(at, EntryKey(items[i].m)), at);
      case _ =>
    }
  }

  /** Below a key, a mapping changes what that key's own value changes. */
  lemma {:induction false} ChangedBelow(was: Option<Node>, next: Node, at: Path, k: string, p: Path)
    requires next.Mapping? && Within(p, Key(at, k))
    ensures p in Changed(was, next, at) <==> k in next.m && p in Changed(Child(was, k), next.m[k], Key(at, k))
  {
    if p in Changed(was, next, at) {
      var j :| j in next.m && p in Changed(Child(was, j), next.m[j], Key(at, j));
      ChangedWithin(Child(was, j), next.m[j], Key(at, j), p);
      AncestorUnique(p, Key(at, j), Key(at, k));
    }
  }

  predicate DistinctKeys(items: seq<Node>) {
    && (forall i | 0 <= i < |items| :: items[i].Mapping?)
    && (forall i, j | 0 <= i < j < |items| :: EntryKey(items[i].m) != EntryKey(items[j].m))
  }

  /** Below an entry's name, a list changes what that entry changes against its namesake. */
  lemma {:induction false} ChangedInItem(was: Option<Node>, next: Node, at: Path, i: nat, p: Path)
    requires next.Sequence? && i < |next.items| && DistinctKeys(next.items)
    requires Within(p, Item(at, EntryKey(next.items[i].m)))
    ensures p in Changed(was, next, at)
       <==> p in Changed(Some(Previous(was, next, i)), next.items[i], Item(at, EntryKey(next.items[i].m)))
  {
    if p in Changed(was, next, at) {
      var j :| 0 <= j < |next.items|
               && p in Changed(Some(Previous(was, next, j)), next.items[j], Item(at, EntryKey(next.items[j].m)));
      ChangedWithin(Some(Previous(was, next, j)), next.items[j], Item(at, EntryKey(next.items[j].m)), p);
      AncestorUnique(p, Item(at, EntryKey(next.items[i].m)), Item(at, EntryKey(next.items[j].m)));
    }
  }

  /** A name no entry carries changes nothing. */
  lemma {:induction false} ChangedNamesAreLive(was: Option<Node>, next: Node, at: Path, name: string, p: Path)
    requires next.Sequence? && Within(p, Item(at, name)) && p in Changed(was, next, at)
    ensures exists i :: 0 <= i < |next.items| && next.items[i].Mapping? && EntryKey(next.items[i].m) == name
  {
    var j :| 0 <= j < |next.items| && next.items[j].Mapping?
             && p in Changed(Some(Previous(was, next, j)), next.items[j], Item(at, EntryKey(next.items[j].m)));
    ChangedWithin(Some(Previous(was, next, j)), next.items[j], Item(at, EntryKey(next.items[j].m)), p);
    AncestorUnique(p, Item(at, name), Item(at, EntryKey(next.items[j].m)));
  }

  // ---- union, forStorages ----

  /** A name as the dotted form yields it: cut at the first `]`. */
  function CutName(name: string): string {
    if name == "" || name[0] == ']' then "" else [name[0]] + CutName(name[1..])
  }

  lemma {:induction false} CutNameWhole(name: string)
    ensures CutName(name) == name <==> ']' !in name
  {
    if name != "" && name[0] != ']' {
      CutNameWhole(name[1..]);
    }
  }

  /** The storage a declared path belongs to, or none. */
  function StorageEntryName(p: Path): Option<string> {
    match p
    case Root => None
    case Item(q, name) => if q == STORAGE then Some(CutName(name)) else StorageEntryName(q)
    case Key(q, _) => StorageEntryName(q)
  }

  function Names(storage: Option<seq<StorageEntry>>): set<string> {
    if storage.None? then {} else set i | 0 <= i < |storage.value| :: storage.value[i].name
  }

  predicate BelongsHere(p: Path, live: set<string>) {
    StorageEntryName(p).Some? ==> StorageEntryName(p).value in live
  }

  /** The declared paths without those of storage entries the document no longer has. */
  function ForStorages(d: set<Path>, storage: Option<seq<StorageEntry>>): set<Path> {
    set p | p in d && BelongsHere(p, Names(storage))
  }

  method ForStoragesByLoop(d: set<Path>, storage: Option<seq<StorageEntry>>) returns (out: set<Path>)
    ensures out == ForStorages(d, storage)
  {
    var live: set<string> := {};
    if storage.Some? {
      for i := 0 to |storage.value|
        invariant live == set j | 0 <= j < i :: storage.value[j].name
      {
        live := live + {storage.value[i].name};
      }
    }
    assert live == Names(storage);
    out := {};
    var todo := d;
    while todo != {}
      invariant todo <= d
      invariant out == set p | p in d - todo && BelongsHere(p, live)
    {
      var p :| p in todo;
      todo := todo - {p};
      var name := StorageEntryName(p);
      if !(name.Some? && name.value !in live) {
        out := out + {p};
      }
    }
  }

  /** The declared set a write from `(prev, d)` to `next` leaves: what the file already said, plus what
      the write changes, without storages the document no longer has. */
  function DeclaredAfter(prev: Config, d: set<Path>, next: Config): set<Path> {
    ForStorages(d + ChangedKeys(prev, next), next.storage)
  }
}
