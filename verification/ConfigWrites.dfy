/** What a whole-document write changes, leaf by leaf, section by section and entry by entry, and the settled
    states it changes. */
module ConfigWrites {
  import opened Wrappers
  import opened YamlTree
  import opened ConfigSchema
  import opened ConfigDeclared
  import opened ConfigWriteDeclared
  import opened ConfigRoundTrip
  import opened ConfigCoverage

  // ---- what validation guarantees about names ----

  predicate NamesDistinct(list: seq<StorageEntry>) {
    && (forall i | 0 <= i < |list| :: list[i].name != "" && list[i].path != "")
    && (forall i, j | 0 <= i < j < |list| :: list[i].name != list[j].name)
  }

  predicate AddressesDistinct(list: seq<Record>)
    requires forall r | r in list :: Shaped(r, MUXER_ZERO)
  {
    forall i, j | 0 <= i < j < |list| :: Address(list[i]) != Address(list[j])
  }

  /** A resolved document whose list entries can be told apart. */
  predicate WellNamed(c: Config) {
    && Typed(c) && Resolved(c)
    && (c.storage.Some? ==> NamesDistinct(c.storage.value))
    && (c.muxers.Some? ==> AddressesDistinct(c.muxers.value))
  }

  // ---- where paths belong ----

  /** The whole name of the storage a path belongs to. */
  function WholeName(p: Path): Option<string> {
    match p
    case Root => None
    case Item(q, name) => if q == STORAGE then Some(name) else WholeName(q)
    case Key(q, _) => WholeName(q)
  }

  lemma {:induction false} NameOfPath(p: Path, name: string)
    requires Within(p, EntryAt(name))
    ensures WholeName(p) == Some(name) && StorageEntryName(p) == Some(CutName(name))
  {
    if p != EntryAt(name) {
      NameOfPath(p.of, name);
      WithinDepth(p.of, EntryAt(name));
    }
  }

  lemma {:induction false} WithinOfName(p: Path)
    ensures WholeName(p).Some? ==> Within(p, EntryAt(WholeName(p).value))
    ensures StorageEntryName(p).Some? <==> WholeName(p).Some?
  {
    if !p.Root? {
      WithinOfName(p.of);
    }
  }

  /** Every storage path the set declares is of a storage the document has. */
  predicate NoStale(c: Config, d: set<Path>) {
    forall p | p in d && WholeName(p).Some? :: WholeName(p).value in Names(c.storage)
  }

  /** The states a tidy file is read into and a tidy write leaves. */
  predicate Settled(c: Config, d: set<Path>) {
    WellNamed(c) && Covered(c, d) && NoStale(c, d)
  }

  // ---- namesakes ----

  function FindEntry(list: seq<StorageEntry>, name: string): Option<StorageEntry> {
    if list == [] then None
    else if list[|list| - 1].name == name then Some(list[|list| - 1])
    else FindEntry(list[..|list| - 1], name)
  }

  function Prior(c: Config, name: string): Option<StorageEntry> {
    if c.storage.None? then None else FindEntry(c.storage.value, name)
  }

  lemma {:induction false} FindEntrySpec(list: seq<StorageEntry>, name: string)
    ensures FindEntry(list, name).Some? ==> FindEntry(list, name).value in list && FindEntry(list, name).value.name == name
    ensures FindEntry(list, name).None? ==> forall i | 0 <= i < |list| :: list[i].name != name
  {
    if list != [] {
      FindEntrySpec(list[..|list| - 1], name);
    }
  }

  lemma {:induction false} FindMarshalledEntry(list: seq<StorageEntry>, name: string)
    requires NamesDistinct(list)
    ensures FindByName(MarshalStorage(list), name)
         == match FindEntry(list, name) case Some(e) => Some(MarshalEntry(e)) case None => None
  {
    if list != [] {
      var last := |list| - 1;
      FindMarshalledEntry(list[..last], name);
      ResolvedKey(list[last]);
      assert MarshalStorage(list)[..last] == MarshalStorage(list[..last]);
    }
  }

  function FindMuxer(list: seq<Record>, address: string): Option<Record>
    requires forall r | r in list :: Shaped(r, MUXER_ZERO)
  {
    if list == [] then None
    else if Address(list[|list| - 1]) == address then Some(list[|list| - 1])
    else FindMuxer(list[..|list| - 1], address)
  }

  lemma {:induction false} FindMarshalledMuxer(list: seq<Record>, address: string)
    requires forall r | r in list :: Shaped(r, MUXER_ZERO)
    ensures FindByName(MarshalMuxers(list), address)
         == match FindMuxer(list, address) case Some(r) => Some(Mapping(r)) case None => None
    ensures FindMuxer(list, address).Some? ==>
      FindMuxer(list, address).value in list && Address(FindMuxer(list, address).value) == address
  {
    if list != [] {
      var last := |list| - 1;
      FindMarshalledMuxer(list[..last], address);
      PrunedMuxer(list[last], {}, false);
      assert MarshalMuxers(list)[..last] == MarshalMuxers(list[..last]);
    }
  }

  // ---- which leaves a write changes ----

  lemma {:induction false} LeafChanged(was: Option<Node>, next: Node, at: Path, k: string)
    requires next.Mapping? && k in next.m && !next.m[k].Mapping? && !next.m[k].Sequence?
    ensures Key(at, k) in Changed(was, next, at) <==> Child(was, k) != Some(next.m[k])
  {
    ChangedBelow(was, next, at, k, Key(at, k));
  }

  lemma {:induction false} SubLeafChanged(was: Option<Node>, next: Node, at: Path, sub: string, k: string)
    requires next.Mapping? && sub in next.m && next.m[sub].Mapping? && k in next.m[sub].m
    requires !next.m[sub].m[k].Mapping? && !next.m[sub].m[k].Sequence?
    ensures Key(Key(at, sub), k) in Changed(was, next, at) <==> Child(Child(was, sub), k) != Some(next.m[sub].m[k])
  {
    ChangedBelow(was, next, at, sub, Key(Key(at, sub), k));
    LeafChanged(Child(was, sub), next.m[sub], Key(at, sub), k);
  }

  lemma {:induction false} RecordChanged(was: Option<Node>, next: Node, at: Path, sub: string, k: string, r: Record, base: Record)
    requires next.Mapping? && sub in next.m && next.m[sub] == Mapping(r)
    requires Shaped(r, base) && Scalars(base) && k in base
    ensures Key(Key(at, sub), k) in Changed(was, next, at) <==> Child(Child(was, sub), k) != Some(r[k])
  {
    ScalarsFollow(r, base);
    SubLeafChanged(was, next, at, sub, k);
  }

  /** A section key is changed exactly when its value is. */
  lemma {:induction false} SectionChanged(prev: Config, next: Config, s: string, k: string)
    requires Typed(prev) && Typed(next) && s in SECTIONS && k in SECTIONS[s]
    ensures SectionKey(s, k) in ChangedKeys(prev, next) <==> prev.sections[s][k] != next.sections[s][k]
  {
    hide Marshal, Changed;
    SectionNode(prev, s);
    SectionNode(next, s);
    SectionsHoldScalars(s);
    RecordChanged(Some(Marshal(prev)), Marshal(next), Root, s, k, next.sections[s], SECTIONS[s]);
  }

  lemma SectionNode(c: Config, s: string)
    requires Typed(c) && s in SECTIONS
    ensures Marshal(c).Mapping? && s in Marshal(c).m && Marshal(c).m[s] == Mapping(c.sections[s])
    ensures Shaped(c.sections[s], SECTIONS[s])
  {
    MarshalParts(c);
  }

  lemma {:induction false} MarshalledKeysDistinct(list: seq<StorageEntry>)
    requires NamesDistinct(list)
    ensures DistinctKeys(MarshalStorage(list))
    ensures forall i | 0 <= i < |list| :: EntryKey(MarshalStorage(list)[i].m) == list[i].name
  {
    forall i | 0 <= i < |list| ensures EntryKey(MarshalStorage(list)[i].m) == list[i].name {
      ResolvedKey(list[i]);
    }
  }

  lemma {:induction false} MuxerKeysDistinct(list: seq<Record>)
    requires forall r | r in list :: Shaped(r, MUXER_ZERO)
    requires AddressesDistinct(list)
    ensures DistinctKeys(MarshalMuxers(list))
    ensures forall i | 0 <= i < |list| :: EntryKey(MarshalMuxers(list)[i].m) == Address(list[i])
  {
    forall i | 0 <= i < |list| ensures EntryKey(MarshalMuxers(list)[i].m) == Address(list[i]) {
      PrunedMuxer(list[i], {}, false);
    }
  }

  /** Below an entry of a top-level list, a document changes what that entry changes. */
  lemma {:induction false} ListItemChanged(was: Option<Node>, now: Node, k: string, i: nat, p: Path)
    requires now.Mapping? && k in now.m && now.m[k].Sequence? && i < |now.m[k].items| && DistinctKeys(now.m[k].items)
    requires Within(p, Item(Key(Root, k), EntryKey(now.m[k].items[i].m)))
    ensures var item := now.m[k].items[i];
      p in Changed(was, now, Root)
      <==> p in Changed(Some(Previous(Child(was, k), now.m[k], i)), item, Item(Key(Root, k), EntryKey(item.m)))
  {
    WithinTransitive(p, Item(Key(Root, k), EntryKey(now.m[k].items[i].m)), Key(Root, k));
    ChangedBelow(was, now, Root, k, p);
    ChangedInItem(Child(was, k), now.m[k], Key(Root, k), i, p);
  }

  /** What entry `e` of the new document is compared with. */
  function ComparedWith(prev: Config, next: Config, e: StorageEntry): StorageEntry
    requires next.storage.Some?
  {
    match Prior(prev, e.name)
    case Some(pe) => pe
    case None => PathOnly(e.path, |next.storage.value| == 1)
  }

  lemma ListNodes(c: Config)
    requires Typed(c)
    ensures Marshal(c).Mapping?
    ensures "storage" in Marshal(c).m && Marshal(c).m["storage"] == StorageNode(c)
    ensures "muxers" in Marshal(c).m && Marshal(c).m["muxers"] == MuxersNode(c)
  {
    MarshalParts(c);
  }

  lemma {:induction false} PreviousEntry(prev: Config, next: Config, i: nat)
    requires prev.storage.Some? ==> NamesDistinct(prev.storage.value)
    requires next.storage.Some? && i < |next.storage.value| && NamesDistinct(next.storage.value)
    ensures Previous(Some(StorageNode(prev)), StorageNode(next), i) == MarshalEntry(ComparedWith(prev, next, next.storage.value[i]))
  {
    var e := next.storage.value[i];
    MarshalledKeysDistinct(next.storage.value);
    if prev.storage.Some? {
      FindMarshalledEntry(prev.storage.value, e.name);
    }
    assert Child(Some(MarshalEntry(e)), "path") == Some(Str(e.path));
  }

  /** Below an entry, a write changes what differs from the entry it is compared with. */
  lemma {:induction false} EntryChanged(prev: Config, next: Config, i: nat, p: Path)
    requires WellNamed(prev) && WellNamed(next)
    requires next.storage.Some? && i < |next.storage.value| && Within(p, EntryAt(next.storage.value[i].name))
    ensures var e := next.storage.value[i];
      p in ChangedKeys(prev, next)
      <==> p in Changed(Some(MarshalEntry(ComparedWith(prev, next, e))), MarshalEntry(e), EntryAt(e.name))
  {
    hide Marshal, Changed, MarshalEntry, Previous;
    ListNodes(prev);
    ListNodes(next);
    MarshalledKeysDistinct(next.storage.value);
    ListItemChanged(Some(Marshal(prev)), Marshal(next), "storage", i, p);
    PreviousEntry(prev, next, i);
  }

  function PriorMuxer(c: Config, address: string): Option<Record>
    requires Typed(c)
  {
    if c.muxers.None? then None else FindMuxer(c.muxers.value, address)
  }

  lemma MuxerKeyInitials(k: string)
    requires k in MUXER_ZERO
    ensures k != "" && (k[0] == 'a' || k[0] == 't')
  {
  }

  lemma EntryKeyInitials(e: StorageEntry, k: string)
    requires k in MarshalEntry(e).m
    ensures k != "" && k[0] != 'a' && k[0] != 't'
  {
  }

  lemma NoBaselineForMuxers(n: Node, lone: bool, k: string)
    requires k in MUXER_ZERO
    ensures NewEntryBaseline(n, lone).Mapping? && k !in NewEntryBaseline(n, lone).m
  {
    hide PathOnly;
    MuxerKeyInitials(k);
    var path := Child(Some(n), "path");
    var e := PathOnly(if path.Some? && path.value.Str? then path.value.s else "", lone);
    if k in MarshalEntry(e).m {
      EntryKeyInitials(e, k);
    }
  }

  /** A muxer is compared with its namesake; the baseline of a new one holds none of its keys. */
  lemma {:induction false} PreviousMuxer(was: Option<Node>, next: seq<Record>, i: nat, k: string, prior: Option<Record>)
    requires i < |next| && Shaped(next[i], MUXER_ZERO) && k in MUXER_ZERO
    requires was.Some? && was.value.Sequence? ==>
      FindByName(was.value.items, Address(next[i])) == match prior case Some(r) => Some(Mapping(r)) case None => None
    requires !(was.Some? && was.value.Sequence?) ==> prior == None
    ensures Child(Some(Previous(was, Sequence(MarshalMuxers(next)), i)), k)
         == match prior case Some(r) => Child(Some(Mapping(r)), k) case None => None
  {
    PrunedMuxer(next[i], {}, false);
    NoBaselineForMuxers(Mapping(next[i]), |next| == 1, k);
  }

  lemma {:induction false} MuxerLeafChanged(was: Option<Node>, r: Record, k: string)
    requires Shaped(r, MUXER_ZERO) && k in MUXER_ZERO
    ensures Key(MuxerAt(Address(r)), k) in Changed(was, Mapping(r), MuxerAt(Address(r))) <==> Child(was, k) != Some(r[k])
  {
    TablesHoldScalars();
    ScalarsFollow(r, MUXER_ZERO);
    LeafChanged(was, Mapping(r), MuxerAt(Address(r)), k);
  }

  lemma {:induction false} MuxerChanged(prev: Config, next: Config, i: nat, k: string)
    requires WellNamed(prev) && WellNamed(next)
    requires next.muxers.Some? && i < |next.muxers.value| && k in MUXER_ZERO
    ensures var r := next.muxers.value[i];
      var prior := PriorMuxer(prev, Address(r));
      Key(MuxerAt(Address(r)), k) in ChangedKeys(prev, next)
      <==> !(prior.Some? && Child(Some(Mapping(prior.value)), k) == Some(r[k]))
  {
    hide Marshal, Changed, Previous, FindMuxer;
    var list := next.muxers.value;
    var r := list[i];
    var prior := PriorMuxer(prev, Address(r));
    ListNodes(prev);
    ListNodes(next);
    MuxerKeysDistinct(list);
    if prev.muxers.Some? {
      FindMarshalledMuxer(prev.muxers.value, Address(r));
    }
    var at := Key(MuxerAt(Address(r)), k);
    ListItemChanged(Some(Marshal(prev)), Marshal(next), "muxers", i, at);
    PreviousMuxer(Some(MuxersNode(prev)), list, i, k, prior);
    MuxerLeafChanged(Some(Previous(Some(MuxersNode(prev)), MuxersNode(next), i)), r, k);
  }
}
