/** When a written document parses back to the configuration it was written from. */
module ConfigRoundTrip {
  import opened Wrappers
  import opened YamlTree
  import opened ConfigSchema
  import opened ConfigDeclared

  // ---- the full document ----

  lemma DecodeWholeRecord(base: Record, r: Record)
    requires Shaped(r, base) && Scalars(base)
    ensures DecodeRecord(base, Some(Mapping(r))) == Ok(r)
  {
    assert forall k | k in base :: Child(Some(Mapping(r)), k) == Some(r[k]);
    assert (map k | k in base :: Field(base[k], Child(Some(Mapping(r)), k))) == r;
  }

  /** An entry decodes by parts. */
  lemma DecodeEntryByParts(n: Node, name: Option<Node>, path: Option<Node>, isDefault: Option<Node>, backend: Option<Node>,
                           zfs: Record, retention: Option<Record>)
    requires n.Mapping?
    requires Child(Some(n), "name") == name && FieldDecodes(Str(""), name)
    requires Child(Some(n), "path") == path && FieldDecodes(Str(""), path)
    requires Child(Some(n), "default") == isDefault && FieldDecodes(Bool(false), isDefault)
    requires Child(Some(n), "backend") == backend && FieldDecodes(Str(""), backend)
    requires DecodeRecord(ZFS_ZERO, Child(Some(n), "zfs")) == Ok(zfs)
    requires DecodeRetention(Child(Some(n), "retention")) == Ok(retention)
    ensures DecodeEntry(n) == Ok(StorageEntry(Field(Str(""), name).s, Field(Str(""), path).s,
                                              Field(Bool(false), isDefault).b, Field(Str(""), backend).s, zfs, retention))
  {
  }

  lemma DecodeWholeEntry(e: StorageEntry)
    requires EntryTyped(e) && e.retention.Some?
    ensures DecodeEntry(MarshalEntry(e)) == Ok(e)
  {
    TablesHoldScalars();
    DecodeWholeRecord(ZFS_ZERO, e.zfs);
    DecodeWholeRecord(RETENTION_ZERO, e.retention.value);
    var n := MarshalEntry(e);
    DecodeEntryByParts(n, Some(Str(e.name)), Some(Str(e.path)), Some(Bool(e.isDefault)), Some(Str(e.backend)), e.zfs, e.retention);
  }

  lemma DecodeWholeEntryWithoutRetention(e: StorageEntry)
    requires EntryTyped(e) && e.retention.None?
    ensures DecodeEntry(MarshalEntry(e)) == Ok(e)
  {
    TablesHoldScalars();
    DecodeWholeRecord(ZFS_ZERO, e.zfs);
    var n := MarshalEntry(e);
    DecodeEntryByParts(n, Some(Str(e.name)), Some(Str(e.path)), Some(Bool(e.isDefault)), Some(Str(e.backend)), e.zfs, e.retention);
  }

  /** A list of mappings that each decode to the element in the same place decodes to the list. */
  lemma {:induction false} DecodeEach<T>(items: seq<Node>, decode: Node -> Result<T>, list: seq<T>)
    requires |items| == |list|
    requires forall i | 0 <= i < |items| :: items[i].Mapping? && decode(items[i]) == Ok(list[i])
    ensures DecodeAll(items, decode) == Ok(list)
  {
    if items != [] {
      DecodeEach(items[1..], decode, list[1..]);
      assert [list[0]] + list[1..] == list;
    }
  }

  /** Decoding is by parts: the sections, the storage list and the muxer list each on their own. */
  lemma DecodeByParts(doc: Node, c: Config)
    requires doc.Mapping? && Typed(c)
    requires forall s | s in SECTIONS :: DecodeRecord(SECTIONS[s], Child(Some(doc), s)) == Ok(c.sections[s])
    requires DecodeStorage(Child(Some(doc), "storage")) == Ok(c.storage)
    requires DecodeMuxerList(Child(Some(doc), "muxers")) == Ok(c.muxers)
    ensures Decode(doc) == Ok(Config(c.sections, ResolveStorages(c.storage), c.muxers))
  {
    assert (map s | s in SECTIONS :: DecodeRecord(SECTIONS[s], Child(Some(doc), s)).value) == c.sections;
  }

  lemma MarshalParts(c: Config)
    requires Typed(c)
    ensures Marshal(c).m.Keys == SECTIONS.Keys + {"storage", "muxers"}
    ensures forall s | s in SECTIONS :: Marshal(c).m[s] == Mapping(c.sections[s])
    ensures Marshal(c).m["storage"] == StorageNode(c) && Marshal(c).m["muxers"] == MuxersNode(c)
  {
    ListsAreNotSections();
  }

  lemma MarshalledStorageDecodes(list: seq<StorageEntry>)
    requires forall e | e in list :: EntryTyped(e)
    ensures DecodeAll(MarshalStorage(list), DecodeEntry) == Ok(list)
  {
    forall i | 0 <= i < |list|
      ensures DecodeEntry(MarshalStorage(list)[i]) == Ok(list[i])
    {
      if list[i].retention.Some? { DecodeWholeEntry(list[i]); } else { DecodeWholeEntryWithoutRetention(list[i]); }
    }
    DecodeEach(MarshalStorage(list), DecodeEntry, list);
  }

  lemma MarshalledMuxersDecode(list: seq<Record>)
    requires forall r | r in list :: Shaped(r, MUXER_ZERO)
    ensures DecodeAll(MarshalMuxers(list), DecodeMuxer) == Ok(list)
  {
    TablesHoldScalars();
    forall i | 0 <= i < |list|
      ensures DecodeMuxer(MarshalMuxers(list)[i]) == Ok(list[i])
    {
      DecodeWholeRecord(MUXER_ZERO, list[i]);
    }
    DecodeEach(MarshalMuxers(list), DecodeMuxer, list);
  }

  /** The canonical document always means the configuration it was written from, resolved. */
  lemma MarshalDecodes(c: Config)
    requires Typed(c)
    ensures Decode(Marshal(c)) == Ok(c.(storage := ResolveStorages(c.storage)))
  {
    hide ZFS_ZERO, SECTIONS, MUXER_ZERO, RETENTION_ZERO, DEFAULT_RETENTION;
    var doc := Marshal(c);
    MarshalParts(c);
    forall s | s in SECTIONS
      ensures DecodeRecord(SECTIONS[s], Child(Some(doc), s)) == Ok(c.sections[s])
    {
      SectionsHoldScalars(s);
      DecodeWholeRecord(SECTIONS[s], c.sections[s]);
    }
    if c.storage.Some? { MarshalledStorageDecodes(c.storage.value); }
    if c.muxers.Some? { MarshalledMuxersDecode(c.muxers.value); }
    DecodeByParts(doc, c);
  }

  /** The fallback of the write path is right for every resolved document, and for no other. */
  lemma FullDocumentRoundTrips(c: Config)
    requires Typed(c)
    ensures Decode(Marshal(c)) == Ok(c) <==> Resolved(c)
  {
    MarshalDecodes(c);
  }

  // ---- the pruned document ----

  /** What a flat record reads back as once its undeclared keys are gone. */
  function Reread(r: Record, base: Record, d: set<Path>, at: Path): Record
    requires r.Keys == base.Keys
  {
    map k | k in base :: if Key(at, k) in d then r[k] else base[k]
  }

  /** The pruned form of a flat record as its parent holds it: absent once it is empty. */
  function PrunedChild(r: Record, d: set<Path>, at: Path): Option<Node> {
    var kept := PrunedMapping(Mapping(r), d, at, {});
    if kept == map[] then None else Some(Mapping(kept))
  }

  lemma PrunedRecord(r: Record, d: set<Path>, at: Path)
    requires Scalars(r)
    ensures PrunedMapping(Mapping(r), d, at, {}) == map k | k in r && Key(at, k) in d :: r[k]
  {
  }

  lemma ScalarsFollow(r: Record, base: Record)
    requires Shaped(r, base) && Scalars(base)
    ensures Scalars(r)
  {
    assert forall k | k in base :: SameKind(r[k], base[k]);
  }

  lemma PrunedRecordDecodes(r: Record, base: Record, d: set<Path>, at: Path)
    requires Shaped(r, base) && Scalars(base)
    ensures DecodeRecord(base, PrunedChild(r, d, at)) == Ok(Reread(r, base, d, at))
    ensures PrunedChild(r, d, at).None? <==> forall k | k in base :: Key(at, k) !in d
  {
    ScalarsFollow(r, base);
    PrunedRecord(r, d, at);
    var kept := PrunedMapping(Mapping(r), d, at, {});
    if kept == map[] {
      forall k | k in base ensures Key(at, k) !in d {
        assert k !in kept;
      }
      assert Reread(r, base, d, at) == base;
    } else {
      var k :| k in kept;
      assert Key(at, k) in d && k in base;
      var n := Some(Mapping(kept));
      forall k | k in base
        ensures FieldDecodes(base[k], Child(n, k)) && Field(base[k], Child(n, k)) == Reread(r, base, d, at)[k]
      {
        assert SameKind(r[k], base[k]);
      }
      assert (map k | k in base :: Field(base[k], Child(n, k))) == Reread(r, base, d, at);
    }
  }

  function RetentionAt(name: string): Path { Key(EntryAt(name), "retention") }

  function ZfsAt(name: string): Path { Key(EntryAt(name), "zfs") }

  /** No key of the entry's retention block is declared. */
  predicate NoRetention(d: set<Path>, name: string) {
    forall k | k in RETENTION_ZERO :: Key(RetentionAt(name), k) !in d
  }

  /** What an entry reads back as, before resolution. */
  function RereadEntry(e: StorageEntry, d: set<Path>, several: bool): StorageEntry
    requires EntryTyped(e) && e.retention.Some?
  {
    var at := EntryAt(e.name);
    StorageEntry(
      if Key(at, "name") in d then e.name else "",
      e.path,
      e.isDefault && (several || Key(at, "default") in d),
      if Key(at, "backend") in d then e.backend else "",
      Reread(e.zfs, ZFS_ZERO, d, ZfsAt(e.name)),
      if NoRetention(d, e.name) then None
      else Some(Reread(e.retention.value, RETENTION_ZERO, d, RetentionAt(e.name))))
  }

  function PrunedEntry(e: StorageEntry, d: set<Path>, several: bool): map<string, Node> {
    PrunedMapping(MarshalEntry(e), d, EntryAt(e.name), KeptInItem(MarshalEntry(e), several))
  }

  lemma PrunedLeaf(n: Node, d: set<Path>, at: Path, keep: set<string>, k: string)
    requires n.Mapping? && k in n.m && !n.m[k].Mapping? && !n.m[k].Sequence?
    ensures Child(Some(Mapping(PrunedMapping(n, d, at, keep))), k)
         == if Key(at, k) in d || k in keep then Some(n.m[k]) else None
  {
  }

  lemma PrunedSub(n: Node, d: set<Path>, at: Path, keep: set<string>, k: string, r: Record)
    requires n.Mapping? && k in n.m && n.m[k] == Mapping(r)
    ensures Child(Some(Mapping(PrunedMapping(n, d, at, keep))), k) == PrunedChild(r, d, Key(at, k))
  {
  }

  lemma EntryNodeParts(e: StorageEntry, several: bool)
    requires e.retention.Some?
    ensures var m := MarshalEntry(e).m;
      && m.Keys == {"name", "path", "default", "backend", "zfs", "retention"}
      && m["name"] == Str(e.name) && m["path"] == Str(e.path) && m["default"] == Bool(e.isDefault)
      && m["backend"] == Str(e.backend) && m["zfs"] == Mapping(e.zfs) && m["retention"] == Mapping(e.retention.value)
    ensures var keep := KeptInItem(MarshalEntry(e), several);
      "path" in keep && ("default" in keep <==> several && e.isDefault) && "name" !in keep && "backend" !in keep
  {
    assert "path" != "name" && "path" != "backend" && "path" != "default" && "default" != "name" && "default" != "backend";
  }

  lemma PrunedEntryParts(e: StorageEntry, d: set<Path>, several: bool)
    requires e.retention.Some?
    ensures var n := Some(Mapping(PrunedEntry(e, d, several)));
      var at := EntryAt(e.name);
      && Child(n, "name") == (if Key(at, "name") in d then Some(Str(e.name)) else None)
      && Child(n, "path") == Some(Str(e.path))
      && Child(n, "default") ==
         (if Key(at, "default") in d || (several && e.isDefault) then Some(Bool(e.isDefault)) else None)
      && Child(n, "backend") == (if Key(at, "backend") in d then Some(Str(e.backend)) else None)
      && Child(n, "zfs") == PrunedChild(e.zfs, d, ZfsAt(e.name))
      && Child(n, "retention") == PrunedChild(e.retention.value, d, RetentionAt(e.name))
  {
    EntryNodeParts(e, several);
    var item, at, keep := MarshalEntry(e), EntryAt(e.name), KeptInItem(MarshalEntry(e), several);
    PrunedLeaf(item, d, at, keep, "name");
    PrunedLeaf(item, d, at, keep, "path");
    PrunedLeaf(item, d, at, keep, "default");
    PrunedLeaf(item, d, at, keep, "backend");
    PrunedSub(item, d, at, keep, "zfs", e.zfs);
    PrunedSub(item, d, at, keep, "retention", e.retention.value);
  }

  lemma PrunedRetentionDecodes(r: Record, d: set<Path>, name: string)
    requires Shaped(r, RETENTION_ZERO)
    ensures DecodeRetention(PrunedChild(r, d, RetentionAt(name)))
         == Ok(if NoRetention(d, name) then None else Some(Reread(r, RETENTION_ZERO, d, RetentionAt(name))))
  {
    TablesHoldScalars();
    PrunedRecordDecodes(r, RETENTION_ZERO, d, RetentionAt(name));
  }

  lemma PrunedZfsDecodes(z: Record, d: set<Path>, name: string)
    requires Shaped(z, ZFS_ZERO)
    ensures DecodeRecord(ZFS_ZERO, PrunedChild(z, d, ZfsAt(name))) == Ok(Reread(z, ZFS_ZERO, d, ZfsAt(name)))
  {
    TablesHoldScalars();
    PrunedRecordDecodes(z, ZFS_ZERO, d, ZfsAt(name));
  }

  lemma PrunedEntryDecodes(e: StorageEntry, d: set<Path>, several: bool)
    requires EntryTyped(e) && e.retention.Some?
    ensures DecodeEntry(Mapping(PrunedEntry(e, d, several))) == Ok(RereadEntry(e, d, several))
  {
    PrunedEntryParts(e, d, several);
    PrunedZfsDecodes(e.zfs, d, e.name);
    PrunedRetentionDecodes(e.retention.value, d, e.name);
    var n := Mapping(PrunedEntry(e, d, several));
    var reread := RereadEntry(e, d, several);
    DecodeEntryByParts(n, Child(Some(n), "name"), Child(Some(n), "path"), Child(Some(n), "default"),
      Child(Some(n), "backend"), reread.zfs, reread.retention);
  }

  // ---- the whole document ----

  lemma PrunedList(n: Node, d: set<Path>, k: string)
    requires n.Mapping? && k in n.m && (n.m[k].Null? || n.m[k].Sequence?)
    ensures Child(Some(Mapping(PrunedMapping(n, d, Root, {}))), k)
         == if (n.m[k].Sequence? && n.m[k].items != []) || Key(Root, k) in d then Some(Pruned(n.m[k], d, Key(Root, k))) else None
  {
  }

  lemma PrunedTop(c: Config, d: set<Path>)
    requires Typed(c)
    ensures var doc := Some(MarshalDeclared(c, d));
      && (forall s | s in SECTIONS :: Child(doc, s) == PrunedChild(c.sections[s], d, Key(Root, s)))
      && Child(doc, "storage") ==
         (if c.storage.None? then if STORAGE in d then Some(Null) else None
          else if c.storage.value == [] && STORAGE !in d then None
          else Some(Pruned(StorageNode(c), d, STORAGE)))
      && Child(doc, "muxers") ==
         (if c.muxers.None? then if MUXERS in d then Some(Null) else None
          else if c.muxers.value == [] && MUXERS !in d then None
          else Some(Pruned(MuxersNode(c), d, MUXERS)))
  {
    MarshalParts(c);
    var n := Marshal(c);
    forall s | s in SECTIONS
      ensures Child(Some(MarshalDeclared(c, d)), s) == PrunedChild(c.sections[s], d, Key(Root, s))
    {
      PrunedSub(n, d, Root, {}, s, c.sections[s]);
    }
    PrunedList(n, d, "storage");
    PrunedList(n, d, "muxers");
  }

  /** A resolved entry's identity is its name. */
  lemma ResolvedKey(e: StorageEntry)
    requires e.name == "" ==> e.path == ""
    ensures EntryKey(MarshalEntry(e).m) == e.name
  {
  }

  function RereadList(list: seq<StorageEntry>, d: set<Path>): seq<StorageEntry>
    requires forall e | e in list :: EntryTyped(e) && e.retention.Some?
  {
    seq(|list|, i requires 0 <= i < |list| => RereadEntry(list[i], d, |list| > 1))
  }

  lemma PrunedStorageDecodes(list: seq<StorageEntry>, d: set<Path>)
    requires forall e | e in list :: EntryTyped(e) && e.retention.Some? && (e.name == "" ==> e.path == "")
    ensures DecodeStorage(Some(Pruned(Sequence(MarshalStorage(list)), d, STORAGE))) == Ok(Some(RereadList(list, d)))
  {
    var n := Sequence(MarshalStorage(list));
    var items := Pruned(n, d, STORAGE).items;
    forall i | 0 <= i < |list|
      ensures items[i].Mapping? && DecodeEntry(items[i]) == Ok(RereadList(list, d)[i])
    {
      ResolvedKey(list[i]);
      PrunedEntryDecodes(list[i], d, |list| > 1);
      assert items[i] == PrunedItem(n, i, d, STORAGE) == Mapping(PrunedEntry(list[i], d, |list| > 1));
    }
    DecodeEach(items, DecodeEntry, RereadList(list, d));
  }

  function Address(r: Record): string
    requires Shaped(r, MUXER_ZERO)
  {
    assert SameKind(r["address"], MUXER_ZERO["address"]);
    r["address"].s
  }

  lemma EmptyMappingDecodes(base: Record)
    ensures DecodeRecord(base, Some(Mapping(map[]))) == Ok(base)
  {
    assert (map k | k in base :: Field(base[k], Child(Some(Mapping(map[])), k))) == base;
  }

  function RereadMuxers(list: seq<Record>, d: set<Path>): seq<Record>
    requires forall r | r in list :: Shaped(r, MUXER_ZERO)
  {
    seq(|list|, i requires 0 <= i < |list| => Reread(list[i], MUXER_ZERO, d, MuxerAt(Address(list[i]))))
  }

  lemma PrunedMuxer(r: Record, d: set<Path>, several: bool)
    requires Shaped(r, MUXER_ZERO)
    ensures EntryKey(r) == Address(r)
    ensures PrunedMapping(Mapping(r), d, MuxerAt(Address(r)), KeptInItem(Mapping(r), several))
         == PrunedMapping(Mapping(r), d, MuxerAt(Address(r)), {})
  {
    TablesHoldScalars();
    ScalarsFollow(r, MUXER_ZERO);
    assert r.Keys == {"address", "type"};
    assert "path" !in r && "default" !in r && "name" !in r;
  }

  lemma PrunedMuxersDecode(list: seq<Record>, d: set<Path>)
    requires forall r | r in list :: Shaped(r, MUXER_ZERO)
    ensures DecodeMuxerList(Some(Pruned(Sequence(MarshalMuxers(list)), d, MUXERS))) == Ok(Some(RereadMuxers(list, d)))
  {
    var n := Sequence(MarshalMuxers(list));
    var items := Pruned(n, d, MUXERS).items;
    TablesHoldScalars();
    forall i | 0 <= i < |list|
      ensures items[i].Mapping? && DecodeMuxer(items[i]) == Ok(RereadMuxers(list, d)[i])
    {
      var at := MuxerAt(Address(list[i]));
      PrunedMuxer(list[i], d, |list| > 1);
      PrunedRecordDecodes(list[i], MUXER_ZERO, d, at);
      EmptyMappingDecodes(MUXER_ZERO);
      assert items[i] == PrunedItem(n, i, d, MUXERS) == Mapping(PrunedMapping(Mapping(list[i]), d, at, {}));
    }
    DecodeEach(items, DecodeMuxer, RereadMuxers(list, d));
  }

  /** What a pruned document reads back as, before resolution. */
  function RereadConfig(c: Config, d: set<Path>): Config
    requires Typed(c) && Resolved(c)
  {
    Config(
      map s | s in SECTIONS :: Reread(c.sections[s], SECTIONS[s], d, Key(Root, s)),
      if c.storage.None? || (c.storage.value == [] && STORAGE !in d) then None
      else ResolvedParts(c); Some(RereadList(c.storage.value, d)),
      if c.muxers.None? || (c.muxers.value == [] && MUXERS !in d) then None
      else Some(RereadMuxers(c.muxers.value, d)))
  }

  lemma ResolvedParts(c: Config)
    requires Typed(c) && Resolved(c) && c.storage.Some?
    ensures forall i | 0 <= i < |c.storage.value| :: var e := c.storage.value[i];
      && e == ResolvedIn(c.storage.value, i) && e.retention.Some? && (e.name == "" ==> e.path == "")
  {
    forall i | 0 <= i < |c.storage.value|
      ensures c.storage.value[i] == ResolvedIn(c.storage.value, i)
    {
      assert ResolvedList(c.storage.value)[i] == ResolvedIn(c.storage.value, i);
    }
  }

  lemma RereadShaped(r: Record, base: Record, d: set<Path>, at: Path)
    requires Shaped(r, base)
    ensures Shaped(Reread(r, base, d, at), base)
  {
    assert forall k | k in base :: SameKind(r[k], base[k]);
  }

  lemma RereadEntryTyped(e: StorageEntry, d: set<Path>, several: bool)
    requires EntryTyped(e) && e.retention.Some?
    ensures EntryTyped(RereadEntry(e, d, several))
  {
    RereadShaped(e.zfs, ZFS_ZERO, d, ZfsAt(e.name));
    RereadShaped(e.retention.value, RETENTION_ZERO, d, RetentionAt(e.name));
  }

  lemma RereadTyped(c: Config, d: set<Path>)
    requires Typed(c) && Resolved(c)
    ensures Typed(RereadConfig(c, d))
  {
    hide ZFS_ZERO, SECTIONS, MUXER_ZERO, RETENTION_ZERO, DEFAULT_RETENTION;
    var r := RereadConfig(c, d);
    forall s | s in SECTIONS ensures Shaped(r.sections[s], SECTIONS[s]) {
      RereadShaped(c.sections[s], SECTIONS[s], d, Key(Root, s));
    }
    if r.storage.Some? {
      ResolvedParts(c);
      forall i | 0 <= i < |r.storage.value| ensures EntryTyped(r.storage.value[i]) {
        RereadEntryTyped(c.storage.value[i], d, |c.storage.value| > 1);
      }
    }
    if r.muxers.Some? {
      forall i | 0 <= i < |r.muxers.value| ensures Shaped(r.muxers.value[i], MUXER_ZERO) {
        RereadShaped(c.muxers.value[i], MUXER_ZERO, d, MuxerAt(Address(c.muxers.value[i])));
      }
    }
  }

  lemma PrunedDecodes(c: Config, d: set<Path>)
    requires Typed(c) && Resolved(c)
    ensures Typed(RereadConfig(c, d))
    ensures var r := RereadConfig(c, d);
      Decode(MarshalDeclared(c, d)) == Ok(Config(r.sections, ResolveStorages(r.storage), r.muxers))
  {
    hide ZFS_ZERO, SECTIONS, MUXER_ZERO, RETENTION_ZERO, DEFAULT_RETENTION;
    var doc, r := MarshalDeclared(c, d), RereadConfig(c, d);
    RereadTyped(c, d);
    PrunedTop(c, d);
    forall s | s in SECTIONS
      ensures DecodeRecord(SECTIONS[s], Child(Some(doc), s)) == Ok(r.sections[s])
    {
      SectionsHoldScalars(s);
      PrunedRecordDecodes(c.sections[s], SECTIONS[s], d, Key(Root, s));
    }
    if c.storage.Some? {
      ResolvedParts(c);
      PrunedStorageDecodes(c.storage.value, d);
    }
    if c.muxers.Some? {
      PrunedMuxersDecode(c.muxers.value, d);
    }
    DecodeByParts(doc, r);
  }
}
