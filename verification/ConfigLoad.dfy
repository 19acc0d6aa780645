/** The files a load reads into a settled state: the exact condition on the document. */
module ConfigLoad {
  import opened Wrappers
  import opened YamlTree
  import opened ConfigSchema
  import opened ConfigDeclared
  import opened ConfigWriteDeclared
  import opened ConfigRoundTrip
  import opened ConfigCoverage
  import opened ConfigWrites
  import opened ConfigValidate

  /** What the file says the user set. */
  function Declared(doc: Node): set<Path> {
    if doc.Mapping? then DeclaredIn(doc, SCHEMA, Root) else {}
  }

  method DeclaredByWalk(doc: Node) returns (d: set<Path>)
    ensures d == Declared(doc)
  {
    d := {};
    if doc.Mapping? {
      d := DeclaredKeys(doc, SCHEMA, Root, {});
    }
  }

  function Items(doc: Node, list: string): seq<Node> {
    var n := Child(Some(doc), list);
    if n.Some? && n.value.Sequence? then n.value.items else []
  }

  /** A retention block is present and sets no key quince knows. */
  predicate KeylessRetention(item: Node) {
    var r := Child(Some(item), "retention");
    r.Some? && r.value.Mapping? && forall k | k in RETENTION_ZERO :: k !in r.value.m
  }

  predicate NoneKeyless(items: seq<Node>) { forall i | 0 <= i < |items| :: !KeylessRetention(items[i]) }

  predicate NoKeylessRetention(doc: Node) { NoneKeyless(Items(doc, "storage")) }

  /** Some entry of the list holds `k` and has this identity.  A stray `name:` or `path:` in a muxer entry is
      preferred to its address. */
  predicate KeyedUnder(items: seq<Node>, address: string, k: string) {
    exists i :: 0 <= i < |items| && items[i].Mapping? && EntryKey(items[i].m) == address && k in items[i].m
  }

  /** What a muxer says beyond the zero values, some entry says under that muxer's own address. */
  predicate MuxerKeyed(items: seq<Node>, r: Record)
    requires Shaped(r, MUXER_ZERO)
  {
    forall k | k in MUXER_ZERO :: KeyedUnder(items, Address(r), k) || r[k] == MUXER_ZERO[k]
  }

  predicate MuxersKeyed(doc: Node, c: Config)
    requires Typed(c)
  {
    c.muxers.Some? ==> forall i | 0 <= i < |c.muxers.value| :: MuxerKeyed(Items(doc, "muxers"), c.muxers.value[i])
  }

  // ---- what is declared under a key ----

  /** A key of a struct is declared exactly when the document has it. */
  lemma {:induction false} SubKeyDeclared(n: Node, fields: map<string, Shape>, at: Path, sub: string, inner: map<string, Shape>, k: string)
    requires n.Mapping? && sub in fields && fields[sub] == Struct(inner) && k in inner
    ensures Key(Key(at, sub), k) in DeclaredIn(n, fields, at) <==> Child(Child(Some(n), sub), k).Some?
  {
    var p := Key(Key(at, sub), k);
    DeclaredBelow(n, fields, at, sub, p);
    if sub in n.m && n.m[sub].Mapping? {
      DeclaredBelow(n.m[sub], inner, Key(at, sub), k, p);
    }
  }

  lemma {:induction false} KeyDeclared(n: Node, fields: map<string, Shape>, at: Path, k: string)
    requires n.Mapping? && k in fields
    ensures Key(at, k) in DeclaredIn(n, fields, at) <==> k in n.m
  {
    DeclaredBelow(n, fields, at, k, Key(at, k));
  }

  lemma DecodedKey(base: Record, n: Option<Node>, r: Record, k: string)
    requires DecodeRecord(base, n) == Ok(r) && k in base
    ensures k in r && (Child(n, k).None? ==> r[k] == base[k])
  {
  }

  // ---- sections ----

  lemma {:induction false} SectionLoaded(doc: Node, c: Config, s: string, k: string)
    requires Decode(doc) == Ok(c) && s in SECTIONS && k in SECTIONS[s]
    ensures SectionKey(s, k) in Declared(doc) || c.sections[s][k] == SECTIONS[s][k]
  {
    DecodedKey(SECTIONS[s], Child(Some(doc), s), c.sections[s], k);
    if doc.Mapping? {
      ListsAreNotSections();
      SchemaOfSection(s);
      SubKeyDeclared(doc, SCHEMA, Root, s, Leaves(SECTIONS[s]), k);
    }
  }

  // ---- list items ----

  function Kept(items: seq<Node>): seq<Node> {
    if items == [] then [] else (if items[0].Mapping? then [items[0]] else []) + Kept(items[1..])
  }

  lemma {:induction false} KeptItems(items: seq<Node>)
    ensures forall n :: n in Kept(items) <==> n in items && n.Mapping?
  {
    if items != [] {
      KeptItems(items[1..]);
      assert items == [items[0]] + items[1..];
    }
  }

  lemma {:induction false} KeptDecode<T>(items: seq<Node>, decode: Node -> Result<T>, list: seq<T>)
    requires DecodeAll(items, decode) == Ok(list)
    requires forall n :: decode(n).Ok? ==> n.Null? || n.Mapping?
    ensures |Kept(items)| == |list|
    ensures forall i | 0 <= i < |list| :: Kept(items)[i].Mapping? && decode(Kept(items)[i]) == Ok(list[i])
  {
    if items != [] {
      var rest := DecodeAll(items[1..], decode).value;
      KeptDecode(items[1..], decode, rest);
      if items[0].Null? {
        assert Kept(items) == Kept(items[1..]) && list == rest;
      } else {
        assert decode(items[0]).Ok?;
        assert Kept(items) == [items[0]] + Kept(items[1..]) && list == [decode(items[0]).value] + rest;
      }
    }
  }

  /** When the kept items have distinct identities, each one alone decides what is declared under its own. */
  lemma {:induction false} OwnItemDeclares(doc: Node, list: string, fields: map<string, Shape>, items: seq<Node>, i: nat, p: Path)
    requires doc.Mapping? && list in SCHEMA && SCHEMA[list] == ListOf(fields)
    requires Child(Some(doc), list) == Some(Sequence(items))
    requires i < |Kept(items)| && DistinctKeys(Kept(items)) && Within(p, Item(Key(Root, list), EntryKey(Kept(items)[i].m)))
    ensures var item := Kept(items)[i];
      p in Declared(doc) <==> p in DeclaredIn(item, fields, Item(Key(Root, list), EntryKey(item.m)))
  {
    var kept := Kept(items);
    var name := EntryKey(kept[i].m);
    KeptItems(items);
    ItemDeclared(doc, SCHEMA, list, fields, name, p);
    if p in Declared(doc) {
      var j :| 0 <= j < |items| && items[j].Mapping? && EntryKey(items[j].m) == name
               && p in DeclaredIn(items[j], fields, Item(Key(Root, list), name));
      assert items[j] in kept;
    }
    if p in DeclaredIn(kept[i], fields, Item(Key(Root, list), name)) {
      assert kept[i] in kept;
      var j :| 0 <= j < |items| && items[j] == kept[i];
    }
  }

  // ---- storage entries ----

  lemma RawEntryKey(n: Node, e: StorageEntry)
    requires DecodeEntry(n) == Ok(e) && e.path != ""
    ensures n.Mapping? && EntryKey(n.m) == ResolvedEntry(e).name
  {
    hide ZFS_ZERO, SECTIONS, MUXER_ZERO, RETENTION_ZERO, DEFAULT_RETENTION;
  }

  lemma EntryFieldShapes()
    ensures forall k | k in {"name", "path", "default", "backend"} :: k in ENTRY_FIELDS && ENTRY_FIELDS[k] == Leaf
    ensures "zfs" in ENTRY_FIELDS && ENTRY_FIELDS["zfs"] == Struct(Leaves(ZFS_ZERO))
    ensures "retention" in ENTRY_FIELDS && ENTRY_FIELDS["retention"] == Struct(Leaves(RETENTION_ZERO))
  {
  }

  /** `d` declares under `name` exactly what the item `n` holds. */
  predicate DeclaresItem(n: Node, d: set<Path>, name: string) {
    && (forall k | k in {"name", "backend"} :: Key(EntryAt(name), k) in d <==> Child(Some(n), k).Some?)
    && (forall k | k in ZFS_ZERO :: Key(ZfsAt(name), k) in d <==> Child(Child(Some(n), "zfs"), k).Some?)
    && (forall k | k in RETENTION_ZERO :: Key(RetentionAt(name), k) in d <==> Child(Child(Some(n), "retention"), k).Some?)
  }

  lemma {:induction false} ItemDeclaresItself(doc: Node, items: seq<Node>, i: nat)
    requires doc.Mapping? && Child(Some(doc), "storage") == Some(Sequence(items))
    requires i < |Kept(items)| && DistinctKeys(Kept(items))
    ensures var n := Kept(items)[i]; DeclaresItem(n, Declared(doc), EntryKey(n.m))
  {
    var n := Kept(items)[i];
    var name := EntryKey(n.m);
    var at := EntryAt(name);
    SchemaOfStorage();
    EntryFieldShapes();
    forall k | k in {"name", "backend"} ensures Key(at, k) in Declared(doc) <==> Child(Some(n), k).Some? {
      OwnItemDeclares(doc, "storage", ENTRY_FIELDS, items, i, Key(at, k));
      KeyDeclared(n, ENTRY_FIELDS, at, k);
    }
    forall k | k in ZFS_ZERO ensures Key(ZfsAt(name), k) in Declared(doc) <==> Child(Child(Some(n), "zfs"), k).Some? {
      WithinTransitive(Key(ZfsAt(name), k), ZfsAt(name), at);
      OwnItemDeclares(doc, "storage", ENTRY_FIELDS, items, i, Key(ZfsAt(name), k));
      SubKeyDeclared(n, ENTRY_FIELDS, at, "zfs", Leaves(ZFS_ZERO), k);
    }
    forall k | k in RETENTION_ZERO
      ensures Key(RetentionAt(name), k) in Declared(doc) <==> Child(Child(Some(n), "retention"), k).Some?
    {
      WithinTransitive(Key(RetentionAt(name), k), RetentionAt(name), at);
      OwnItemDeclares(doc, "storage", ENTRY_FIELDS, items, i, Key(RetentionAt(name), k));
      SubKeyDeclared(n, ENTRY_FIELDS, at, "retention", Leaves(RETENTION_ZERO), k);
    }
  }

  lemma RetentionLoaded(n: Option<Node>, r: Option<Record>, d: set<Path>, name: string)
    requires DecodeRetention(n) == Ok(r)
    requires forall k | k in RETENTION_ZERO :: Key(RetentionAt(name), k) in d <==> Child(n, k).Some?
    ensures var now := if r.None? then DEFAULT_RETENTION else r.value;
      && now.Keys == RETENTION_ZERO.Keys
      && (RetentionCovered(now, d, name)
          <==> !(n.Some? && n.value.Mapping? && forall k | k in RETENTION_ZERO :: k !in n.value.m))
  {
    if r.Some? {
      forall k | k in RETENTION_ZERO ensures k in r.value && (Child(n, k).None? ==> r.value[k] == RETENTION_ZERO[k]) {
        DecodedKey(RETENTION_ZERO, n, r.value, k);
      }
      assert DEFAULT_RETENTION["keep_recent"] != RETENTION_ZERO["keep_recent"];
    }
  }

  lemma ZfsLoaded(n: Option<Node>, z: Record, d: set<Path>, name: string)
    requires DecodeRecord(ZFS_ZERO, n) == Ok(z)
    requires forall k | k in ZFS_ZERO :: Key(ZfsAt(name), k) in d <==> Child(n, k).Some?
    ensures ZfsCovered(ResolvedZfs(z), d, name)
  {
    forall k | k in ZFS_ZERO ensures Key(ZfsAt(name), k) in d || ResolvedZfs(z)[k] == ZfsDefault()[k] {
      DecodedKey(ZFS_ZERO, n, z, k);
    }
  }

  lemma DecodedEntryParts(n: Node, e: StorageEntry)
    requires DecodeEntry(n) == Ok(e)
    ensures DecodeRecord(ZFS_ZERO, Child(Some(n), "zfs")) == Ok(e.zfs)
    ensures DecodeRetention(Child(Some(n), "retention")) == Ok(e.retention)
    ensures Child(Some(n), "name").None? ==> e.name == ""
    ensures Child(Some(n), "backend").None? ==> e.backend == ""
  {
  }

  /** A loaded entry is covered by its own file unless its retention block is present and keyless. */
  lemma EntryLoaded(n: Node, e: StorageEntry, d: set<Path>)
    requires DecodeEntry(n) == Ok(e) && DeclaresItem(n, d, ResolvedEntry(e).name)
    ensures EntryTyped(ResolvedEntry(e))
    ensures EntryCovered(ResolvedEntry(e), d) <==> !KeylessRetention(n)
  {
    var name := ResolvedEntry(e).name;
    ResolvedEntryTyped(e);
    DecodedEntryParts(n, e);
    ZfsLoaded(Child(Some(n), "zfs"), e.zfs, d, name);
    RetentionLoaded(Child(Some(n), "retention"), e.retention, d, name);
    assert "name" in {"name", "backend"} && "backend" in {"name", "backend"};
  }

  // ---- what acceptance gives ----

  lemma AddressText(r: Record)
    requires Shaped(r, MUXER_ZERO)
    ensures Address(r) == TextAt(r, "address")
  {
    assert SameKind(r["address"], MUXER_ZERO["address"]);
  }

  lemma AcceptedWellNamed(h: Host, c: Config)
    requires Typed(c) && Resolved(c) && Accepted(h, c)
    ensures WellNamed(c)
  {
    hide ZFS_ZERO, SECTIONS, MUXER_ZERO, RETENTION_ZERO, DEFAULT_RETENTION;
    if c.storage.Some? {
      ResolvedParts(c);
      forall i | 0 <= i < |c.storage.value| ensures c.storage.value[i].name != "" && c.storage.value[i].path != "" {
        assert IsAbs(c.storage.value[i].path);
      }
    }
    if c.muxers.Some? {
      forall i | 0 <= i < |c.muxers.value| ensures Address(c.muxers.value[i]) == TextAt(c.muxers.value[i], "address") {
        AddressText(c.muxers.value[i]);
      }
    }
  }

  // ---- the storage list ----

  /** The items a loaded list came from, with what each decodes to. */
  predicate Came(items: seq<Node>, list: seq<StorageEntry>) {
    && |Kept(items)| == |list|
    && forall i | 0 <= i < |list| :: Kept(items)[i].Mapping? && DecodeEntry(Kept(items)[i]).Ok?
         && list[i] == ResolvedEntry(DecodeEntry(Kept(items)[i]).value).(isDefault := list[i].isDefault)
  }

  lemma EntriesDecodeFromMappings()
    ensures forall n :: DecodeEntry(n).Ok? ==> n.Mapping?
  {
  }

  lemma {:induction false} LoadedList(doc: Node, c: Config)
    requires doc.Mapping? && Decode(doc) == Ok(c) && c.storage.Some?
    ensures Child(Some(doc), "storage") == Some(Sequence(Items(doc, "storage")))
    ensures Came(Items(doc, "storage"), c.storage.value)
  {
    var items := Items(doc, "storage");
    var list := DecodeAll(items, DecodeEntry).value;
    EntriesDecodeFromMappings();
    KeptDecode(items, DecodeEntry, list);
    assert c.storage == Some(ResolvedList(list));
    forall i | 0 <= i < |list| ensures c.storage.value[i] == ResolvedIn(list, i) {}
  }

  lemma {:induction false} LoadedKeys(items: seq<Node>, list: seq<StorageEntry>)
    requires Came(items, list) && NamesDistinct(list)
    ensures DistinctKeys(Kept(items))
    ensures forall i | 0 <= i < |list| :: EntryKey(Kept(items)[i].m) == list[i].name
  {
    forall i | 0 <= i < |list| ensures EntryKey(Kept(items)[i].m) == list[i].name {
      RawEntryKey(Kept(items)[i], DecodeEntry(Kept(items)[i]).value);
    }
  }

  lemma {:induction false} ListEntryLoaded(doc: Node, items: seq<Node>, list: seq<StorageEntry>, i: nat)
    requires doc.Mapping? && Child(Some(doc), "storage") == Some(Sequence(items))
    requires Came(items, list) && NamesDistinct(list) && i < |list|
    ensures EntryTyped(list[i]) && list[i].retention.Some?
    ensures EntryCovered(list[i], Declared(doc)) <==> !KeylessRetention(Kept(items)[i])
  {
    LoadedKeys(items, list);
    ItemDeclaresItself(doc, items, i);
    EntryLoaded(Kept(items)[i], DecodeEntry(Kept(items)[i]).value, Declared(doc));
  }

  lemma {:induction false} KeylessKept(items: seq<Node>)
    ensures NoneKeyless(items) <==> NoneKeyless(Kept(items))
  {
    if items != [] {
      KeylessKept(items[1..]);
      assert items == [items[0]] + items[1..];
      assert NoneKeyless(items) <==> !KeylessRetention(items[0]) && NoneKeyless(items[1..]);
      if items[0].Mapping? {
        assert NoneKeyless(Kept(items)) <==> !KeylessRetention(items[0]) && NoneKeyless(Kept(items[1..])) by {
          assert Kept(items)[1..] == Kept(items[1..]) && Kept(items)[0] == items[0];
        }
      } else {
        assert Kept(items) == Kept(items[1..]);
      }
    }
  }

  lemma {:induction false} EntriesLoaded(doc: Node, items: seq<Node>, list: seq<StorageEntry>)
    requires doc.Mapping? && Child(Some(doc), "storage") == Some(Sequence(items))
    requires Came(items, list) && NamesDistinct(list)
    ensures forall i | 0 <= i < |list| :: EntryTyped(list[i]) && list[i].retention.Some?
    ensures (forall i | 0 <= i < |list| :: EntryCovered(list[i], Declared(doc)))
       <==> NoneKeyless(items)
  {
    KeylessKept(items);
    forall i | 0 <= i < |list|
      ensures EntryTyped(list[i]) && list[i].retention.Some?
      ensures EntryCovered(list[i], Declared(doc)) <==> !KeylessRetention(Kept(items)[i])
    {
      ListEntryLoaded(doc, items, list, i);
    }
  }

  lemma {:induction false} ListDeclared(doc: Node)
    requires doc.Mapping?
    ensures STORAGE in Declared(doc) <==> Child(Some(doc), "storage").Some?
    ensures MUXERS in Declared(doc) <==> Child(Some(doc), "muxers").Some?
  {
    SchemaOfStorage();
    SchemaOfMuxers();
    KeyDeclared(doc, SCHEMA, Root, "storage");
    KeyDeclared(doc, SCHEMA, Root, "muxers");
  }

  lemma {:induction false} ListLoaded(doc: Node, items: seq<Node>, c: Config)
    requires doc.Mapping? && Child(Some(doc), "storage") == Some(Sequence(items))
    requires WellNamed(c) && c.storage.Some? && Came(items, c.storage.value)
    ensures StorageCovered(c, Declared(doc)) <==> NoneKeyless(items)
  {
    ListDeclared(doc);
    EntriesLoaded(doc, items, c.storage.value);
  }

  lemma NoListNoItems(doc: Node, c: Config)
    requires Decode(doc) == Ok(c) && c.storage.None?
    ensures Items(doc, "storage") == []
  {
  }

  lemma {:induction false} StorageLoaded(doc: Node, c: Config)
    requires doc.Mapping? && Decode(doc) == Ok(c) && WellNamed(c)
    ensures StorageCovered(c, Declared(doc)) <==> NoKeylessRetention(doc)
  {
    if c.storage.Some? {
      LoadedList(doc, c);
      ListLoaded(doc, Items(doc, "storage"), c);
    } else {
      NoListNoItems(doc, c);
    }
  }

  // ---- muxers ----

  lemma {:induction false} MuxerKeyDeclared(doc: Node, items: seq<Node>, address: string, k: string)
    requires doc.Mapping? && Child(Some(doc), "muxers") == Some(Sequence(items)) && k in MUXER_ZERO
    ensures Key(MuxerAt(address), k) in Declared(doc) <==> KeyedUnder(items, address, k)
  {
    hide EntryKey;
    var p := Key(MuxerAt(address), k);
    SchemaOfMuxers();
    ItemDeclared(doc, SCHEMA, "muxers", Leaves(MUXER_ZERO), address, p);
    forall i | 0 <= i < |items| && items[i].Mapping?
      ensures p in DeclaredIn(items[i], Leaves(MUXER_ZERO), MuxerAt(address)) <==> k in items[i].m
    {
      KeyDeclared(items[i], Leaves(MUXER_ZERO), MuxerAt(address), k);
    }
  }

  lemma MuxerListPresent(doc: Node, c: Config)
    requires doc.Mapping? && Decode(doc) == Ok(c) && c.muxers.Some?
    ensures Child(Some(doc), "muxers") == Some(Sequence(Items(doc, "muxers")))
  {
  }

  lemma {:induction false} MuxerLoaded(doc: Node, items: seq<Node>, r: Record)
    requires doc.Mapping? && Child(Some(doc), "muxers") == Some(Sequence(items)) && Shaped(r, MUXER_ZERO)
    ensures MuxerCovered(r, Declared(doc)) <==> MuxerKeyed(items, r)
  {
    hide Declared, KeyedUnder, Shaped;
    forall k | k in MUXER_ZERO ensures Key(MuxerAt(Address(r)), k) in Declared(doc) <==> KeyedUnder(items, Address(r), k) {
      MuxerKeyDeclared(doc, items, Address(r), k);
    }
  }

  lemma {:induction false} MuxersLoaded(doc: Node, c: Config)
    requires doc.Mapping? && Decode(doc) == Ok(c)
    ensures MuxersCovered(c, Declared(doc)) <==> MuxersKeyed(doc, c)
  {
    if c.muxers.Some? {
      MuxerListPresent(doc, c);
      ListDeclared(doc);
      hide Decode, Declared, MuxerKeyed, MuxerCovered, Shaped;
      forall i | 0 <= i < |c.muxers.value|
        ensures MuxerCovered(c.muxers.value[i], Declared(doc)) <==> MuxerKeyed(Items(doc, "muxers"), c.muxers.value[i])
      {
        MuxerLoaded(doc, Items(doc, "muxers"), c.muxers.value[i]);
      }
    }
  }

  // ---- the whole document ----

  lemma {:induction false} KeptIndex(items: seq<Node>, i: nat) returns (j: nat)
    requires i < |items| && items[i].Mapping?
    ensures j < |Kept(items)| && Kept(items)[j] == items[i]
  {
    if i == 0 {
      j := 0;
    } else {
      j := KeptIndex(items[1..], i - 1);
      j := if items[0].Mapping? then j + 1 else j;
    }
  }

  lemma {:induction false} DeclaredNames(doc: Node, p: Path, name: string) returns (j: nat)
    requires p in Declared(doc) && Within(p, EntryAt(name))
    ensures Child(Some(doc), "storage").Some? && Child(Some(doc), "storage").value.Sequence?
    ensures var kept := Kept(Items(doc, "storage"));
      j < |kept| && kept[j].Mapping? && EntryKey(kept[j].m) == name
  {
    hide EntryKey, DeclaredInItems, DeclaredAt, Kept;
    SchemaOfStorage();
    ItemDeclared(doc, SCHEMA, "storage", ENTRY_FIELDS, name, p);
    var items := Items(doc, "storage");
    var i :| 0 <= i < |items| && items[i].Mapping? && EntryKey(items[i].m) == name;
    j := KeptIndex(items, i);
  }

  lemma {:induction false} NameIsLive(doc: Node, items: seq<Node>, list: seq<StorageEntry>, p: Path, name: string)
    requires p in Declared(doc) && Within(p, EntryAt(name))
    requires items == Items(doc, "storage") && Came(items, list) && NamesDistinct(list)
    ensures exists j :: 0 <= j < |list| && list[j].name == name
  {
    var j := DeclaredNames(doc, p, name);
    LoadedKeys(items, list);
    assert list[j].name == name;
  }

  lemma {:induction false} NothingStale(doc: Node, c: Config)
    requires Decode(doc) == Ok(c) && WellNamed(c)
    ensures NoStale(c, Declared(doc))
  {
    hide ZFS_ZERO, SECTIONS, MUXER_ZERO, RETENTION_ZERO, DEFAULT_RETENTION;
    forall p | p in Declared(doc) && WholeName(p).Some? ensures WholeName(p).value in Names(c.storage) {
      WithinOfName(p);
      if c.storage.Some? {
        LoadedList(doc, c);
        NameIsLive(doc, Items(doc, "storage"), c.storage.value, p, WholeName(p).value);
      } else {
        var j := DeclaredNames(doc, p, WholeName(p).value);
        NoListNoItems(doc, c);
        assert false;
      }
    }
  }

  lemma DecodeResolves(doc: Node)
    requires Decode(doc).Ok?
    ensures Resolved(Decode(doc).value)
  {
    ResolveIdempotent(DecodeStorage(Child(Some(doc), "storage")).value);
  }

  lemma {:induction false} SectionsLoaded(doc: Node, c: Config)
    requires Decode(doc) == Ok(c)
    ensures SectionsCovered(c, Declared(doc))
  {
    forall s, k | s in SECTIONS && k in SECTIONS[s]
      ensures SectionKey(s, k) in Declared(doc) || c.sections[s][k] == SECTIONS[s][k]
    {
      SectionLoaded(doc, c, s, k);
    }
  }

  lemma {:induction false} LoadedCovered(doc: Node, c: Config)
    requires Decode(doc) == Ok(c) && WellNamed(c)
    ensures Covered(c, Declared(doc)) <==> NoKeylessRetention(doc) && MuxersKeyed(doc, c)
  {
    hide ZFS_ZERO, SECTIONS, MUXER_ZERO, RETENTION_ZERO, DEFAULT_RETENTION;
    SectionsLoaded(doc, c);
    if doc.Mapping? {
      StorageLoaded(doc, c);
      MuxersLoaded(doc, c);
    } else {
      assert Child(Some(doc), "storage").None? && Child(Some(doc), "muxers").None?;
    }
  }

  /** A file that loads is settled exactly when no retention block in it is present and keyless, and every
      muxer's values stand under its own address. */
  lemma {:induction false} LoadedSettled(h: Host, doc: Node, c: Config)
    requires Decode(doc) == Ok(c) && Accepted(h, c)
    ensures Settled(c, Declared(doc)) <==> NoKeylessRetention(doc) && MuxersKeyed(doc, c)
  {
    DecodeResolves(doc);
    AcceptedWellNamed(h, c);
    NothingStale(doc, c);
    LoadedCovered(doc, c);
  }
}
