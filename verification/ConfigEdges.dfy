/** The writes and files the tidy form cannot carry, one concrete instance of each family. */
module ConfigEdges {
  import opened Wrappers
  import opened YamlTree
  import opened ConfigSchema
  import opened ConfigDeclared
  import opened ConfigWriteDeclared
  import opened ConfigRoundTrip
  import opened ConfigCoverage
  import opened ConfigWrites
  import opened ConfigTidy
  import opened ConfigLoad

  // One storage, declared by its path alone.
  function Lone(): StorageEntry { PathOnly("/a", true) }

  function Before(list: seq<StorageEntry>): Config { Default().(storage := Some(list)) }

  function Said(): set<Path> { {STORAGE, Key(EntryAt("/a"), "path")} }

  predicate Sound(e: StorageEntry) {
    EntryTyped(e) && e.retention.Some? && ResolvedEntry(e) == e && e.name != "" && e.path != ""
  }

  lemma LoneSound()
    ensures Sound(Lone()) && Lone().isDefault
    ensures Lone().name == "/a" && Lone().path == "/a" && Lone().retention == Some(DEFAULT_RETENTION)
  {
    PathOnlyTyped("/a", true);
    ResolvedEntryTyped(StorageEntry("", "/a", false, "", ZFS_ZERO, None));
  }

  lemma SoundVariant(f: StorageEntry)
    requires f.zfs == Lone().zfs && f.backend == Lone().backend && f.name != "" && f.path != ""
    requires f.retention.Some? && Shaped(f.retention.value, RETENTION_ZERO)
    ensures Sound(f)
  {
    LoneSound();
  }

  lemma OneWellNamed(e: StorageEntry, muxers: Option<seq<Record>>)
    requires Sound(e) && e.isDefault && (muxers.Some? ==> muxers.value == [])
    ensures WellNamed(Before([e]).(muxers := muxers))
  {
    var c := Before([e]).(muxers := muxers);
    assert ResolvedList([e]) == [e];
  }

  lemma TwoWellNamed(a: StorageEntry, b: StorageEntry)
    requires Sound(a) && Sound(b) && a.name != b.name
    ensures WellNamed(Before([a, b]))
  {
    hide ZFS_ZERO;
    assert ResolvedList([a, b]) == [a, b];
  }

  lemma LoneSettled()
    ensures Settled(Before([Lone()]), Said()) && WellNamed(Before([Lone()]))
  {
    hide ZFS_ZERO, SECTIONS, MUXER_ZERO, RETENTION_ZERO, DEFAULT_RETENTION;
    LoneSound();
    OneWellNamed(Lone(), None);
    var e, d := Lone(), Said();
    PathOnlyTyped("/a", true);
    forall k | k in RETENTION_ZERO ensures Key(RetentionAt("/a"), k) !in d {
      assert Key(RetentionAt("/a"), k).of == RetentionAt("/a");
    }
    assert EntryCovered(e, d);
    assert Names(Some([e])) == {"/a"} by {
      assert [e][0].name == "/a";
    }
    assert WholeName(Key(EntryAt("/a"), "path")) == Some("/a");
  }

  /** A full-document write that moves an entry's path while its name is only implied by the old path. */
  lemma PathMovedUnderImpliedName()
    ensures var prev, next := Before([Lone()]), Before([Lone().(path := "/b")]);
      Settled(prev, Said()) && WellNamed(next)
      && Decode(MarshalDeclared(next, DeclaredAfter(prev, Said(), next))) != Ok(next)
  {
    hide ZFS_ZERO, SECTIONS, MUXER_ZERO;
    hide Decode, MarshalDeclared, DeclaredAfter, Settled, WellNamed, Lone, Sound, PathOnly, ComparedWith;
    LoneSound();
    LoneSettled();
    var e := Lone().(path := "/b");
    assert Shaped(DEFAULT_RETENTION, RETENTION_ZERO);
    var prev, next := Before([Lone()]), Before([e]);
    SoundVariant(e);
    OneWellNamed(e, None);
    TidyWritesExactly(prev, Said(), next);
    FoundAlone(prev, next, e);
    assert !EntryTidy(prev, Said(), next, next.storage.value[0]);
  }

  lemma FoundAlone(prev: Config, next: Config, e: StorageEntry)
    requires prev == Before([Lone()]) && next == Before([e]) && e.name == "/a"
    ensures ComparedWith(prev, next, e) == Lone()
    ensures CutName("/a") in Names(next.storage)
  {
    LoneSound();
    assert [Lone()][|[Lone()]| - 1] == Lone();
    CutNameWhole("/a");
    assert next.storage.value[0].name == "/a";
  }

  /** A retention policy changed in one key of three: the block comes back with zeros in the other two. */
  lemma RetentionChangedInPart()
    ensures var e := Lone().(retention := Some(DEFAULT_RETENTION["keep_daily" := Int(5)]));
      var prev, next := Before([Lone()]), Before([e]);
      Settled(prev, Said()) && WellNamed(next)
      && Decode(MarshalDeclared(next, DeclaredAfter(prev, Said(), next))) != Ok(next)
  {
    hide ZFS_ZERO, SECTIONS, MUXER_ZERO;
    hide Decode, MarshalDeclared, DeclaredAfter, Settled, WellNamed, Lone, Sound, PathOnly, ComparedWith;
    LoneSound();
    LoneSettled();
    var r := DEFAULT_RETENTION["keep_daily" := Int(5)];
    var e := Lone().(retention := Some(r));
    assert Shaped(r, RETENTION_ZERO);
    var prev, next := Before([Lone()]), Before([e]);
    SoundVariant(e);
    OneWellNamed(e, None);
    TidyWritesExactly(prev, Said(), next);
    FoundAlone(prev, next, e);
    assert r["keep_daily"] != DEFAULT_RETENTION["keep_daily"] && r["keep_recent"] == DEFAULT_RETENTION["keep_recent"];
    assert NoRetention(Said(), "/a") by {
      forall k | k in RETENTION_ZERO ensures Key(RetentionAt("/a"), k) !in Said() {
        assert Key(RetentionAt("/a"), k).of == RetentionAt("/a");
      }
    }
    assert !EntryTidy(prev, Said(), next, next.storage.value[0]);
  }

  /** A second storage whose name holds the bracket that ends a name in a dotted path. */
  lemma BracketInName()
    ensures var e := Lone().(name := "b]c", path := "/b", isDefault := false);
      var prev, next := Before([Lone()]), Before([Lone(), e]);
      Settled(prev, Said()) && WellNamed(next)
      && Decode(MarshalDeclared(next, DeclaredAfter(prev, Said(), next))) != Ok(next)
  {
    hide Decode, MarshalDeclared, DeclaredAfter, Settled, WellNamed, Lone, Sound, PathOnly, ComparedWith;
    LoneSound();
    LoneSettled();
    PathOnlyTyped("/b", false);
    assert Shaped(DEFAULT_RETENTION, RETENTION_ZERO);
    var e := Lone().(name := "b]c", path := "/b", isDefault := false);
    var prev, next := Before([Lone()]), Before([Lone(), e]);
    SoundVariant(e);
    TwoWellNamed(Lone(), e);
    TidyWritesExactly(prev, Said(), next);
    assert CutName("b]c") == "b" by {
      assert "b]c"[1..] == "]c";
    }
    assert "b" !in Names(next.storage);
    assert next.storage.value[1] == e;
    assert !EntryTidy(prev, Said(), next, next.storage.value[1]);
  }

  /** A list emptied by a write, whose own key the file never had. */
  lemma ListEmptiedUndeclared()
    ensures var prev, next := Before([Lone()]), Before([Lone()]).(muxers := Some([]));
      Settled(prev, Said()) && WellNamed(next)
      && Decode(MarshalDeclared(next, DeclaredAfter(prev, Said(), next))) != Ok(next)
  {
    hide Decode, MarshalDeclared, DeclaredAfter, Settled, WellNamed, Lone, Sound, PathOnly, ComparedWith;
    LoneSound();
    LoneSettled();
    OneWellNamed(Lone(), Some([]));
    var prev, next := Before([Lone()]), Before([Lone()]).(muxers := Some([]));
    TidyWritesExactly(prev, Said(), next);
    assert MUXERS !in Said();
  }

  function Shadow(): StorageEntry { Lone().(name := "/a]b", path := "/a]b", isDefault := false) }

  function SaidOfBoth(): set<Path> { Said() + {Key(EntryAt("/a]b"), "path")} }

  lemma ShadowSound()
    ensures Sound(Shadow()) && Shadow().name == Shadow().path == "/a]b" && Shadow().name != "/a"
    ensures Shadow().retention == Lone().retention && Shadow().zfs == Lone().zfs && Shadow().backend == Lone().backend
  {
    LoneSound();
    assert Shaped(DEFAULT_RETENTION, RETENTION_ZERO);
    SoundVariant(Shadow());
    assert |"/a]b"| != |"/a"|;
  }

  /** An entry that says nothing but its path is covered by any set that says nothing more of it. */
  lemma BareCovered(e: StorageEntry, d: set<Path>)
    requires Sound(e) && e.name == e.path && e.retention == Lone().retention && e.zfs == Lone().zfs && e.backend == Lone().backend
    requires forall k | k in RETENTION_ZERO :: Key(RetentionAt(e.name), k) !in d
    ensures EntryCovered(e, d)
  {
    LoneSound();
    PathOnlyTyped("/a", true);
  }

  lemma BothSettled()
    ensures Settled(Before([Lone(), Shadow()]), SaidOfBoth())
  {
    hide ZFS_ZERO, SECTIONS, MUXER_ZERO, DEFAULT_RETENTION;
    LoneSound();
    ShadowSound();
    TwoWellNamed(Lone(), Shadow());
    var c, d := Before([Lone(), Shadow()]), SaidOfBoth();
    forall k, name | k in RETENTION_ZERO ensures Key(RetentionAt(name), k) !in d {
      assert Key(RetentionAt(name), k).of == RetentionAt(name);
    }
    BareCovered(Lone(), d);
    BareCovered(Shadow(), d);
    hide Lone, Shadow, Sound, EntryCovered;
    var list := [Lone(), Shadow()];
    assert c.storage.value == list && list[0].name == "/a" && list[1].name == "/a]b";
    assert "/a" in Names(c.storage) && "/a]b" in Names(c.storage);
    assert WholeName(Key(EntryAt("/a"), "path")) == Some("/a") && WholeName(Key(EntryAt("/a]b"), "path")) == Some("/a]b");
    assert SectionsCovered(c, d) && MuxersCovered(c, d) && StorageCovered(c, d);
  }

  /** Forgetting an entry whose name is cut to the name of one that stays: its declared paths stay too. */
  lemma StalePathsSurvive()
    ensures var prev, next := Before([Lone(), Shadow()]), Before([Lone()]);
      && Settled(prev, SaidOfBoth()) && WellNamed(next)
      && !NoStale(next, DeclaredAfter(prev, SaidOfBoth(), next))
  {
    hide ZFS_ZERO, SECTIONS, MUXER_ZERO, RETENTION_ZERO, DEFAULT_RETENTION;
    LoneSound();
    BothSettled();
    OneWellNamed(Lone(), None);
    hide Lone, Shadow, Sound, Settled, WellNamed, ChangedKeys;
    var prev, next := Before([Lone(), Shadow()]), Before([Lone()]);
    var p := Key(EntryAt("/a]b"), "path");
    assert Names(next.storage) == {"/a"} by {
      assert next.storage.value[0].name == "/a";
    }
    assert CutName("/a]b") == "/a" by {
      assert "/a]b"[1..] == "a]b" && "a]b"[1..] == "]b";
    }
    assert |"/a]b"| != |"/a"|;
    assert p in SaidOfBoth() && StorageEntryName(p) == Some("/a") && WholeName(p) == Some("/a]b");
    assert p in DeclaredAfter(prev, SaidOfBoth(), next);
  }

  // ---- files ----

  function KeylessItem(): Node { Mapping(map["path" := Str("/a"), "retention" := Mapping(map[])]) }

  function KeylessFile(): Node { Mapping(map["storage" := Sequence([KeylessItem()])]) }

  lemma BareSections(doc: Node, only: string)
    requires doc.Mapping? && doc.m.Keys == {only} && only !in SECTIONS
    ensures forall s | s in SECTIONS :: DecodeRecord(SECTIONS[s], Child(Some(doc), s)) == Ok(SECTIONS[s])
  {
    forall s | s in SECTIONS ensures Child(Some(doc), s) == None {
      assert s != only;
    }
  }

  lemma KeylessItemDecodes()
    ensures DecodeEntry(KeylessItem()) == Ok(StorageEntry("", "/a", false, "", ZFS_ZERO, Some(RETENTION_ZERO)))
    ensures KeylessRetention(KeylessItem())
  {
    var n := KeylessItem();
    assert "path" != "retention" && "path" != "name" && "path" != "zfs" && "path" != "default" && "path" != "backend";
    EmptyMappingDecodes(RETENTION_ZERO);
    DecodeEntryByParts(n, None, Some(Str("/a")), None, None, ZFS_ZERO, Some(RETENTION_ZERO));
  }

  lemma KeylessFileDecodes()
    ensures var e := StorageEntry("", "/a", false, "", ZFS_ZERO, Some(RETENTION_ZERO));
      EntryTyped(e) && Decode(KeylessFile()) == Ok(Config(SECTIONS, Some(ResolvedList([e])), None))
  {
    hide Decode, DecodeEntry;
    var e := StorageEntry("", "/a", false, "", ZFS_ZERO, Some(RETENTION_ZERO));
    assert Shaped(ZFS_ZERO, ZFS_ZERO) && Shaped(RETENTION_ZERO, RETENTION_ZERO);
    KeylessItemDecodes();
    ListsAreNotSections();
    var doc := KeylessFile();
    BareSections(doc, "storage");
    DecodeEach([KeylessItem()], DecodeEntry, [e]);
    assert "muxers" != "storage";
    DecodeByParts(doc, Config(SECTIONS, Some([e]), None));
  }

  lemma KeylessFileLoads() returns (c: Config)
    ensures Decode(KeylessFile()) == Ok(c) && WellNamed(c)
  {
    hide Decode, KeylessFile, WellNamed;
    KeylessFileDecodes();
    var e := StorageEntry("", "/a", false, "", ZFS_ZERO, Some(RETENTION_ZERO));
    var f := ResolvedEntry(e).(isDefault := true);
    ResolvedEntryTyped(e);
    assert ResolvedList([e]) == [f];
    OneWellNamed(f, None);
    c := Before([f]);
  }

  lemma KeylessFileItems()
    ensures !NoKeylessRetention(KeylessFile())
  {
    KeylessItemDecodes();
    hide KeylessRetention, KeylessItem, DecodeEntry;
    var doc := KeylessFile();
    assert Items(doc, "storage")[0] == KeylessItem();
  }

  /** A file whose retention block is present and empty: it loads, and its own keys cannot carry it. */
  lemma KeylessRetentionInFile()
    ensures Decode(KeylessFile()).Ok?
    ensures Decode(MarshalDeclared(Decode(KeylessFile()).value, Declared(KeylessFile()))) != Decode(KeylessFile())
  {
    hide *;
    var c := KeylessFileLoads();
    KeylessFileItems();
    LoadedCovered(KeylessFile(), c);
    WellNamedResolved(c);
    TidyRoundTripsExactly(c, Declared(KeylessFile()));
  }

  lemma WellNamedResolved(c: Config)
    requires WellNamed(c)
    ensures Typed(c) && Resolved(c)
  {
  }

  function StrayItem(): Node { Mapping(map["address" := Str("h:1"), "path" := Str("x")]) }

  function StrayFile(): Node { Mapping(map["muxers" := Sequence([StrayItem()])]) }

  function StrayMuxer(): Record { map["address" := Str("h:1"), "type" := Str("")] }

  lemma StrayItemDecodes()
    ensures DecodeMuxer(StrayItem()) == Ok(StrayMuxer()) && Shaped(StrayMuxer(), MUXER_ZERO)
    ensures EntryKey(StrayItem().m) == "x" && Address(StrayMuxer()) == "h:1"
  {
    var n := StrayItem();
    assert "address" != "path" && "address" != "name" && "path" != "name" && "type" != "path" && "type" != "address";
    assert (map k | k in MUXER_ZERO :: Field(MUXER_ZERO[k], Child(Some(n), k))) == StrayMuxer();
  }

  lemma StrayFileDecodes()
    ensures Decode(StrayFile()) == Ok(Config(SECTIONS, None, Some([StrayMuxer()])))
    ensures WellNamed(Config(SECTIONS, None, Some([StrayMuxer()])))
  {
    hide ZFS_ZERO, SECTIONS, MUXER_ZERO, RETENTION_ZERO, DEFAULT_RETENTION;
    hide Decode, DecodeMuxer;
    StrayItemDecodes();
    ListsAreNotSections();
    var doc := StrayFile();
    BareSections(doc, "muxers");
    DecodeEach([StrayItem()], DecodeMuxer, [StrayMuxer()]);
    assert "muxers" != "storage";
    DecodeByParts(doc, Config(SECTIONS, None, Some([StrayMuxer()])));
  }

  lemma StrayKeysUndeclared()
    ensures Key(MuxerAt("h:1"), "address") !in Declared(StrayFile())
  {
    SchemaOfMuxers();
    StrayItemDecodes();
    hide StrayItem;
    var doc := StrayFile();
    var p := Key(MuxerAt("h:1"), "address");
    ItemDeclared(doc, SCHEMA, "muxers", Leaves(MUXER_ZERO), "h:1", p);
  }

  lemma AddressMustBeDeclared(c: Config, d: set<Path>)
    requires Typed(c) && c.muxers == Some([StrayMuxer()]) && Key(MuxerAt("h:1"), "address") !in d
    ensures !MuxersCovered(c, d)
  {
    StrayItemDecodes();
    assert c.muxers.value[0] == StrayMuxer();
    assert "address" in MUXER_ZERO && StrayMuxer()["address"] != MUXER_ZERO["address"];
  }

  /** A muxer entry with a stray `path:`: the walk files its keys under the path, the prune looks for them
      under the address, and the guard catches the difference. */
  lemma StrayMuxerKeyInFile()
    ensures Decode(StrayFile()).Ok?
    ensures Decode(MarshalDeclared(Decode(StrayFile()).value, Declared(StrayFile()))) != Decode(StrayFile())
  {
    hide *;
    StrayFileDecodes();
    var c := Config(SECTIONS, None, Some([StrayMuxer()]));
    WellNamedResolved(c);
    StrayKeysUndeclared();
    AddressMustBeDeclared(c, Declared(StrayFile()));
    TidyRoundTripsExactly(c, Declared(StrayFile()));
    CoveredNeedsMuxers(c, Declared(StrayFile()));
  }

  lemma CoveredNeedsMuxers(c: Config, d: set<Path>)
    requires Typed(c) && Resolved(c)
    ensures Covered(c, d) ==> MuxersCovered(c, d)
  {
  }
}
