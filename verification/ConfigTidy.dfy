/** Which writes keep the file tidy: the exact condition, in terms of the entries before and after, under
    which a write to a settled document leaves a document its own declared keys cover. */
module ConfigTidy {
  import opened Wrappers
  import opened YamlTree
  import opened ConfigSchema
  import opened ConfigDeclared
  import opened ConfigWriteDeclared
  import opened ConfigRoundTrip
  import opened ConfigCoverage
  import opened ConfigWrites

  // ---- the condition ----

  /** A retention policy that is left alone or replaced in every key. */
  predicate RetentionWhole(was: Record, now: Record)
    requires was.Keys == RETENTION_ZERO.Keys && now.Keys == RETENTION_ZERO.Keys
  {
    was == now || forall k | k in RETENTION_ZERO :: was[k] != now[k]
  }

  /** An entry whose name the dotted paths cannot carry has to be all defaults.  Any other entry keeps an
      undeclared name only with its path, and an undeclared retention policy only whole. */
  predicate EntryTidy(prev: Config, d: set<Path>, next: Config, e: StorageEntry)
    requires WellNamed(prev) && WellNamed(next) && next.storage.Some? && e in next.storage.value
  {
    var base := ComparedWith(prev, next, e);
    ComparedTyped(prev, next, e);
    if CutName(e.name) !in Names(next.storage) then e == PathOnly(e.path, e.isDefault)
    else
      && (Key(EntryAt(e.name), "name") in d || e.path == base.path)
      && (NoRetention(d, e.name) ==> RetentionWhole(base.retention.value, e.retention.value))
  }

  predicate WriteStaysTidy(prev: Config, d: set<Path>, next: Config)
    requires WellNamed(prev) && WellNamed(next)
  {
    && (next.storage == Some([]) ==> STORAGE in d)
    && (next.muxers == Some([]) ==> MUXERS in d)
    && (next.storage.Some? ==> forall i | 0 <= i < |next.storage.value| :: EntryTidy(prev, d, next, next.storage.value[i]))
  }

  // ---- the parts a write cannot spoil ----

  lemma {:induction false} NotAStorage(p: Path, list: string)
    requires Within(p, Key(Root, list)) && list != "storage"
    ensures StorageEntryName(p) == None && WholeName(p) == None
  {
    if p != Key(Root, list) {
      NotAStorage(p.of, list);
      if p.Item? && p.of == STORAGE {
        AncestorUnique(p.of, STORAGE, Key(Root, list));
      }
    }
  }

  lemma {:induction false} SectionsStayCovered(prev: Config, d: set<Path>, next: Config)
    requires Settled(prev, d) && WellNamed(next)
    ensures SectionsCovered(next, DeclaredAfter(prev, d, next))
  {
    hide Marshal, Changed;
    ListsAreNotSections();
    forall s, k | s in SECTIONS && k in SECTIONS[s]
      ensures SectionKey(s, k) in DeclaredAfter(prev, d, next) || next.sections[s][k] == SECTIONS[s][k]
    {
      SectionChanged(prev, next, s, k);
      NotAStorage(SectionKey(s, k), s);
    }
  }

  lemma {:induction false} ListHeadsUnchanged(was: Option<Node>, now: Node, k: string)
    requires now.Mapping? && k in now.m && now.m[k].Sequence?
    ensures Key(Root, k) !in Changed(was, now, Root)
  {
    var p := Key(Root, k);
    if p in Changed(was, now, Root) {
      ChangedBelow(was, now, Root, k, p);
      var items := now.m[k].items;
      var i :| 0 <= i < |items| && items[i].Mapping?
               && p in Changed(Some(Previous(Child(was, k), now.m[k], i)), items[i], Item(p, EntryKey(items[i].m)));
      ChangedWithin(Some(Previous(Child(was, k), now.m[k], i)), items[i], Item(p, EntryKey(items[i].m)), p);
      WithinDepth(p, Item(p, EntryKey(items[i].m)));
    }
  }

  lemma {:induction false} MuxerKeyStaysCovered(prev: Config, d: set<Path>, next: Config, i: nat, k: string)
    requires Settled(prev, d) && WellNamed(next)
    requires next.muxers.Some? && i < |next.muxers.value| && k in MUXER_ZERO
    requires Key(MuxerAt(Address(next.muxers.value[i])), k) !in DeclaredAfter(prev, d, next)
    ensures Child(Some(Mapping(next.muxers.value[i])), k) == Some(MUXER_ZERO[k])
  {
    hide Marshal, Changed;
    var r := next.muxers.value[i];
    var p := Key(MuxerAt(Address(r)), k);
    MuxerChanged(prev, next, i, k);
    WithinTransitive(p, MuxerAt(Address(r)), MUXERS);
    NotAStorage(p, "muxers");
    var prior := PriorMuxer(prev, Address(r)).value;
    FindMarshalledMuxer(prev.muxers.value, Address(r));
    var j :| 0 <= j < |prev.muxers.value| && prev.muxers.value[j] == prior;
    assert MuxerCovered(prev.muxers.value[j], d);
  }

  lemma {:induction false} MuxersStayCovered(prev: Config, d: set<Path>, next: Config)
    requires Settled(prev, d) && WellNamed(next)
    ensures MuxersCovered(next, DeclaredAfter(prev, d, next)) <==> (next.muxers == Some([]) ==> MUXERS in d)
  {
    hide Marshal, Changed, Covered;
    NotAStorage(MUXERS, "muxers");
    if next.muxers.Some? {
      var after := DeclaredAfter(prev, d, next);
      ListNodes(next);
      ListHeadsUnchanged(Some(Marshal(prev)), Marshal(next), "muxers");
      forall i | 0 <= i < |next.muxers.value|
        ensures MuxerCovered(next.muxers.value[i], after)
      {
        forall k | k in MUXER_ZERO && Key(MuxerAt(Address(next.muxers.value[i])), k) !in after
          ensures Child(Some(Mapping(next.muxers.value[i])), k) == Some(MUXER_ZERO[k])
        {
          MuxerKeyStaysCovered(prev, d, next, i, k);
        }
      }
    }
  }

  // ---- one entry ----

  lemma PathOnlyTyped(path: string, lone: bool)
    ensures var b := PathOnly(path, lone);
      && EntryTyped(b) && b.retention == Some(DEFAULT_RETENTION) && b.zfs == ZfsDefault()
      && b.name == path && b.path == path && b.backend == "auto" && b.isDefault == lone
  {
    assert Shaped(DEFAULT_RETENTION, RETENTION_ZERO);
    assert Shaped(ZFS_ZERO, ZFS_ZERO);
  }

  lemma ComparedTyped(prev: Config, next: Config, e: StorageEntry)
    requires WellNamed(prev) && WellNamed(next) && next.storage.Some?
    ensures EntryTyped(ComparedWith(prev, next, e)) && ComparedWith(prev, next, e).retention.Some?
    ensures forall f | f in next.storage.value :: EntryTyped(f) && f.retention.Some?
  {
    PathOnlyTyped(e.path, |next.storage.value| == 1);
    ResolvedParts(next);
    if prev.storage.Some? {
      ResolvedParts(prev);
      FindEntrySpec(prev.storage.value, e.name);
    }
  }

  /** The leaves of an entry that a write from `base` to `e` changes. */
  predicate EntryDiff(base: StorageEntry, e: StorageEntry, d: set<Path>, after: set<Path>)
    requires EntryTyped(base) && base.retention.Some? && EntryTyped(e) && e.retention.Some?
  {
    var at := EntryAt(e.name);
    && (Key(at, "name") in after <==> Key(at, "name") in d || base.name != e.name)
    && (Key(at, "backend") in after <==> Key(at, "backend") in d || base.backend != e.backend)
    && (forall k | k in ZFS_ZERO :: Key(ZfsAt(e.name), k) in after <==> Key(ZfsAt(e.name), k) in d || base.zfs[k] != e.zfs[k])
    && (forall k | k in RETENTION_ZERO :: Key(RetentionAt(e.name), k) in after
          <==> Key(RetentionAt(e.name), k) in d || base.retention.value[k] != e.retention.value[k])
  }

  lemma {:induction false} EntryLeaves(base: StorageEntry, e: StorageEntry, at: Path)
    requires EntryTyped(base) && base.retention.Some? && EntryTyped(e) && e.retention.Some?
    ensures var changed := Changed(Some(MarshalEntry(base)), MarshalEntry(e), at);
      && (Key(at, "name") in changed <==> base.name != e.name)
      && (Key(at, "backend") in changed <==> base.backend != e.backend)
  {
    EntryNodeParts(base, false);
    EntryNodeParts(e, false);
    LeafChanged(Some(MarshalEntry(base)), MarshalEntry(e), at, "name");
    LeafChanged(Some(MarshalEntry(base)), MarshalEntry(e), at, "backend");
  }

  lemma {:induction false} EntryZfsChanged(base: StorageEntry, e: StorageEntry, at: Path, k: string)
    requires EntryTyped(base) && base.retention.Some? && EntryTyped(e) && e.retention.Some? && k in ZFS_ZERO
    ensures Key(Key(at, "zfs"), k) in Changed(Some(MarshalEntry(base)), MarshalEntry(e), at) <==> base.zfs[k] != e.zfs[k]
  {
    TablesHoldScalars();
    EntryNodeParts(base, false);
    EntryNodeParts(e, false);
    RecordChanged(Some(MarshalEntry(base)), MarshalEntry(e), at, "zfs", k, e.zfs, ZFS_ZERO);
  }

  lemma {:induction false} EntryRetentionChanged(base: StorageEntry, e: StorageEntry, at: Path, k: string)
    requires EntryTyped(base) && base.retention.Some? && EntryTyped(e) && e.retention.Some? && k in RETENTION_ZERO
    ensures Key(Key(at, "retention"), k) in Changed(Some(MarshalEntry(base)), MarshalEntry(e), at)
       <==> base.retention.value[k] != e.retention.value[k]
  {
    TablesHoldScalars();
    EntryNodeParts(base, false);
    EntryNodeParts(e, false);
    RecordChanged(Some(MarshalEntry(base)), MarshalEntry(e), at, "retention", k, e.retention.value, RETENTION_ZERO);
  }

  lemma {:induction false} AfterAtEntry(prev: Config, d: set<Path>, next: Config, i: nat, p: Path)
    requires WellNamed(prev) && WellNamed(next) && next.storage.Some? && i < |next.storage.value|
    requires Within(p, EntryAt(next.storage.value[i].name))
    ensures var e := next.storage.value[i];
      p in DeclaredAfter(prev, d, next)
      <==> CutName(e.name) in Names(next.storage)
           && (p in d || p in Changed(Some(MarshalEntry(ComparedWith(prev, next, e))), MarshalEntry(e), EntryAt(e.name)))
  {
    NameOfPath(p, next.storage.value[i].name);
    EntryChanged(prev, next, i, p);
  }

  lemma {:induction false} DiffOfEntry(prev: Config, d: set<Path>, next: Config, i: nat)
    requires WellNamed(prev) && WellNamed(next) && next.storage.Some? && i < |next.storage.value|
    requires CutName(next.storage.value[i].name) in Names(next.storage)
    ensures var e := next.storage.value[i];
      (ComparedTyped(prev, next, e); EntryDiff(ComparedWith(prev, next, e), e, d, DeclaredAfter(prev, d, next)))
  {
    var e := next.storage.value[i];
    ComparedTyped(prev, next, e);
    var base, at := ComparedWith(prev, next, e), EntryAt(e.name);
    AfterAtEntry(prev, d, next, i, Key(at, "name"));
    AfterAtEntry(prev, d, next, i, Key(at, "backend"));
    EntryLeaves(base, e, at);
    forall k | k in ZFS_ZERO
      ensures Key(ZfsAt(e.name), k) in DeclaredAfter(prev, d, next) <==> Key(ZfsAt(e.name), k) in d || base.zfs[k] != e.zfs[k]
    {
      WithinTransitive(Key(ZfsAt(e.name), k), ZfsAt(e.name), at);
      AfterAtEntry(prev, d, next, i, Key(ZfsAt(e.name), k));
      EntryZfsChanged(base, e, at, k);
    }
    forall k | k in RETENTION_ZERO
      ensures Key(RetentionAt(e.name), k) in DeclaredAfter(prev, d, next)
         <==> Key(RetentionAt(e.name), k) in d || base.retention.value[k] != e.retention.value[k]
    {
      WithinTransitive(Key(RetentionAt(e.name), k), RetentionAt(e.name), at);
      AfterAtEntry(prev, d, next, i, Key(RetentionAt(e.name), k));
      EntryRetentionChanged(base, e, at, k);
    }
  }

  /** `base` is covered by what `d` declares under the name `name`. */
  predicate BaseCovered(base: StorageEntry, d: set<Path>, name: string)
    requires EntryTyped(base) && base.retention.Some?
  {
    && (base.name != name || Key(EntryAt(name), "name") in d || base.name == base.path)
    && (Key(EntryAt(name), "backend") in d || base.backend == "auto")
    && ZfsCovered(base.zfs, d, name)
    && RetentionCovered(base.retention.value, d, name)
  }

  lemma RetentionAfter(was: Record, now: Record, d: set<Path>, after: set<Path>, name: string)
    requires Shaped(was, RETENTION_ZERO) && Shaped(now, RETENTION_ZERO) && RetentionCovered(was, d, name)
    requires forall k | k in RETENTION_ZERO ::
      Key(RetentionAt(name), k) in after <==> Key(RetentionAt(name), k) in d || was[k] != now[k]
    ensures RetentionCovered(now, after, name) <==> (NoRetention(d, name) ==> RetentionWhole(was, now))
  {
    if NoRetention(d, name) {
      assert forall k | k in RETENTION_ZERO :: was[k] != RETENTION_ZERO[k];
      if NoRetention(after, name) {
        assert was == now;
      } else {
        var k :| k in RETENTION_ZERO && Key(RetentionAt(name), k) in after;
        assert was[k] != now[k];
      }
    } else {
      assert !NoRetention(after, name);
    }
  }

  lemma EntryAfter(base: StorageEntry, e: StorageEntry, d: set<Path>, after: set<Path>)
    requires EntryTyped(base) && base.retention.Some? && EntryTyped(e) && e.retention.Some?
    requires EntryDiff(base, e, d, after) && BaseCovered(base, d, e.name)
    requires base.name == e.name || (base.path == e.path && base.name == base.path)
    ensures EntryCovered(e, after)
       <==> (Key(EntryAt(e.name), "name") in d || e.path == base.path)
            && (NoRetention(d, e.name) ==> RetentionWhole(base.retention.value, e.retention.value))
  {
    RetentionAfter(base.retention.value, e.retention.value, d, after, e.name);
    forall k | k in ZFS_ZERO ensures Key(ZfsAt(e.name), k) in after || e.zfs[k] == ZfsDefault()[k] {}
  }

  /** The entry a write compares with is covered by what was declared before, under the new name. */
  lemma {:induction false} ComparedCovered(prev: Config, d: set<Path>, next: Config, e: StorageEntry)
    requires Settled(prev, d) && WellNamed(next) && next.storage.Some?
    ensures EntryTyped(ComparedWith(prev, next, e)) && ComparedWith(prev, next, e).retention.Some?
    ensures BaseCovered(ComparedWith(prev, next, e), d, e.name)
    ensures var base := ComparedWith(prev, next, e);
      base.name == e.name || (base.path == e.path && base.name == base.path)
  {
    ComparedTyped(prev, next, e);
    if prev.storage.Some? {
      FindEntrySpec(prev.storage.value, e.name);
    }
    if Prior(prev, e.name).Some? {
      ResolvedParts(prev);
      var j :| 0 <= j < |prev.storage.value| && prev.storage.value[j] == Prior(prev, e.name).value;
      assert EntryCovered(prev.storage.value[j], d);
    } else {
      PathOnlyTyped(e.path, |next.storage.value| == 1);
      NothingDeclaredFor(prev, d, e.name);
    }
  }

  lemma {:induction false} NothingDeclaredFor(prev: Config, d: set<Path>, name: string)
    requires NoStale(prev, d) && name !in Names(prev.storage)
    ensures NoRetention(d, name)
    ensures forall p | p in d :: !Within(p, EntryAt(name))
  {
    forall p | p in d ensures !Within(p, EntryAt(name)) {
      if Within(p, EntryAt(name)) {
        NameOfPath(p, name);
      }
    }
    forall k | k in RETENTION_ZERO ensures Key(RetentionAt(name), k) !in d {
      WithinTransitive(Key(RetentionAt(name), k), RetentionAt(name), EntryAt(name));
    }
  }

  /** An entry none of whose keys are declared is covered when it is all defaults. */
  lemma {:induction false} UndeclaredCovered(e: StorageEntry, d: set<Path>)
    requires EntryTyped(e) && e.retention.Some?
    requires forall p | p in d :: !Within(p, EntryAt(e.name))
    ensures EntryCovered(e, d) <==> e == PathOnly(e.path, e.isDefault)
  {
    PathOnlyTyped(e.path, e.isDefault);
    forall k | k in RETENTION_ZERO ensures Key(RetentionAt(e.name), k) !in d {
      WithinTransitive(Key(RetentionAt(e.name), k), RetentionAt(e.name), EntryAt(e.name));
    }
    forall k | k in ZFS_ZERO ensures Key(ZfsAt(e.name), k) !in d {
      WithinTransitive(Key(ZfsAt(e.name), k), ZfsAt(e.name), EntryAt(e.name));
    }
    assert Within(Key(EntryAt(e.name), "name"), EntryAt(e.name)) && Within(Key(EntryAt(e.name), "backend"), EntryAt(e.name));
    if EntryCovered(e, d) {
      assert e.zfs == ZfsDefault();
    }
  }

  lemma {:induction false} EntryStaysCovered(prev: Config, d: set<Path>, next: Config, i: nat)
    requires Settled(prev, d) && WellNamed(next) && next.storage.Some? && i < |next.storage.value|
    ensures EntryTyped(next.storage.value[i]) && next.storage.value[i].retention.Some?
    ensures EntryCovered(next.storage.value[i], DeclaredAfter(prev, d, next)) <==> EntryTidy(prev, d, next, next.storage.value[i])
  {
    var e, after := next.storage.value[i], DeclaredAfter(prev, d, next);
    ComparedTyped(prev, next, e);
    if CutName(e.name) in Names(next.storage) {
      DiffOfEntry(prev, d, next, i);
      ComparedCovered(prev, d, next, e);
      EntryAfter(ComparedWith(prev, next, e), e, d, after);
    } else {
      forall p | p in after ensures !Within(p, EntryAt(e.name)) {
        if Within(p, EntryAt(e.name)) {
          NameOfPath(p, e.name);
        }
      }
      UndeclaredCovered(e, after);
    }
  }

  lemma {:induction false} StorageStaysCovered(prev: Config, d: set<Path>, next: Config)
    requires Settled(prev, d) && WellNamed(next)
    ensures StorageCovered(next, DeclaredAfter(prev, d, next))
       <==> (next.storage == Some([]) ==> STORAGE in d)
            && (next.storage.Some? ==>
                  forall i | 0 <= i < |next.storage.value| :: EntryTidy(prev, d, next, next.storage.value[i]))
  {
    hide Marshal, Changed, Covered, EntryCovered, EntryTidy;
    if next.storage.Some? {
      ResolvedParts(next);
      ListNodes(next);
      ListHeadsUnchanged(Some(Marshal(prev)), Marshal(next), "storage");
      assert StorageEntryName(STORAGE) == None;
      forall i | 0 <= i < |next.storage.value|
        ensures EntryCovered(next.storage.value[i], DeclaredAfter(prev, d, next))
           <==> EntryTidy(prev, d, next, next.storage.value[i])
      {
        EntryStaysCovered(prev, d, next, i);
      }
    }
  }

  /** A write to a settled document leaves one its tidy form means exactly when it stays tidy. */
  lemma {:induction false} TidyWritesExactly(prev: Config, d: set<Path>, next: Config)
    requires Settled(prev, d) && WellNamed(next)
    ensures Decode(MarshalDeclared(next, DeclaredAfter(prev, d, next))) == Ok(next) <==> WriteStaysTidy(prev, d, next)
  {
    var after := DeclaredAfter(prev, d, next);
    SectionsStayCovered(prev, d, next);
    MuxersStayCovered(prev, d, next);
    StorageStaysCovered(prev, d, next);
    TidyRoundTripsExactly(next, after);
  }
}
