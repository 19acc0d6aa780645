/** The exact condition under which a file carrying only declared keys means the configuration it was
    written from. */
module ConfigCoverage {
  import opened Wrappers
  import opened YamlTree
  import opened ConfigSchema
  import opened ConfigDeclared
  import opened ConfigRoundTrip

  function ZfsDefault(): Record { ResolvedZfs(ZFS_ZERO) }

  predicate SectionsCovered(c: Config, d: set<Path>)
    requires Typed(c)
  {
    forall s, k | s in SECTIONS && k in SECTIONS[s] :: SectionKey(s, k) in d || c.sections[s][k] == SECTIONS[s][k]
  }

  predicate MuxerCovered(r: Record, d: set<Path>)
    requires Shaped(r, MUXER_ZERO)
  {
    forall k | k in MUXER_ZERO :: Key(MuxerAt(Address(r)), k) in d || r[k] == MUXER_ZERO[k]
  }

  predicate MuxersCovered(c: Config, d: set<Path>)
    requires Typed(c)
  {
    c.muxers.Some? ==>
      && (c.muxers.value == [] ==> MUXERS in d)
      && forall i | 0 <= i < |c.muxers.value| :: MuxerCovered(c.muxers.value[i], d)
  }

  /** A retention block is absent and means the policy, or present and its undeclared keys mean zero. */
  predicate RetentionCovered(r: Record, d: set<Path>, name: string)
    requires r.Keys == RETENTION_ZERO.Keys
  {
    if NoRetention(d, name) then r == DEFAULT_RETENTION
    else forall k | k in RETENTION_ZERO :: Key(RetentionAt(name), k) in d || r[k] == RETENTION_ZERO[k]
  }

  predicate ZfsCovered(z: Record, d: set<Path>, name: string)
    requires z.Keys == ZFS_ZERO.Keys
  {
    forall k | k in ZFS_ZERO :: Key(ZfsAt(name), k) in d || z[k] == ZfsDefault()[k]
  }

  predicate EntryCovered(e: StorageEntry, d: set<Path>)
    requires EntryTyped(e) && e.retention.Some?
  {
    && (Key(EntryAt(e.name), "name") in d || e.name == e.path)
    && (Key(EntryAt(e.name), "backend") in d || e.backend == "auto")
    && ZfsCovered(e.zfs, d, e.name)
    && RetentionCovered(e.retention.value, d, e.name)
  }

  predicate StorageCovered(c: Config, d: set<Path>)
    requires Typed(c) && Resolved(c)
  {
    c.storage.Some? ==> (
      ResolvedParts(c);
      && (c.storage.value == [] ==> STORAGE in d)
      && forall i | 0 <= i < |c.storage.value| :: EntryCovered(c.storage.value[i], d))
  }

  /** Every value `d` does not declare is the one its absence means. */
  predicate Covered(c: Config, d: set<Path>)
    requires Typed(c) && Resolved(c)
  {
    SectionsCovered(c, d) && MuxersCovered(c, d) && StorageCovered(c, d)
  }

  lemma RereadIsIdentity(r: Record, base: Record, d: set<Path>, at: Path)
    requires r.Keys == base.Keys
    ensures Reread(r, base, d, at) == r <==> forall k | k in base :: Key(at, k) in d || r[k] == base[k]
  {
    if Reread(r, base, d, at) == r {
      forall k | k in base ensures Key(at, k) in d || r[k] == base[k] {
        assert Reread(r, base, d, at)[k] == r[k];
      }
    }
  }

  lemma ZfsRereads(z: Record, d: set<Path>, name: string)
    requires Shaped(z, ZFS_ZERO) && ResolvedZfs(z) == z
    ensures Shaped(Reread(z, ZFS_ZERO, d, ZfsAt(name)), ZFS_ZERO)
    ensures ResolvedZfs(Reread(z, ZFS_ZERO, d, ZfsAt(name))) == z <==> ZfsCovered(z, d, name)
  {
    RereadShaped(z, ZFS_ZERO, d, ZfsAt(name));
    var back := ResolvedZfs(Reread(z, ZFS_ZERO, d, ZfsAt(name)));
    assert z["mode"] != Str("") && z["seed"] != Str("");
    forall k | k in ZFS_ZERO
      ensures back[k] == z[k] <==> Key(ZfsAt(name), k) in d || z[k] == ZfsDefault()[k]
    {
    }
    if back == z {
      forall k | k in ZFS_ZERO ensures back[k] == z[k] {}
    }
  }

  lemma RetentionRereads(r: Record, d: set<Path>, name: string)
    requires r.Keys == RETENTION_ZERO.Keys
    ensures (if NoRetention(d, name) then DEFAULT_RETENTION else Reread(r, RETENTION_ZERO, d, RetentionAt(name))) == r
       <==> RetentionCovered(r, d, name)
  {
    RereadIsIdentity(r, RETENTION_ZERO, d, RetentionAt(name));
  }

  /** One entry of a list, the lone one or one of several. */
  lemma EntryRereads(e: StorageEntry, d: set<Path>, several: bool)
    requires EntryTyped(e) && e.retention.Some? && ResolvedEntry(e) == e && (!several ==> e.isDefault)
    ensures EntryTyped(RereadEntry(e, d, several))
    ensures var back := ResolvedEntry(RereadEntry(e, d, several));
      (if several then back else back.(isDefault := true)) == e <==> EntryCovered(e, d)
  {
    RereadEntryTyped(e, d, several);
    ZfsRereads(e.zfs, d, e.name);
    RetentionRereads(e.retention.value, d, e.name);
  }

  lemma StorageRereads(c: Config, d: set<Path>)
    requires Typed(c) && Resolved(c)
    ensures Typed(RereadConfig(c, d))
    ensures ResolveStorages(RereadConfig(c, d).storage) == c.storage <==> StorageCovered(c, d)
  {
    hide ZFS_ZERO, SECTIONS, MUXER_ZERO, RETENTION_ZERO, DEFAULT_RETENTION;
    RereadTyped(c, d);
    if c.storage.Some? && c.storage.value != [] {
      ResolvedParts(c);
      var list := c.storage.value;
      var back := ResolvedList(RereadList(list, d));
      forall i | 0 <= i < |list|
        ensures back[i] == list[i] <==> EntryCovered(list[i], d)
      {
        assert list[i] == ResolvedIn(list, i);
        EntryRereads(list[i], d, |list| > 1);
      }
      assert back == list <==> forall i | 0 <= i < |list| :: back[i] == list[i];
    }
  }

  lemma MuxersReread(c: Config, d: set<Path>)
    requires Typed(c) && Resolved(c)
    ensures RereadConfig(c, d).muxers == c.muxers <==> MuxersCovered(c, d)
  {
    if c.muxers.Some? && c.muxers.value != [] {
      var list := c.muxers.value;
      var back := RereadMuxers(list, d);
      forall i | 0 <= i < |list|
        ensures back[i] == list[i] <==> MuxerCovered(list[i], d)
      {
        RereadIsIdentity(list[i], MUXER_ZERO, d, MuxerAt(Address(list[i])));
      }
      assert back == list <==> forall i | 0 <= i < |list| :: back[i] == list[i];
    }
  }

  lemma SectionsReread(c: Config, d: set<Path>)
    requires Typed(c) && Resolved(c)
    ensures RereadConfig(c, d).sections == c.sections <==> SectionsCovered(c, d)
  {
    var back := RereadConfig(c, d).sections;
    forall s | s in SECTIONS
      ensures back[s] == c.sections[s] <==>
        forall k | k in SECTIONS[s] :: SectionKey(s, k) in d || c.sections[s][k] == SECTIONS[s][k]
    {
      RereadIsIdentity(c.sections[s], SECTIONS[s], d, Key(Root, s));
    }
    assert back == c.sections <==> forall s | s in SECTIONS :: back[s] == c.sections[s];
  }

  /** The tidy document means `c` exactly when `d` covers it: the round-trip guard of the write path
      fires on the other documents and on no others. */
  lemma TidyRoundTripsExactly(c: Config, d: set<Path>)
    requires Typed(c) && Resolved(c)
    ensures Decode(MarshalDeclared(c, d)) == Ok(c) <==> Covered(c, d)
  {
    PrunedDecodes(c, d);
    SectionsReread(c, d);
    MuxersReread(c, d);
    StorageRereads(c, d);
  }
}
