/** Which documents decode, and what an entry of a list is read as: a key means what the document gives it, or nothing
    when it is absent or null; anything of another kind is refused. */
module ConfigReads {
  import opened Wrappers
  import opened YamlTree
  import opened ConfigSchema

  // ---- which documents decode ----

  predicate Missing(n: Option<Node>) { n.None? || n.value.Null? }

  /** Every known key that is there has the kind of its default; what else is there does not matter. */
  predicate RecordFits(base: Record, n: Option<Node>) {
    Missing(n) || (n.value.Mapping? && forall k | k in base && k in n.value.m :: n.value.m[k].Null? || SameKind(n.value.m[k], base[k]))
  }

  predicate TextFits(n: Option<Node>) { Missing(n) || n.value.Str? }

  predicate EntryFits(n: Node) {
    n.Mapping?
    && (var at := Some(n);
        && TextFits(Child(at, "name")) && TextFits(Child(at, "path")) && TextFits(Child(at, "backend"))
        && (Missing(Child(at, "default")) || Child(at, "default").value.Bool?)
        && RecordFits(ZFS_ZERO, Child(at, "zfs")) && RecordFits(RETENTION_ZERO, Child(at, "retention")))
  }

  lemma RecordDecodes(base: Record, n: Option<Node>)
    ensures DecodeRecord(base, n).Ok? <==> RecordFits(base, n)
  {
    if n.Some? && n.value.Mapping? {
      assert forall k | k in base :: FieldDecodes(base[k], Child(n, k)) <==> (k in n.value.m ==> n.value.m[k].Null? || SameKind(n.value.m[k], base[k]));
    }
    hide SameKind;
  }

  lemma EntryDecodes(n: Node)
    ensures DecodeEntry(n).Ok? <==> EntryFits(n)
  {
    hide ZFS_ZERO, RETENTION_ZERO, SECTIONS, MUXER_ZERO, DEFAULT_RETENTION;
    RecordDecodes(ZFS_ZERO, Child(Some(n), "zfs"));
    RecordDecodes(RETENTION_ZERO, Child(Some(n), "retention"));
    assert DecodeRetention(Child(Some(n), "retention")).Ok? <==> RecordFits(RETENTION_ZERO, Child(Some(n), "retention"));
    assert forall x: Option<Node> :: FieldDecodes(Str(""), x) <==> TextFits(x);
    assert forall x: Option<Node> :: FieldDecodes(Bool(false), x) <==> Missing(x) || x.value.Bool?;
    hide RecordFits, DecodeRecord, DecodeRetention, Shaped;
  }

  lemma {:induction false} AllDecode<T>(items: seq<Node>, decode: Node -> Result<T>)
    ensures DecodeAll(items, decode).Ok? <==> forall n | n in items :: n.Null? || decode(n).Ok?
  {
    if items != [] {
      AllDecode(items[1..], decode);
      assert items == [items[0]] + items[1..];
    }
  }

  /** A list of entries that each fit, nulls apart. */
  predicate StorageFits(n: Option<Node>) {
    Missing(n) || (n.value.Sequence? && forall e | e in n.value.items :: e.Null? || EntryFits(e))
  }

  predicate MuxersFit(n: Option<Node>) {
    Missing(n) || (n.value.Sequence? && forall e | e in n.value.items :: e.Null? || RecordFits(MUXER_ZERO, Some(e)))
  }

  lemma StorageDecodes(n: Option<Node>)
    ensures DecodeStorage(n).Ok? <==> StorageFits(n)
  {
    if !Missing(n) && n.value.Sequence? {
      AllDecode(n.value.items, DecodeEntry);
      forall e | e in n.value.items ensures DecodeEntry(e).Ok? <==> EntryFits(e) { EntryDecodes(e); }
    }
    hide EntryFits, DecodeEntry, EntryTyped, DecodeAll;
  }

  lemma MuxersDecode(n: Option<Node>)
    ensures DecodeMuxerList(n).Ok? <==> MuxersFit(n)
  {
    if !Missing(n) && n.value.Sequence? {
      AllDecode(n.value.items, DecodeMuxer);
      forall e | e in n.value.items ensures DecodeMuxer(e).Ok? <==> RecordFits(MUXER_ZERO, Some(e)) {
        RecordDecodes(MUXER_ZERO, Some(e));
      }
    }
    hide RecordFits, DecodeMuxer, Shaped, DecodeAll;
  }

  /** A document decodes exactly when it is empty or a mapping, and each section and each list fits. */
  lemma DecodesExactly(doc: Node)
    ensures Decode(doc).Ok? <==>
      && (doc.Null? || doc.Mapping?)
      && (forall s | s in SECTIONS :: RecordFits(SECTIONS[s], Child(Some(doc), s)))
      && StorageFits(Child(Some(doc), "storage")) && MuxersFit(Child(Some(doc), "muxers"))
  {
    hide ZFS_ZERO, SECTIONS, MUXER_ZERO, RETENTION_ZERO, DEFAULT_RETENTION;
    StorageDecodes(Child(Some(doc), "storage"));
    MuxersDecode(Child(Some(doc), "muxers"));
    forall s | s in SECTIONS ensures DecodeRecord(SECTIONS[s], Child(Some(doc), s)).Ok? <==> RecordFits(SECTIONS[s], Child(Some(doc), s)) {
      RecordDecodes(SECTIONS[s], Child(Some(doc), s));
    }
    hide RecordFits, StorageFits, MuxersFit, DecodeRecord, DecodeStorage, DecodeMuxerList, Typed, ResolveStorages, Shaped;
  }

  /** A document with nothing in it means the defaults. */
  lemma NothingMeansTheDefaults(doc: Node)
    requires doc.Null? || doc == Mapping(map[])
    ensures Decode(doc) == Ok(Default())
  {
    hide ZFS_ZERO, SECTIONS, MUXER_ZERO, RETENTION_ZERO, DEFAULT_RETENTION;
    assert forall k :: Child(Some(doc), k) == None;
    assert forall s | s in SECTIONS :: DecodeRecord(SECTIONS[s], None) == Ok(SECTIONS[s]);
    assert (map s | s in SECTIONS :: DecodeRecord(SECTIONS[s], Child(Some(doc), s)).value) == SECTIONS;
  }

  // ---- what the lists are read as ----

  function Present(items: seq<Node>): seq<Node> {
    if items == [] then [] else (if items[0].Null? then [] else [items[0]]) + Present(items[1..])
  }

  /** A list holds what its entries decode to, in order, the nulls dropped. */
  lemma {:induction false} ListReads<T>(items: seq<Node>, decode: Node -> Result<T>, list: seq<T>)
    requires DecodeAll(items, decode) == Ok(list)
    ensures |list| == |Present(items)| && forall i | 0 <= i < |list| :: decode(Present(items)[i]) == Ok(list[i])
  {
    if items != [] {
      var rest := DecodeAll(items[1..], decode).value;
      ListReads(items[1..], decode, rest);
      var later := Present(items[1..]);
      hide DecodeAll;
      if items[0].Null? {
        assert list == rest && Present(items) == later;
      } else {
        assert list == [decode(items[0]).value] + rest && Present(items) == [items[0]] + later;
        forall i | 0 <= i < |list| ensures decode(Present(items)[i]) == Ok(list[i]) {
          assert i > 0 ==> list[i] == rest[i - 1] && Present(items)[i] == later[i - 1];
        }
      }
    }
  }

  function Text(n: Option<Node>): string { if n.Some? && n.value.Str? then n.value.s else "" }

  /** An entry of the storage list: each key as the file gives it, and nothing where the file gives nothing. */
  lemma EntryReads(n: Node, e: StorageEntry)
    requires DecodeEntry(n) == Ok(e)
    ensures var at := Some(n);
      && e.name == Text(Child(at, "name")) && e.path == Text(Child(at, "path")) && e.backend == Text(Child(at, "backend"))
      && e.isDefault == (Child(at, "default") == Some(Bool(true)))
      && (e.retention.None? <==> Missing(Child(at, "retention")))
      && (forall k | k in ZFS_ZERO :: KeyReads(ZFS_ZERO, Child(at, "zfs"), e.zfs, k))
      && (e.retention.Some? ==>
            forall k | k in RETENTION_ZERO :: KeyReads(RETENTION_ZERO, Child(at, "retention"), e.retention.value, k))
  {
    hide ZFS_ZERO, RETENTION_ZERO, SECTIONS, MUXER_ZERO, DEFAULT_RETENTION;
    var zfs, retention := Child(Some(n), "zfs"), Child(Some(n), "retention");
    RecordReads(ZFS_ZERO, zfs, e.zfs);
    if e.retention.Some? {
      RecordReads(RETENTION_ZERO, retention, e.retention.value);
    }
    hide KeyReads, DecodeRecord, Shaped;
  }

  predicate KeyReads(base: Record, n: Option<Node>, r: Record, k: string)
    requires k in base
  {
    k in r && r[k] == if Missing(Child(n, k)) then base[k] else Child(n, k).value
  }

  lemma RecordReads(base: Record, n: Option<Node>, r: Record)
    requires DecodeRecord(base, n) == Ok(r)
    ensures forall k | k in base :: KeyReads(base, n, r, k)
  {
  }

  /** The storage list of a document, entry by entry, before it is resolved; and the muxers. */
  lemma ListsRead(doc: Node, c: Config)
    requires Decode(doc) == Ok(c)
    ensures var s := Child(Some(doc), "storage");
      if Missing(s) then c.storage.None?
      else
        && s.value.Sequence?
        && var items := Present(s.value.items);
           && (forall n | n in items :: DecodeEntry(n).Ok?)
           && c.storage == ResolveStorages(Some(seq(|items|, i requires 0 <= i < |items| => DecodeEntry(items[i]).value)))
    ensures var m := Child(Some(doc), "muxers");
      if Missing(m) then c.muxers.None?
      else
        && m.value.Sequence? && c.muxers.Some?
        && var items := Present(m.value.items);
           && |c.muxers.value| == |items|
           && forall i, k | 0 <= i < |items| && k in MUXER_ZERO :: KeyReads(MUXER_ZERO, Some(items[i]), c.muxers.value[i], k)
  {
    hide ZFS_ZERO, RETENTION_ZERO, SECTIONS, MUXER_ZERO, DEFAULT_RETENTION;
    var s, m := Child(Some(doc), "storage"), Child(Some(doc), "muxers");
    if !Missing(s) {
      var items, list := Present(s.value.items), DecodeStorage(s).value.value;
      ListReads(s.value.items, DecodeEntry, list);
      assert list == seq(|items|, i requires 0 <= i < |items| => DecodeEntry(items[i]).value);
    }
    if !Missing(m) {
      var items, list := Present(m.value.items), c.muxers.value;
      ListReads(m.value.items, DecodeMuxer, list);
      forall i | 0 <= i < |items| ensures forall k | k in MUXER_ZERO :: KeyReads(MUXER_ZERO, Some(items[i]), list[i], k) {
        RecordReads(MUXER_ZERO, Some(items[i]), list[i]);
      }
    }
    hide DecodeEntry, DecodeRecord, KeyReads, DecodeAll, Present, Shaped, Typed, EntryTyped;
  }
}
