/** Schema v0 of `config.yml`: its defaults, decoding a tree over them, encoding, and resolution of
    storage entries. */
module ConfigSchema {
  import opened Wrappers
  import opened YamlTree

  /** A Go struct all of whose fields are scalars: its yaml keys and their values.  `Shaped` says it has
      the fields, and the field types, of a table of zero or default values. */
  type Record = map<string, Node>

  predicate Shaped(r: Record, table: Record) {
    r.Keys == table.Keys && forall k | k in table :: SameKind(r[k], table[k])
  }

  predicate Scalars(r: Record) {
    forall k | k in r :: r[k].Str? || r[k].Bool? || r[k].Int?
  }

  // Every section that is a fixed set of scalar keys, with its documented default.
  const SECTIONS: map<string, Record> := map[
    "backup" := map["preferred_transport" := Str("usb"), "require_encryption" := Bool(true)],
    "tls" := map["cert_file" := Str(""), "key_file" := Str("")],
    "sessions" := map["allow_insecure_transport" := Bool(false)],
    "notifications" := map[
      "staleness_days" := Int(3), "reminder_cooldown_hours" := Int(24), "overdue_days" := Int(14),
      "backup_available" := Bool(true), "backup_overdue" := Bool(true), "action_required" := Bool(true),
      "backup_failed" := Bool(true), "backup_completed" := Bool(false)],
    "reconcile" := map["interval_minutes" := Int(360)],
    "vault" := map["session_ttl_minutes" := Int(15)],
    "ui" := map["theme" := Str("system")]]

  const ZFS_ZERO: Record := map[
    "parent_dataset" := Str(""), "mode" := Str(""), "hook_cmd" := Str(""), "ssh_user" := Str(""),
    "ssh_host" := Str(""), "ssh_port" := Int(0), "ssh_key" := Str(""), "seed" := Str("")]

  const RETENTION_ZERO: Record := map["keep_recent" := Int(0), "keep_daily" := Int(0), "keep_weekly" := Int(0)]

  const DEFAULT_RETENTION: Record := map["keep_recent" := Int(10), "keep_daily" := Int(30), "keep_weekly" := Int(12)]

  const MUXER_ZERO: Record := map["address" := Str(""), "type" := Str("")]

  lemma TablesHoldScalars()
    ensures Scalars(ZFS_ZERO) && Scalars(RETENTION_ZERO) && Scalars(MUXER_ZERO)
  {
  }

  lemma SectionsHoldScalars(s: string)
    requires s in SECTIONS
    ensures Scalars(SECTIONS[s])
  {
  }

  datatype StorageEntry = StorageEntry(
    name: string, path: string, isDefault: bool, backend: string, zfs: Record, retention: Option<Record>)

  datatype Config = Config(
    sections: map<string, Record>, storage: Option<seq<StorageEntry>>, muxers: Option<seq<Record>>)

  // What Go's static types guarantee of a Config.
  predicate EntryTyped(e: StorageEntry) {
    Shaped(e.zfs, ZFS_ZERO) && (e.retention.Some? ==> Shaped(e.retention.value, RETENTION_ZERO))
  }

  predicate Typed(c: Config) {
    && c.sections.Keys == SECTIONS.Keys
    && (forall s | s in SECTIONS :: Shaped(c.sections[s], SECTIONS[s]))
    && (c.storage.Some? ==> forall e | e in c.storage.value :: EntryTyped(e))
    && (c.muxers.Some? ==> forall r | r in c.muxers.value :: Shaped(r, MUXER_ZERO))
  }

  function Default(): Config { Config(SECTIONS, None, None) }

  // ---- resolution ----

  function ResolvedZfs(z: Record): Record
    requires Shaped(z, ZFS_ZERO)
  {
    z["mode" := if z["mode"] == Str("") then Str("hook") else z["mode"]]
     ["seed" := if z["seed"] == Str("") then Str("auto") else z["seed"]]
  }

  /** Fills every optional field of an entry, once, at parse. */
  function ResolvedEntry(e: StorageEntry): StorageEntry
    requires EntryTyped(e)
  {
    StorageEntry(
      if e.name == "" then e.path else e.name,
      e.path,
      e.isDefault,
      if e.backend == "" then "auto" else e.backend,
      ResolvedZfs(e.zfs),
      if e.retention.None? then Some(DEFAULT_RETENTION) else e.retention)
  }

  /** Entry `i` of a resolved list: a lone entry is implied to be the default. */
  function ResolvedIn(list: seq<StorageEntry>, i: nat): StorageEntry
    requires i < |list| && EntryTyped(list[i])
  {
    var e := ResolvedEntry(list[i]);
    if |list| == 1 then e.(isDefault := true) else e
  }

  function ResolvedList(list: seq<StorageEntry>): (r: seq<StorageEntry>)
    requires forall e | e in list :: EntryTyped(e)
  {
    seq(|list|, i requires 0 <= i < |list| => ResolvedIn(list, i))
  }

  function ResolveStorages(storage: Option<seq<StorageEntry>>): Option<seq<StorageEntry>>
    requires storage.Some? ==> forall e | e in storage.value :: EntryTyped(e)
  {
    if storage.None? then None else Some(ResolvedList(storage.value))
  }

  predicate Resolved(c: Config)
    requires Typed(c)
  {
    ResolveStorages(c.storage) == c.storage
  }

  /** The loop the source runs: every entry resolved, then the list-level rule. */
  method ResolveStoragesByLoop(storage: Option<seq<StorageEntry>>) returns (out: Option<seq<StorageEntry>>)
    requires storage.Some? ==> forall e | e in storage.value :: EntryTyped(e)
    ensures out == ResolveStorages(storage)
  {
    if storage.None? {
      return None;
    }
    var list := storage.value;
    var done: seq<StorageEntry> := [];
    for i := 0 to |list|
      invariant |done| == i
      invariant forall j | 0 <= j < i :: done[j] == ResolvedEntry(list[j])
    {
      done := done + [ResolvedEntry(list[i])];
    }
    if |done| == 1 {
      done := [done[0].(isDefault := true)];
    }
    assert done == ResolvedList(list);
    out := Some(done);
  }

  lemma ResolvedEntryTyped(e: StorageEntry)
    requires EntryTyped(e)
    ensures EntryTyped(ResolvedEntry(e))
    ensures ResolvedEntry(ResolvedEntry(e)) == ResolvedEntry(e)
  {
    assert Shaped(DEFAULT_RETENTION, RETENTION_ZERO);
  }

  /** Resolving twice is resolving once, so a document that came from a parse, an add or a previous
      write passes through the write path unchanged. */
  lemma ResolveIdempotent(storage: Option<seq<StorageEntry>>)
    requires storage.Some? ==> forall e | e in storage.value :: EntryTyped(e)
    ensures var once := ResolveStorages(storage);
      && (once.Some? ==> forall e | e in once.value :: EntryTyped(e))
      && ResolveStorages(once) == once
  {
    if storage.Some? {
      var list := storage.value;
      var once := ResolvedList(list);
      forall i | 0 <= i < |list|
        ensures EntryTyped(once[i]) && ResolvedIn(once, i) == once[i]
      {
        ResolvedEntryTyped(list[i]);
      }
      assert ResolvedList(once) == once;
    }
  }

  // ---- decoding a tree over the defaults ----

  // A null leaves a scalar field as it was; a value of another kind is a decode error.
  predicate FieldDecodes(zero: Node, n: Option<Node>) {
    n.None? || n.value.Null? || SameKind(n.value, zero)
  }

  function Field(zero: Node, n: Option<Node>): Node {
    if n.None? || n.value.Null? then zero else n.value
  }

  function DecodeRecord(base: Record, n: Option<Node>): (r: Result<Record>)
    ensures r.Ok? ==> Shaped(r.value, base)
  {
    if n.None? || n.value.Null? then Ok(base)
    else if !n.value.Mapping? then Err
    else if forall k | k in base :: FieldDecodes(base[k], Child(n, k)) then
      Ok(map k | k in base :: Field(base[k], Child(n, k)))
    else Err
  }

  function DecodeRetention(n: Option<Node>): (r: Result<Option<Record>>)
    ensures r.Ok? && r.value.Some? ==> Shaped(r.value.value, RETENTION_ZERO)
  {
    if n.None? || n.value.Null? then Ok(None)
    else match DecodeRecord(RETENTION_ZERO, n)
      case Ok(v) => Ok(Some(v))
      case Err => Err
  }

  function DecodeEntry(n: Node): (r: Result<StorageEntry>)
    ensures r.Ok? ==> EntryTyped(r.value)
  {
    if !n.Mapping? then Err
    else
      var at := k => Child(Some(n), k);
      var zfs := DecodeRecord(ZFS_ZERO, Child(Some(n), "zfs"));
      var retention := DecodeRetention(Child(Some(n), "retention"));
      if && FieldDecodes(Str(""), at("name")) && FieldDecodes(Str(""), at("path"))
         && FieldDecodes(Bool(false), at("default")) && FieldDecodes(Str(""), at("backend"))
         && zfs.Ok? && retention.Ok?
      then Ok(StorageEntry(
        Field(Str(""), at("name")).s, Field(Str(""), at("path")).s, Field(Bool(false), at("default")).b,
        Field(Str(""), at("backend")).s, zfs.value, retention.value))
      else Err
  }

  /** A list, element by element: a null is dropped, and anything else must decode. */
  function DecodeAll<T>(items: seq<Node>, decode: Node -> Result<T>): (r: Result<seq<T>>)
    ensures r.Ok? ==> forall e | e in r.value :: exists n :: n in items && decode(n) == Ok(e)
  {
    if items == [] then Ok([])
    else
      var rest := DecodeAll(items[1..], decode);
      if rest.Err? then Err
      else if items[0].Null? then rest
      else match decode(items[0])
        case Ok(e) => assert items[0] in items; Ok([e] + rest.value)
        case Err => Err
  }

  function DecodeMuxer(n: Node): (r: Result<Record>)
    ensures r.Ok? ==> Shaped(r.value, MUXER_ZERO)
  {
    DecodeRecord(MUXER_ZERO, Some(n))
  }

  function DecodeStorage(n: Option<Node>): (r: Result<Option<seq<StorageEntry>>>)
    ensures r.Ok? && r.value.Some? ==> forall e | e in r.value.value :: EntryTyped(e)
  {
    if n.None? || n.value.Null? then Ok(None)
    else if !n.value.Sequence? then Err
    else match DecodeAll(n.value.items, DecodeEntry)
      case Ok(list) => Ok(Some(list))
      case Err => Err
  }

  function DecodeMuxerList(n: Option<Node>): (r: Result<Option<seq<Record>>>)
    ensures r.Ok? && r.value.Some? ==> forall m | m in r.value.value :: Shaped(m, MUXER_ZERO)
  {
    if n.None? || n.value.Null? then Ok(None)
    else if !n.value.Sequence? then Err
    else match DecodeAll(n.value.items, DecodeMuxer)
      case Ok(list) => Ok(Some(list))
      case Err => Err
  }

  /** The configuration a document means: decoded over `Default()`, then resolved.  An empty document
      is a null node. */
  function Decode(doc: Node): (r: Result<Config>)
    ensures r.Ok? ==> Typed(r.value)
  {
    if !doc.Null? && !doc.Mapping? then Err
    else
      var storage := DecodeStorage(Child(Some(doc), "storage"));
      var muxers := DecodeMuxerList(Child(Some(doc), "muxers"));
      if && (forall s | s in SECTIONS :: DecodeRecord(SECTIONS[s], Child(Some(doc), s)).Ok?)
         && storage.Ok? && muxers.Ok?
      then
        ResolveIdempotent(storage.value);
        Ok(Config(
          map s | s in SECTIONS :: DecodeRecord(SECTIONS[s], Child(Some(doc), s)).value,
          ResolveStorages(storage.value), muxers.value))
      else Err
  }

  // ---- encoding ----

  function MarshalEntry(e: StorageEntry): Node {
    Mapping(map[
      "name" := Str(e.name), "path" := Str(e.path), "default" := Bool(e.isDefault), "backend" := Str(e.backend),
      "zfs" := Mapping(e.zfs),
      "retention" := if e.retention.None? then Null else Mapping(e.retention.value)])
  }

  function MarshalStorage(list: seq<StorageEntry>): seq<Node> {
    seq(|list|, i requires 0 <= i < |list| => MarshalEntry(list[i]))
  }

  function MarshalMuxers(list: seq<Record>): seq<Node> {
    seq(|list|, i requires 0 <= i < |list| => Mapping(list[i]))
  }

  function StorageNode(c: Config): Node {
    if c.storage.None? then Null else Sequence(MarshalStorage(c.storage.value))
  }

  function MuxersNode(c: Config): Node {
    if c.muxers.None? then Null else Sequence(MarshalMuxers(c.muxers.value))
  }

  /** The canonical document: every key present. */
  function Marshal(c: Config): Node {
    Mapping(map k | k in c.sections.Keys + {"storage", "muxers"} ::
      if k == "storage" then StorageNode(c) else if k == "muxers" then MuxersNode(c) else Mapping(c.sections[k]))
  }
}
