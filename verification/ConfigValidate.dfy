/** The accepted-document predicate: what `Validate` and the backend check report, loop by loop, and the
    declarative condition under which they report nothing. */
module ConfigValidate {
  import opened Wrappers
  import opened YamlTree
  import opened ConfigSchema
  import opened Lists

  /** What the validator asks of the platform: path cleaning, blankness, and the muxer address grammar. */
  datatype Host = Host(clean: string -> string, blank: string -> bool, dials: string -> bool)

  /** A key whose own value can be refused. */
  datatype Setting =
    | PreferredTransport | CertFile | KeyFile | IntervalMinutes | StalenessDays | CooldownHours | OverdueDays | Theme
    | Backend | ZfsMode | ZfsSeed | ZfsHookCmd | ZfsSshPort | KeepRecent | KeepDaily | KeepWeekly | SshUser | SshHost

  datatype Fault =
    | Value(setting: Setting)
    | NameTaken(at: nat, first: nat)
    | PathMissing(at: nat)
    | PathRelative(at: nat)
    | PathTaken(at: nat, first: nat)
    | EntryValue(at: nat, setting: Setting)
    | NoDefault
    | ManyDefaults(count: nat)
    | MuxerBlank(at: nat)
    | MuxerAddress(at: nat)
    | MuxerType(at: nat)
    | MuxerTaken(at: nat, first: nat)
    | NoParentDataset(at: nat)
    | NoTransport(at: nat, setting: Setting)
    | DatasetTaken(at: nat, first: nat)

  function TextAt(r: Record, k: string): string { if k in r && r[k].Str? then r[k].s else "" }

  function NumberAt(r: Record, k: string): int { if k in r && r[k].Int? then r[k].i else 0 }

  // ---- duplicates ----

  /** The first place a key was seen; `None` places take no part. */
  function FirstOf(keys: seq<Option<string>>, key: string): Option<nat> {
    if keys == [] then None
    else
      var earlier := FirstOf(keys[..|keys| - 1], key);
      if earlier.Some? then earlier
      else if keys[|keys| - 1] == Some(key) then Some(|keys| - 1)
      else None
  }

  function TakenBy(keys: seq<Option<string>>, i: nat): Option<nat>
    requires i < |keys|
  {
    if keys[i].None? then None else FirstOf(keys[..i], keys[i].value)
  }

  predicate Distinct(keys: seq<Option<string>>) {
    forall i, j | 0 <= i < j < |keys| && keys[i].Some? :: keys[i] != keys[j]
  }

  lemma {:induction false} FirstOfSpec(keys: seq<Option<string>>, key: string)
    ensures FirstOf(keys, key).None? <==> forall i | 0 <= i < |keys| :: keys[i] != Some(key)
    ensures FirstOf(keys, key).Some? ==>
      var f := FirstOf(keys, key).value;
      f < |keys| && keys[f] == Some(key) && forall i | 0 <= i < f :: keys[i] != Some(key)
  {
    if keys != [] {
      var rest := keys[..|keys| - 1];
      FirstOfSpec(rest, key);
      assert forall i | 0 <= i < |rest| :: keys[i] == rest[i];
      if FirstOf(rest, key).None? && keys[|keys| - 1] != Some(key) {
        forall i | 0 <= i < |keys| ensures keys[i] != Some(key) {
          assert i < |rest| ==> rest[i] != Some(key);
        }
      }
    }
  }

  lemma {:induction false} NothingTaken(keys: seq<Option<string>>)
    ensures (forall i | 0 <= i < |keys| :: TakenBy(keys, i).None?) <==> Distinct(keys)
  {
    forall i | 0 <= i < |keys| && keys[i].Some?
      ensures TakenBy(keys, i).None? <==> forall j | 0 <= j < i :: keys[j] != keys[i]
    {
      FirstOfSpec(keys[..i], keys[i].value);
      assert forall j | 0 <= j < i :: keys[..i][j] == keys[j];
    }
    if forall i | 0 <= i < |keys| :: TakenBy(keys, i).None? {
      forall i, j | 0 <= i < j < |keys| && keys[i].Some? ensures keys[i] != keys[j] {
        assert TakenBy(keys, j).None?;
      }
    }
  }

  /** `seen` is what the loop's map holds after the first `i` keys. */
  ghost predicate Recorded(seen: map<string, nat>, keys: seq<Option<string>>) {
    && (forall k :: k in seen <==> FirstOf(keys, k).Some?)
    && (forall k | k in seen :: FirstOf(keys, k) == Some(seen[k]))
  }

  /** One turn of a validator loop: has this key been seen, and where first? */
  method Claim(seen: map<string, nat>, key: Option<string>, i: nat, ghost keys: seq<Option<string>>)
    returns (first: Option<nat>, now: map<string, nat>)
    requires i < |keys| && keys[i] == key && Recorded(seen, keys[..i])
    ensures first == TakenBy(keys, i) && Recorded(now, keys[..i + 1])
  {
    assert keys[..i + 1][..i] == keys[..i];
    first, now := None, seen;
    if key.Some? {
      if key.value in seen {
        first := Some(seen[key.value]);
      } else {
        now := seen[key.value := i];
      }
    }
  }

  // ---- storages ----

  predicate IsAbs(path: string) { path != "" && path[0] == '/' }

  function NameKeys(list: seq<StorageEntry>): seq<Option<string>> {
    seq(|list|, i requires 0 <= i < |list| => if list[i].name == "" then None else Some(list[i].name))
  }

  function PathKeys(h: Host, list: seq<StorageEntry>): seq<Option<string>> {
    seq(|list|, i requires 0 <= i < |list| => if IsAbs(list[i].path) then Some(h.clean(list[i].path)) else None)
  }

  const BACKENDS: set<string> := {"auto", "zfs", "reflink", "hardlink", "copy"}

  // The values a retention block may hold, when there is one.
  function RetentionChecks(e: StorageEntry): seq<(bool, Setting)> {
    if e.retention.None? then []
    else [(NumberAt(e.retention.value, "keep_recent") >= 0, KeepRecent),
          (NumberAt(e.retention.value, "keep_daily") >= 0, KeepDaily),
          (NumberAt(e.retention.value, "keep_weekly") >= 0, KeepWeekly)]
  }

  /** What the values of one entry must satisfy, whatever the rest of the list says. */
  function ValueChecks(e: StorageEntry): seq<(bool, Setting)> {
    [(e.backend in BACKENDS, Backend),
     (TextAt(e.zfs, "mode") == "hook", ZfsMode),
     (TextAt(e.zfs, "seed") in {"auto", "reflink", "copy"}, ZfsSeed),
     (TextAt(e.zfs, "hook_cmd") == "", ZfsHookCmd),
     (0 <= NumberAt(e.zfs, "ssh_port") <= 65535, ZfsSshPort)]
    + RetentionChecks(e)
  }

  function Failing(at: nat, checks: seq<(bool, Setting)>): (r: seq<Fault>)
    ensures r == [] <==> forall c | c in checks :: c.0
  {
    if checks == [] then []
    else (if checks[0].0 then [] else [EntryValue(at, checks[0].1)]) + Failing(at, checks[1..])
  }

  function ValuesFaults(list: seq<StorageEntry>): seq<seq<Fault>> {
    seq(|list|, i requires 0 <= i < |list| => Failing(i, ValueChecks(list[i])))
  }

  /** What is reported of entry `i`, at `at`, whose name and path were first claimed by `name` and `path`. */
  function EntryFaults(name: Option<nat>, path: Option<nat>, at: string, values: seq<Fault>, i: nat): seq<Fault> {
    (if name.Some? then [NameTaken(i, name.value)] else [])
    + (if at == "" then [PathMissing(i)]
       else if !IsAbs(at) then [PathRelative(i)]
       else if path.Some? then [PathTaken(i, path.value)]
       else [])
    + values
  }

  function EntriesFaults(h: Host, list: seq<StorageEntry>, values: seq<seq<Fault>>): seq<seq<Fault>>
    requires |values| == |list|
  {
    seq(|list|, i requires 0 <= i < |list| =>
      EntryFaults(TakenBy(NameKeys(list), i), TakenBy(PathKeys(h, list), i), list[i].path, values[i], i))
  }

  function Defaults(list: seq<StorageEntry>): nat {
    if list == [] then 0 else Defaults(list[..|list| - 1]) + if list[|list| - 1].isDefault then 1 else 0
  }

  function ListFaults(list: seq<StorageEntry>): seq<Fault> {
    if list == [] || Defaults(list) == 1 then []
    else if Defaults(list) == 0 then [NoDefault]
    else [ManyDefaults(Defaults(list))]
  }

  function StorageFaults(h: Host, storage: Option<seq<StorageEntry>>): seq<Fault> {
    if storage.None? then []
    else Concat(EntriesFaults(h, storage.value, ValuesFaults(storage.value))) + ListFaults(storage.value)
  }

  /** The storage loop, over the entries and what is wrong with each one's own values. */
  method ValidateEntries(h: Host, list: seq<StorageEntry>, values: seq<seq<Fault>>) returns (errs: seq<Fault>)
    requires |values| == |list|
    ensures errs == Concat(EntriesFaults(h, list, values)) + ListFaults(list)
  {
    errs := [];
    var seenName: map<string, nat> := map[];
    var seenPath: map<string, nat> := map[];
    var defaults := 0;
    ghost var names, paths, parts := NameKeys(list), PathKeys(h, list), EntriesFaults(h, list, values);
    assert names[..0] == [] && paths[..0] == [] && parts[..0] == [];
    for i := 0 to |list|
      invariant errs == Concat(parts[..i])
      invariant Recorded(seenName, names[..i]) && Recorded(seenPath, paths[..i])
      invariant defaults == Defaults(list[..i])
    {
      var e := list[i];
      var name, path;
      name, seenName := Claim(seenName, if e.name == "" then None else Some(e.name), i, names);
      path, seenPath := Claim(seenPath, if IsAbs(e.path) then Some(h.clean(e.path)) else None, i, paths);
      ConcatNext(parts, i);
      errs := errs + EntryFaults(name, path, e.path, values[i], i);
      if e.isDefault {
        defaults := defaults + 1;
      }
      assert list[..i + 1][..i] == list[..i];
    }
    assert list[..|list|] == list && parts[..|list|] == parts;
    if list != [] {
      if defaults == 0 {
        errs := errs + [NoDefault];
      } else if defaults > 1 {
        errs := errs + [ManyDefaults(defaults)];
      }
    }
  }

  method ValidateStorages(h: Host, storage: Option<seq<StorageEntry>>) returns (errs: seq<Fault>)
    ensures errs == StorageFaults(h, storage)
  {
    errs := [];
    if storage.Some? {
      errs := ValidateEntries(h, storage.value, ValuesFaults(storage.value));
    }
  }

  // ---- muxers ----

  // What the list means when it is absent.
  const DEFAULT_MUXERS: seq<Record> := [
    map["address" := Str("/var/run/usbmuxd"), "type" := Str("")],
    map["address" := Str("/var/run/mux/usbmuxd"), "type" := Str("")]]

  function ResolvedMuxers(c: Config): seq<Record> {
    if c.muxers.None? then DEFAULT_MUXERS else c.muxers.value
  }

  function AddressKeys(h: Host, list: seq<Record>): seq<Option<string>> {
    seq(|list|, i requires 0 <= i < |list| =>
      if h.blank(TextAt(list[i], "address")) then None else Some(TextAt(list[i], "address")))
  }

  function MuxerFaults(h: Host, m: Record, first: Option<nat>, i: nat): seq<Fault> {
    if h.blank(TextAt(m, "address")) then [MuxerBlank(i)]
    else
      (if h.dials(TextAt(m, "address")) then [] else [MuxerAddress(i)])
      + (if TextAt(m, "type") in {"", "external", "managed"} then [] else [MuxerType(i)])
      + (if first.Some? then [MuxerTaken(i, first.value)] else [])
  }

  function MuxersFaults(h: Host, list: seq<Record>): seq<seq<Fault>> {
    seq(|list|, i requires 0 <= i < |list| => MuxerFaults(h, list[i], TakenBy(AddressKeys(h, list), i), i))
  }

  method ValidateMuxers(h: Host, list: seq<Record>) returns (errs: seq<Fault>)
    ensures errs == Concat(MuxersFaults(h, list))
  {
    errs := [];
    var seen: map<string, nat> := map[];
    ghost var keys, parts := AddressKeys(h, list), MuxersFaults(h, list);
    assert keys[..0] == [];
    for i := 0 to |list|
      invariant errs == Concat(parts[..i])
      invariant Recorded(seen, keys[..i])
    {
      var address := TextAt(list[i], "address");
      var first;
      first, seen := Claim(seen, if h.blank(address) then None else Some(address), i, keys);
      var found := MuxerFaults(h, list[i], first, i);
      assert found == parts[i];
      ConcatNext(parts, i);
      errs := errs + found;
    }
    assert parts[..|list|] == parts;
  }

  // ---- the flat sections ----

  function Section(c: Config, s: string): Record { if s in c.sections then c.sections[s] else map[] }

  function Check(ok: bool, setting: Setting): seq<Fault> { if ok then [] else [Value(setting)] }

  function TransportFaults(c: Config): seq<Fault> {
    Check(TextAt(Section(c, "backup"), "preferred_transport") in {"usb", "wifi"}, PreferredTransport)
  }

  function TlsFaults(c: Config): seq<Fault> {
    var cert, key := TextAt(Section(c, "tls"), "cert_file"), TextAt(Section(c, "tls"), "key_file");
    Check(cert == "" || key != "", KeyFile) + Check(key == "" || cert != "", CertFile)
  }

  function NotificationFaults(c: Config): seq<Fault> {
    var n := Section(c, "notifications");
    var stale, overdue := NumberAt(n, "staleness_days"), NumberAt(n, "overdue_days");
    Check(stale >= 0, StalenessDays)
    + Check(NumberAt(n, "reminder_cooldown_hours") >= 0, CooldownHours)
    + Check(overdue >= 0, OverdueDays)
    + Check(overdue < 0 || stale < 0 || stale <= overdue, OverdueDays)
  }

  function Faults(h: Host, c: Config): seq<Fault> {
    TransportFaults(c)
    + StorageFaults(h, c.storage)
    + TlsFaults(c)
    + Concat(MuxersFaults(h, ResolvedMuxers(c)))
    + Check(NumberAt(Section(c, "reconcile"), "interval_minutes") >= 0, IntervalMinutes)
    + NotificationFaults(c)
    + Check(TextAt(Section(c, "ui"), "theme") in {"system", "light", "dark"}, Theme)
  }

  method Validate(h: Host, c: Config) returns (errs: seq<Fault>)
    ensures errs == Faults(h, c)
  {
    var storage := ValidateStorages(h, c.storage);
    var muxers := ValidateMuxers(h, ResolvedMuxers(c));
    errs := TransportFaults(c) + storage + TlsFaults(c) + muxers
      + Check(NumberAt(Section(c, "reconcile"), "interval_minutes") >= 0, IntervalMinutes)
      + NotificationFaults(c)
      + Check(TextAt(Section(c, "ui"), "theme") in {"system", "light", "dark"}, Theme);
  }

  // ---- what acceptance means ----

  predicate OnlyDefault(list: seq<StorageEntry>, i: nat) {
    i < |list| && list[i].isDefault && forall j | 0 <= j < |list| && j != i :: !list[j].isDefault
  }

  predicate OneDefault(list: seq<StorageEntry>) { exists i :: 0 <= i < |list| && OnlyDefault(list, i) }

  predicate ValuesAccepted(e: StorageEntry) { forall c | c in ValueChecks(e) :: c.0 }

  predicate PathsSound(list: seq<StorageEntry>) { forall i | 0 <= i < |list| :: IsAbs(list[i].path) }

  predicate ValuesSound(list: seq<StorageEntry>) { forall i | 0 <= i < |list| :: ValuesAccepted(list[i]) }

  predicate PathsApart(h: Host, list: seq<StorageEntry>) {
    forall i, j | 0 <= i < j < |list| :: h.clean(list[i].path) != h.clean(list[j].path)
  }

  predicate NamesApart(list: seq<StorageEntry>) {
    forall i, j | 0 <= i < j < |list| && list[i].name != "" :: list[i].name != list[j].name
  }

  predicate StoragesAccepted(h: Host, list: seq<StorageEntry>) {
    PathsSound(list) && ValuesSound(list) && PathsApart(h, list) && NamesApart(list) && (list != [] ==> OneDefault(list))
  }

  predicate MuxersAccepted(h: Host, list: seq<Record>) {
    && (forall i | 0 <= i < |list| ::
          !h.blank(TextAt(list[i], "address")) && h.dials(TextAt(list[i], "address"))
          && TextAt(list[i], "type") in {"", "external", "managed"})
    && (forall i, j | 0 <= i < j < |list| :: TextAt(list[i], "address") != TextAt(list[j], "address"))
  }

  lemma {:induction false} DefaultsCount(list: seq<StorageEntry>)
    ensures Defaults(list) == 0 <==> forall j | 0 <= j < |list| :: !list[j].isDefault
    ensures Defaults(list) == 1 <==> OneDefault(list)
  {
    if list != [] {
      var last, rest := |list| - 1, list[..|list| - 1];
      DefaultsCount(rest);
      assert forall j | 0 <= j < last :: rest[j] == list[j];
      if OneDefault(list) {
        var i :| 0 <= i < |list| && OnlyDefault(list, i);
        assert i < last ==> OnlyDefault(rest, i);
      }
      if OneDefault(rest) && !list[last].isDefault {
        var i :| 0 <= i < |rest| && OnlyDefault(rest, i);
        assert OnlyDefault(list, i);
      }
      if Defaults(rest) == 0 && list[last].isDefault {
        assert OnlyDefault(list, last);
      }
    }
  }

  lemma NamesAccepted(list: seq<StorageEntry>)
    ensures Distinct(NameKeys(list)) <==> NamesApart(list)
  {
    var names := NameKeys(list);
    assert forall i | 0 <= i < |list| :: names[i] == if list[i].name == "" then None else Some(list[i].name);
  }

  lemma PathsAccepted(h: Host, list: seq<StorageEntry>)
    requires forall i | 0 <= i < |list| :: IsAbs(list[i].path)
    ensures Distinct(PathKeys(h, list)) <==> PathsApart(h, list)
  {
    var paths := PathKeys(h, list);
    assert forall i | 0 <= i < |list| :: paths[i] == Some(h.clean(list[i].path));
  }

  lemma EntriesAccepted(h: Host, list: seq<StorageEntry>, values: seq<seq<Fault>>)
    requires |values| == |list|
    ensures Concat(EntriesFaults(h, list, values)) == []
       <==> PathsSound(list) && PathsApart(h, list) && NamesApart(list) && forall i | 0 <= i < |list| :: values[i] == []
  {
    ConcatEmpty(EntriesFaults(h, list, values));
    NamesAccepted(list);
    if PathsSound(list) {
      PathsAccepted(h, list);
    }
    var names, paths := NameKeys(list), PathKeys(h, list);
    NothingTaken(names);
    NothingTaken(paths);
    forall i | 0 <= i < |list|
      ensures EntriesFaults(h, list, values)[i] == [] <==>
        TakenBy(names, i).None? && IsAbs(list[i].path) && TakenBy(paths, i).None? && values[i] == []
    {
    }
  }

  /** The storage loop reports nothing exactly on the lists whose entries can be told apart, hold legal
      values and name one default. */
  lemma {:induction false} StoragesAcceptedExactly(h: Host, list: seq<StorageEntry>)
    ensures StorageFaults(h, Some(list)) == [] <==> StoragesAccepted(h, list)
  {
    DefaultsCount(list);
    EntriesAccepted(h, list, ValuesFaults(list));
    ValuesExactly(list);
  }

  lemma ValuesExactly(list: seq<StorageEntry>)
    ensures (forall i | 0 <= i < |list| :: ValuesFaults(list)[i] == []) <==> ValuesSound(list)
  {
    forall i | 0 <= i < |list| ensures ValuesFaults(list)[i] == [] <==> ValuesAccepted(list[i]) {}
  }

  /** The muxer loop reports nothing exactly on the lists of distinct, dialable addresses. */
  lemma {:induction false} MuxersAcceptedExactly(h: Host, list: seq<Record>)
    ensures Concat(MuxersFaults(h, list)) == [] <==> MuxersAccepted(h, list)
  {
    var parts, keys := MuxersFaults(h, list), AddressKeys(h, list);
    ConcatEmpty(parts);
    NothingTaken(keys);
    if forall i | 0 <= i < |list| :: !h.blank(TextAt(list[i], "address")) {
      AddressesAccepted(h, list);
    }
    forall i | 0 <= i < |list|
      ensures parts[i] == [] <==>
        !h.blank(TextAt(list[i], "address")) && h.dials(TextAt(list[i], "address"))
        && TextAt(list[i], "type") in {"", "external", "managed"} && TakenBy(keys, i).None?
    {
    }
  }

  lemma AddressesAccepted(h: Host, list: seq<Record>)
    requires forall i | 0 <= i < |list| :: !h.blank(TextAt(list[i], "address"))
    ensures Distinct(AddressKeys(h, list))
       <==> forall i, j | 0 <= i < j < |list| :: TextAt(list[i], "address") != TextAt(list[j], "address")
  {
    var keys := AddressKeys(h, list);
    assert forall i | 0 <= i < |list| :: keys[i] == Some(TextAt(list[i], "address"));
  }

  /** The flat sections: known enums, no negative count, a TLS pair or none, overdue no earlier than stale. */
  predicate SettingsAccepted(c: Config) {
    var tls, n := Section(c, "tls"), Section(c, "notifications");
    && TextAt(Section(c, "backup"), "preferred_transport") in {"usb", "wifi"}
    && (TextAt(tls, "cert_file") == "" <==> TextAt(tls, "key_file") == "")
    && NumberAt(Section(c, "reconcile"), "interval_minutes") >= 0
    && 0 <= NumberAt(n, "staleness_days") <= NumberAt(n, "overdue_days")
    && NumberAt(n, "reminder_cooldown_hours") >= 0
    && TextAt(Section(c, "ui"), "theme") in {"system", "light", "dark"}
  }

  predicate Accepted(h: Host, c: Config) {
    && SettingsAccepted(c)
    && (c.storage.Some? ==> StoragesAccepted(h, c.storage.value))
    && MuxersAccepted(h, ResolvedMuxers(c))
  }

  /** `Validate` reports nothing exactly on the accepted documents. */
  lemma FaultsExactly(h: Host, c: Config)
    ensures Faults(h, c) == [] <==> Accepted(h, c)
  {
    MuxersAcceptedExactly(h, ResolvedMuxers(c));
    if c.storage.Some? {
      StoragesAcceptedExactly(h, c.storage.value);
    }
    SettingsExactly(c);
  }

  lemma SettingsExactly(c: Config)
    ensures SettingsAccepted(c) <==>
      && TransportFaults(c) == [] && TlsFaults(c) == [] && NotificationFaults(c) == []
      && NumberAt(Section(c, "reconcile"), "interval_minutes") >= 0
      && TextAt(Section(c, "ui"), "theme") in {"system", "light", "dark"}
  {
  }

  // ---- storages that are one storage ----

  predicate HasTransport(z: Record) { TextAt(z, "ssh_user") != "" && TextAt(z, "ssh_host") != "" }

  predicate IsZfs(e: StorageEntry) {
    e.backend == "zfs" || (e.backend == "auto" && (TextAt(e.zfs, "parent_dataset") != "" || HasTransport(e.zfs)))
  }

  function DatasetKey(e: StorageEntry): Option<string> {
    if IsZfs(e) && TextAt(e.zfs, "parent_dataset") != "" && HasTransport(e.zfs)
    then Some(TextAt(e.zfs, "parent_dataset")) else None
  }

  function DatasetKeys(list: seq<StorageEntry>): seq<Option<string>> {
    seq(|list|, i requires 0 <= i < |list| => DatasetKey(list[i]))
  }

  function BackendFaults(e: StorageEntry, first: Option<nat>, i: nat): seq<Fault> {
    if !IsZfs(e) then []
    else if TextAt(e.zfs, "parent_dataset") == "" then [NoParentDataset(i)]
    else if !HasTransport(e.zfs) then [NoTransport(i, if TextAt(e.zfs, "ssh_host") != "" then SshUser else SshHost)]
    else if first.Some? then [DatasetTaken(i, first.value)]
    else []
  }

  function BackendsFaults(list: seq<StorageEntry>): seq<seq<Fault>> {
    seq(|list|, i requires 0 <= i < |list| => BackendFaults(list[i], TakenBy(DatasetKeys(list), i), i))
  }

  method CheckStorageBackends(list: seq<StorageEntry>) returns (errs: seq<Fault>)
    ensures errs == Concat(BackendsFaults(list))
  {
    errs := [];
    var seen: map<string, nat> := map[];
    ghost var keys, parts := DatasetKeys(list), BackendsFaults(list);
    assert keys[..0] == [];
    for i := 0 to |list|
      invariant errs == Concat(parts[..i])
      invariant Recorded(seen, keys[..i])
    {
      var e := list[i];
      var first;
      first, seen := Claim(seen, DatasetKey(e), i, keys);
      var found := BackendFaults(e, first, i);
      assert found == parts[i];
      ConcatNext(parts, i);
      errs := errs + found;
    }
    assert parts[..|list|] == parts;
  }

  /** No two zfs storages would create the same dataset, and each can reach its pool. */
  predicate BackendsCoherent(list: seq<StorageEntry>) {
    && (forall i | 0 <= i < |list| :: ReachesItsPool(list[i]))
    && (forall i, j | 0 <= i < j < |list| && IsZfs(list[i]) && IsZfs(list[j]) ::
          TextAt(list[i].zfs, "parent_dataset") != TextAt(list[j].zfs, "parent_dataset"))
  }

  predicate ReachesItsPool(e: StorageEntry) {
    IsZfs(e) ==> TextAt(e.zfs, "parent_dataset") != "" && HasTransport(e.zfs)
  }

  lemma DatasetsDistinct(list: seq<StorageEntry>)
    requires forall i | 0 <= i < |list| :: ReachesItsPool(list[i])
    ensures Distinct(DatasetKeys(list))
       <==> forall i, j | 0 <= i < j < |list| && IsZfs(list[i]) && IsZfs(list[j]) ::
              TextAt(list[i].zfs, "parent_dataset") != TextAt(list[j].zfs, "parent_dataset")
  {
    var keys := DatasetKeys(list);
    forall i | 0 <= i < |list|
      ensures keys[i] == if IsZfs(list[i]) then Some(TextAt(list[i].zfs, "parent_dataset")) else None
    {
      assert ReachesItsPool(list[i]);
    }
  }

  /** The backend check reports nothing exactly on the coherent lists. */
  lemma {:induction false} BackendsCoherentExactly(list: seq<StorageEntry>)
    ensures Concat(BackendsFaults(list)) == [] <==> BackendsCoherent(list)
  {
    var parts, keys := BackendsFaults(list), DatasetKeys(list);
    ConcatEmpty(parts);
    NothingTaken(keys);
    forall i | 0 <= i < |list|
      ensures parts[i] == [] <==> ReachesItsPool(list[i]) && TakenBy(keys, i).None?
    {
    }
    if forall i | 0 <= i < |list| :: ReachesItsPool(list[i]) {
      DatasetsDistinct(list);
    }
  }
}
