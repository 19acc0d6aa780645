/** Which faults are reported: of every fault there is, the condition on the document under which the validator, or the
    backend check, names it; where it names an earlier entry, that is the first such one. */
module ConfigFaults {
  import opened Wrappers
  import opened YamlTree
  import opened ConfigSchema
  import opened ConfigValidate
  import opened Lists

  // ---- reports ----

  lemma {:induction false} InConcat<T>(parts: seq<seq<T>>, x: T)
    ensures x in Concat(parts) <==> exists i :: 0 <= i < |parts| && x in parts[i]
  {
    if parts != [] {
      var rest := parts[..|parts| - 1];
      InConcat(rest, x);
      assert forall i | 0 <= i < |rest| :: rest[i] == parts[i];
      if i :| 0 <= i < |rest| && x in rest[i] {
        assert x in parts[i];
      }
      if i :| 0 <= i < |parts| && x in parts[i] {
        assert i < |rest| ==> x in rest[i];
      }
    }
  }

  /** Entry `i` has the key of `j`, and no entry before `j` has it. */
  predicate FirstClaim(keys: seq<Option<string>>, i: nat, j: nat) {
    j < i < |keys| && keys[i].Some? && keys[j] == keys[i] && forall k | 0 <= k < j :: keys[k] != keys[i]
  }

  lemma TakenExactly(keys: seq<Option<string>>, i: nat, j: nat)
    requires i < |keys|
    ensures TakenBy(keys, i) == Some(j) <==> FirstClaim(keys, i, j)
  {
    if keys[i].Some? {
      var earlier := keys[..i];
      FirstOfSpec(earlier, keys[i].value);
      assert forall k | 0 <= k < i :: earlier[k] == keys[k];
      if FirstClaim(keys, i, j) {
        assert earlier[j] == keys[i];
        var f := FirstOf(earlier, keys[i].value).value;
        assert keys[f] == keys[i];
        assert f == j;
      }
    }
  }

  // ---- the flat sections ----

  /** A setting outside the sections' lists that is refused for its own value. */
  predicate ValueWrong(c: Config, s: Setting) {
    var tls, n := Section(c, "tls"), Section(c, "notifications");
    match s
    case PreferredTransport =>
      var x := TextAt(Section(c, "backup"), "preferred_transport"); x != "usb" && x != "wifi"
    case KeyFile => TextAt(tls, "cert_file") != "" && TextAt(tls, "key_file") == ""
    case CertFile => TextAt(tls, "key_file") != "" && TextAt(tls, "cert_file") == ""
    case IntervalMinutes => NumberAt(Section(c, "reconcile"), "interval_minutes") < 0
    case StalenessDays => NumberAt(n, "staleness_days") < 0
    case CooldownHours => NumberAt(n, "reminder_cooldown_hours") < 0
    case OverdueDays => NumberAt(n, "overdue_days") < 0 || 0 <= NumberAt(n, "overdue_days") < NumberAt(n, "staleness_days")
    case Theme => var x := TextAt(Section(c, "ui"), "theme"); x != "system" && x != "light" && x != "dark"
    case _ => false
  }

  function FlatFaults(c: Config): seq<Fault> {
    TransportFaults(c) + TlsFaults(c)
    + Check(NumberAt(Section(c, "reconcile"), "interval_minutes") >= 0, IntervalMinutes)
    + NotificationFaults(c)
    + Check(TextAt(Section(c, "ui"), "theme") in {"system", "light", "dark"}, Theme)
  }

  lemma FlatSays(c: Config, f: Fault)
    ensures f in FlatFaults(c) <==> f.Value? && ValueWrong(c, f.setting)
  {
    hide Section, TextAt, NumberAt;
  }

  /** One mistake in the two day counts is one report. */
  lemma OneReportOfTheDays(c: Config)
    ensures |NotificationFaults(c)| <= 3
    ensures ValueWrong(c, StalenessDays) ==> NotificationFaults(c)[0] == Value(StalenessDays)
    ensures !ValueWrong(c, StalenessDays) && !ValueWrong(c, CooldownHours) && ValueWrong(c, OverdueDays) ==>
      NotificationFaults(c) == [Value(OverdueDays)]
  {
    hide Section, TextAt, NumberAt;
  }

  // ---- storages ----

  predicate EntryValueWrong(e: StorageEntry, s: Setting) {
    match s
    case Backend =>
      e.backend != "auto" && e.backend != "zfs" && e.backend != "reflink" && e.backend != "hardlink" && e.backend != "copy"
    case ZfsMode => TextAt(e.zfs, "mode") != "hook"
    case ZfsSeed => var x := TextAt(e.zfs, "seed"); x != "auto" && x != "reflink" && x != "copy"
    case ZfsHookCmd => TextAt(e.zfs, "hook_cmd") != ""
    case ZfsSshPort => NumberAt(e.zfs, "ssh_port") < 0 || NumberAt(e.zfs, "ssh_port") > 65535
    case KeepRecent => e.retention.Some? && NumberAt(e.retention.value, "keep_recent") < 0
    case KeepDaily => e.retention.Some? && NumberAt(e.retention.value, "keep_daily") < 0
    case KeepWeekly => e.retention.Some? && NumberAt(e.retention.value, "keep_weekly") < 0
    case _ => false
  }

  lemma {:induction false} FailingSays(at: nat, checks: seq<(bool, Setting)>, f: Fault)
    ensures f in Failing(at, checks) <==> f.EntryValue? && f.at == at && (false, f.setting) in checks
  {
    if checks != [] {
      FailingSays(at, checks[1..], f);
      assert checks == [checks[0]] + checks[1..];
    }
  }

  lemma ValueSays(e: StorageEntry, s: Setting)
    ensures (false, s) in ValueChecks(e) <==> EntryValueWrong(e, s)
  {
    hide TextAt, NumberAt;
  }

  predicate SameName(list: seq<StorageEntry>, i: nat, j: nat) {
    && j < i < |list| && list[i].name != "" && list[j].name == list[i].name
    && forall k | 0 <= k < j :: list[k].name != list[i].name
  }

  predicate SamePath(h: Host, list: seq<StorageEntry>, i: nat, j: nat) {
    && j < i < |list| && IsAbs(list[i].path) && IsAbs(list[j].path) && h.clean(list[j].path) == h.clean(list[i].path)
    && forall k | 0 <= k < j :: IsAbs(list[k].path) ==> h.clean(list[k].path) != h.clean(list[i].path)
  }

  /** What the storage loop says of a list. */
  predicate StorageSays(h: Host, list: seq<StorageEntry>, f: Fault) {
    match f
    case NameTaken(i, j) => SameName(list, i, j)
    case PathMissing(i) => i < |list| && list[i].path == ""
    case PathRelative(i) => i < |list| && list[i].path != "" && list[i].path[0] != '/'
    case PathTaken(i, j) => SamePath(h, list, i, j)
    case EntryValue(i, s) => i < |list| && EntryValueWrong(list[i], s)
    case NoDefault => list != [] && forall i | 0 <= i < |list| :: !list[i].isDefault
    case ManyDefaults(n) => n > 1 && n == |DefaultPlaces(list)|
    case _ => false
  }

  function DefaultPlaces(list: seq<StorageEntry>): set<int> { set i | 0 <= i < |list| && list[i].isDefault }

  lemma {:induction false} DefaultsCounted(list: seq<StorageEntry>)
    ensures Defaults(list) == |DefaultPlaces(list)|
  {
    if list != [] {
      var n := |list| - 1;
      DefaultsCounted(list[..n]);
      assert DefaultPlaces(list) == DefaultPlaces(list[..n]) + if list[n].isDefault then {n} else {};
    }
  }

  lemma ListSays(list: seq<StorageEntry>, f: Fault)
    ensures f in ListFaults(list) <==>
      || (f.NoDefault? && list != [] && forall i | 0 <= i < |list| :: !list[i].isDefault)
      || (f.ManyDefaults? && f.count > 1 && f.count == |DefaultPlaces(list)|)
  {
    DefaultsCounted(list);
    if i :| 0 <= i < |list| && list[i].isDefault {
      assert i in DefaultPlaces(list);
    } else {
      assert DefaultPlaces(list) == {};
    }
  }

  lemma NameSays(list: seq<StorageEntry>, i: nat, j: nat)
    requires i < |list|
    ensures TakenBy(NameKeys(list), i) == Some(j) <==> SameName(list, i, j)
  {
    var keys := NameKeys(list);
    TakenExactly(keys, i, j);
    assert forall k | 0 <= k < |list| :: keys[k] == if list[k].name == "" then None else Some(list[k].name);
    hide TakenBy, NameKeys;
  }

  lemma PathSays(h: Host, list: seq<StorageEntry>, i: nat, j: nat)
    requires i < |list|
    ensures TakenBy(PathKeys(h, list), i) == Some(j) <==> SamePath(h, list, i, j)
    ensures TakenBy(PathKeys(h, list), i).Some? ==> IsAbs(list[i].path)
  {
    var keys := PathKeys(h, list);
    TakenExactly(keys, i, j);
    assert forall k | 0 <= k < |list| :: keys[k] == if IsAbs(list[k].path) then Some(h.clean(list[k].path)) else None;
    hide IsAbs, PathKeys;
  }

  /** The faults of an entry, given what claimed its name and its path first. */
  lemma EntryFaultsSay(name: Option<nat>, path: Option<nat>, at: string, values: seq<Fault>, i: nat, f: Fault)
    ensures f in EntryFaults(name, path, at, values, i) <==>
      || (f.NameTaken? && f.at == i && name == Some(f.first))
      || (f.PathMissing? && f.at == i && at == "")
      || (f.PathRelative? && f.at == i && at != "" && at[0] != '/')
      || (f.PathTaken? && f.at == i && IsAbs(at) && path == Some(f.first))
      || f in values
  {
  }

  lemma EntrySays(h: Host, list: seq<StorageEntry>, i: nat, f: Fault)
    requires i < |list|
    ensures f in EntriesFaults(h, list, ValuesFaults(list))[i]
       <==> (f.NameTaken? || f.PathMissing? || f.PathRelative? || f.PathTaken? || f.EntryValue?) && f.at == i && StorageSays(h, list, f)
  {
    hide TakenBy, Failing, ValueChecks, EntryValueWrong, EntryFaults, SameName, SamePath, DefaultPlaces;
    var name, path := TakenBy(NameKeys(list), i), TakenBy(PathKeys(h, list), i);
    EntryFaultsSay(name, path, list[i].path, Failing(i, ValueChecks(list[i])), i, f);
    FailingSays(i, ValueChecks(list[i]), f);
    match f
    case NameTaken(_, j) => NameSays(list, i, j);
    case PathTaken(_, j) => PathSays(h, list, i, j);
    case EntryValue(_, s) => ValueSays(list[i], s);
    case _ =>
  }

  lemma StorageSaysExactly(h: Host, list: seq<StorageEntry>, f: Fault)
    ensures f in StorageFaults(h, Some(list)) <==> StorageSays(h, list, f)
  {
    hide EntryFaults, TakenBy, ListFaults, EntryValueWrong, SameName, SamePath, Failing, ValueChecks, DefaultPlaces;
    var parts := EntriesFaults(h, list, ValuesFaults(list));
    assert |parts| == |list|;
    hide EntriesFaults, ValuesFaults;
    InConcat(parts, f);
    ListSays(list, f);
    forall i | 0 <= i < |list|
      ensures f in parts[i]
         <==> (f.NameTaken? || f.PathMissing? || f.PathRelative? || f.PathTaken? || f.EntryValue?) && f.at == i && StorageSays(h, list, f)
    {
      EntrySays(h, list, i, f);
    }
    if StorageSays(h, list, f) && !f.NoDefault? && !f.ManyDefaults? {
      SaysSomewhere(h, list, f);
      assert f in parts[f.at];
    }
  }

  lemma SaysSomewhere(h: Host, list: seq<StorageEntry>, f: Fault)
    requires StorageSays(h, list, f) && !f.NoDefault? && !f.ManyDefaults?
    ensures (f.NameTaken? || f.PathMissing? || f.PathRelative? || f.PathTaken? || f.EntryValue?) && f.at < |list|
  {
  }

  // ---- muxers ----

  predicate SameAddress(h: Host, list: seq<Record>, i: nat, j: nat) {
    && j < i < |list| && !h.blank(TextAt(list[i], "address")) && TextAt(list[j], "address") == TextAt(list[i], "address")
    && forall k | 0 <= k < j :: TextAt(list[k], "address") != TextAt(list[i], "address")
  }

  predicate MuxerSays(h: Host, list: seq<Record>, f: Fault) {
    match f
    case MuxerBlank(i) => i < |list| && h.blank(TextAt(list[i], "address"))
    case MuxerAddress(i) =>
      i < |list| && !h.blank(TextAt(list[i], "address")) && !h.dials(TextAt(list[i], "address"))
    case MuxerType(i) =>
      && i < |list| && !h.blank(TextAt(list[i], "address"))
      && TextAt(list[i], "type") != "" && TextAt(list[i], "type") != "external" && TextAt(list[i], "type") != "managed"
    case MuxerTaken(i, j) => SameAddress(h, list, i, j)
    case _ => false
  }

  lemma OneMuxerSays(h: Host, list: seq<Record>, i: nat, f: Fault)
    requires i < |list|
    ensures f in MuxersFaults(h, list)[i]
       <==> (f.MuxerBlank? || f.MuxerAddress? || f.MuxerType? || f.MuxerTaken?) && f.at == i && MuxerSays(h, list, f)
  {
    if f.MuxerTaken? {
      TakenExactly(AddressKeys(h, list), i, f.first);
    }
    hide TakenBy, TextAt;
  }

  lemma MuxerSaysExactly(h: Host, list: seq<Record>, f: Fault)
    ensures f in Concat(MuxersFaults(h, list)) <==> MuxerSays(h, list, f)
  {
    var parts := MuxersFaults(h, list);
    InConcat(parts, f);
    forall i | 0 <= i < |list|
      ensures f in parts[i]
         <==> (f.MuxerBlank? || f.MuxerAddress? || f.MuxerType? || f.MuxerTaken?) && f.at == i && MuxerSays(h, list, f)
    {
      OneMuxerSays(h, list, i, f);
    }
    assert |parts| == |list|;
    if MuxerSays(h, list, f) {
      assert f in parts[f.at];
    }
    hide MuxersFaults, TextAt;
  }

  // ---- the whole document ----

  /** Which faults the validator reports of a document: these, and no other. */
  lemma ValidatorSaysExactly(h: Host, c: Config, f: Fault)
    ensures f in Faults(h, c) <==>
      || (f.Value? && ValueWrong(c, f.setting))
      || (c.storage.Some? && StorageSays(h, c.storage.value, f))
      || MuxerSays(h, ResolvedMuxers(c), f)
  {
    FlatSays(c, f);
    if c.storage.Some? {
      StorageSaysExactly(h, c.storage.value, f);
    }
    MuxerSaysExactly(h, ResolvedMuxers(c), f);
    hide ValueWrong, StorageSays, MuxerSays, TransportFaults, TlsFaults, NotificationFaults, MuxersFaults, Section, TextAt, NumberAt;
  }

  // ---- backends ----

  /** This entry would create datasets under its parent: it is on zfs, names one and can reach its pool. */
  predicate Claims(e: StorageEntry) {
    && IsZfs(e) && TextAt(e.zfs, "parent_dataset") != "" && TextAt(e.zfs, "ssh_user") != "" && TextAt(e.zfs, "ssh_host") != ""
  }

  predicate SameDataset(list: seq<StorageEntry>, i: nat, j: nat) {
    && j < i < |list| && Claims(list[i]) && Claims(list[j])
    && TextAt(list[j].zfs, "parent_dataset") == TextAt(list[i].zfs, "parent_dataset")
    && forall k | 0 <= k < j && Claims(list[k]) :: TextAt(list[k].zfs, "parent_dataset") != TextAt(list[i].zfs, "parent_dataset")
  }

  /** What the backend check says: a missing dataset first; then the user that a host lacks, or else the host. */
  predicate BackendSays(list: seq<StorageEntry>, f: Fault) {
    match f
    case NoParentDataset(i) => i < |list| && IsZfs(list[i]) && TextAt(list[i].zfs, "parent_dataset") == ""
    case NoTransport(i, s) =>
      && i < |list| && IsZfs(list[i]) && TextAt(list[i].zfs, "parent_dataset") != ""
      && ((s.SshUser? && TextAt(list[i].zfs, "ssh_host") != "" && TextAt(list[i].zfs, "ssh_user") == "")
          || (s.SshHost? && TextAt(list[i].zfs, "ssh_host") == ""))
    case DatasetTaken(i, j) => SameDataset(list, i, j)
    case _ => false
  }

  lemma OneBackendSays(list: seq<StorageEntry>, i: nat, f: Fault)
    requires i < |list|
    ensures f in BackendsFaults(list)[i]
       <==> (f.NoParentDataset? || f.NoTransport? || f.DatasetTaken?) && f.at == i && BackendSays(list, f)
  {
    if f.DatasetTaken? {
      TakenExactly(DatasetKeys(list), i, f.first);
    }
    hide TakenBy, TextAt, IsZfs;
  }

  lemma BackendSaysExactly(list: seq<StorageEntry>, f: Fault)
    ensures f in Concat(BackendsFaults(list)) <==> BackendSays(list, f)
  {
    var parts := BackendsFaults(list);
    InConcat(parts, f);
    forall i | 0 <= i < |list|
      ensures f in parts[i] <==> (f.NoParentDataset? || f.NoTransport? || f.DatasetTaken?) && f.at == i && BackendSays(list, f)
    {
      OneBackendSays(list, i, f);
    }
    assert |parts| == |list|;
    if BackendSays(list, f) {
      assert f in parts[f.at];
    }
    hide BackendsFaults, TextAt, IsZfs;
  }
}
