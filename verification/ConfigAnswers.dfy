/** What each door of the service answers and leaves, in terms of the documents: when a write goes through, what the
    appliers hear of it, which keys the narrow doors set, and which files load. */
module ConfigAnswers {
  import opened Wrappers
  import opened YamlTree
  import opened ConfigSchema
  import opened ConfigDeclared
  import opened ConfigWriteDeclared
  import opened ConfigWrites
  import opened ConfigValidate
  import opened ConfigLoad
  import opened ConfigService
  import opened ConfigRuns

  // ---- what the appliers hear ----

  /** The service took a new configuration. */
  predicate Took(out: Outcome) { out == Done || out == Applied }

  /** What an applier is told of a step: the change, when a configuration was taken, and else nothing. */
  function News(was: Config, now: Config, out: Outcome): seq<Change> { if Took(out) then [Change(was, now)] else [] }

  lemma ReloadTells(env: Env, st: State)
    ensures var (after, out) := Reload(env, st);
      && |after.heard| == |st.heard| && (!Took(out) ==> after.cfg == st.cfg)
      && forall a | 0 <= a < |st.heard| :: after.heard[a] == st.heard[a] + News(st.cfg, after.cfg, out)
  {
    hide ZFS_ZERO, SECTIONS, MUXER_ZERO, RETENTION_ZERO, DEFAULT_RETENTION;
    hide Load;
  }

  lemma ReplaceTells(env: Env, st: State, c: Config, saved: bool)
    requires Typed(c)
    ensures var (after, out) := Replace(env, st, c, saved);
      && |after.heard| == |st.heard| && (!Took(out) ==> after.cfg == st.cfg)
      && forall a | 0 <= a < |st.heard| :: after.heard[a] == st.heard[a] + News(st.cfg, after.cfg, out)
  {
    hide ZFS_ZERO, SECTIONS, MUXER_ZERO, RETENTION_ZERO, DEFAULT_RETENTION;
    hide Typed, Refuses, DeclaredAfter, WrittenText, Incoming;
  }

  /** After every write through any door: an accepted one is told to every applier, once, as the change from the old
      configuration to the new; any other is told to nobody. */
  lemma DoorTells(env: Env, st: State, op: Op)
    requires Typed(st.cfg) && OpTyped(op) && !op.Poll? && !op.Edit? && !op.Subscribe?
    ensures var (after, out) := Step(env, st, op);
      && |after.heard| == |st.heard| && (!Took(out) ==> after.cfg == st.cfg)
      && forall a | 0 <= a < |st.heard| :: after.heard[a] == st.heard[a] + News(st.cfg, after.cfg, out)
  {
    hide *;
    EveryDoorReplaces(env, st, op);
    var asked := Asked(env, st, op);
    if asked.Some? {
      ReplaceTells(env, st, asked.value, Saved(op));
    } else {
      SilentIsNoNews(st.cfg, Step(env, st, op).1);
    }
  }

  lemma SilentIsNoNews(c: Config, out: Outcome)
    requires out in {Refused, NoSuchStorage}
    ensures !Took(out) && News(c, c, out) == []
  {
  }

  /** Any step: and a reload that takes the file is told like a write, and a new applier has heard nothing. */
  lemma StepTells(env: Env, st: State, op: Op)
    requires Typed(st.cfg) && OpTyped(op)
    ensures var (after, out) := Step(env, st, op);
      && |after.heard| == |st.heard| + (if op.Subscribe? then 1 else 0) && (!Took(out) ==> after.cfg == st.cfg)
      && (forall a | 0 <= a < |st.heard| :: after.heard[a] == st.heard[a] + News(st.cfg, after.cfg, out))
      && (op.Subscribe? ==> after.heard[|st.heard|] == [])
  {
    hide ZFS_ZERO, SECTIONS, MUXER_ZERO, RETENTION_ZERO, DEFAULT_RETENTION;
    hide Typed, OpTyped, Reload, Replace, Add, Forget, SetDefault, SetAllowInsecureTransport, SetTLSFiles;
    match op {
      case Poll => ReloadTells(env, st);
      case Edit(_) =>
      case Subscribe =>
      case _ => DoorTells(env, st, op);
    }
  }

  /** The configurations taken over a run, as changes. */
  function Taken(env: Env, st: State, ops: seq<Op>): seq<Change>
    requires Typed(st.cfg) && forall op | op in ops :: OpTyped(op)
  {
    if ops == [] then []
    else
      var rest := ops[..|ops| - 1];
      var before := Run(env, st, rest);
      var (after, out) := Step(env, before, ops[|ops| - 1]);
      Taken(env, st, rest) + if Took(out) then [Change(before.cfg, after.cfg)] else []
  }

  /** Over any run an applier registered before it hears exactly the configurations taken, in order; the first is told
      against the configuration that was live when the run began. */
  lemma {:induction false} AppliersHearWhatIsTaken(env: Env, st: State, ops: seq<Op>, a: nat)
    requires Typed(st.cfg) && (forall op | op in ops :: OpTyped(op)) && a < |st.heard|
    ensures var taken := Taken(env, st, ops);
      && a < |Run(env, st, ops).heard| && Run(env, st, ops).heard[a] == st.heard[a] + taken
      && (if taken == [] then Run(env, st, ops).cfg == st.cfg
          else taken[0].was == st.cfg && taken[|taken| - 1].now == Run(env, st, ops).cfg)
  {
    hide Step, Typed, OpTyped, Took;
    if ops != [] {
      var n := |ops| - 1;
      AppliersHearWhatIsTaken(env, st, ops[..n], a);
      StepTells(env, Run(env, st, ops[..n]), ops[n]);
    }
  }

  lemma {:induction false} RunsJoin(env: Env, st: State, some: seq<Op>, more: seq<Op>)
    requires Typed(st.cfg) && (forall op | op in some :: OpTyped(op)) && (forall op | op in more :: OpTyped(op))
    ensures Run(env, st, some + more) == Run(env, Run(env, st, some), more)
  {
    hide Step, Typed, OpTyped;
    if more == [] {
      assert some + more == some;
    } else {
      var n := |more| - 1;
      assert (some + more)[..|some| + n] == some + more[..n] && (some + more)[|some| + n] == more[n];
      RunsJoin(env, st, some, more[..n]);
    }
  }

  lemma RunNext(env: Env, st: State, ops: seq<Op>, op: Op)
    requires Typed(st.cfg) && (forall o | o in ops :: OpTyped(o)) && OpTyped(op)
    ensures Typed(Run(env, st, ops).cfg) && Run(env, st, ops + [op]) == Step(env, Run(env, st, ops), op).0
  {
    hide Step, Typed, OpTyped;
    assert (ops + [op])[..|ops|] == ops;
  }

  /** From any start: an applier that registers in the middle of a run hears exactly what is taken after that. */
  lemma {:induction false} LateAppliersHearTheRest(env: Env, st: State, earlier: seq<Op>, later: seq<Op>)
    requires Typed(st.cfg) && (forall op | op in earlier :: OpTyped(op)) && (forall op | op in later :: OpTyped(op))
    ensures OpTyped(Subscribe)
    ensures var joined := Run(env, st, earlier + [Subscribe]);
      var whole := Run(env, st, earlier + [Subscribe] + later);
      var a := |Run(env, st, earlier).heard|;
      && a < |whole.heard| && whole.heard[a] == Taken(env, joined, later)
      && joined.cfg == Run(env, st, earlier).cfg
  {
    hide ZFS_ZERO, SECTIONS, MUXER_ZERO, RETENTION_ZERO, DEFAULT_RETENTION;
    assert OpTyped(Subscribe);
    hide Step, Typed, OpTyped, Took, Run, Taken;
    var with := earlier + [Subscribe];
    RunNext(env, st, earlier, Subscribe);
    StepTells(env, Run(env, st, earlier), Subscribe);
    SubscribeKeeps(env, Run(env, st, earlier));
    RunsJoin(env, st, with, later);
    AppliersHearWhatIsTaken(env, Run(env, st, with), later, |Run(env, st, earlier).heard|);
  }

  lemma SubscribeKeeps(env: Env, st: State)
    requires Typed(st.cfg) && OpTyped(Subscribe)
    ensures Step(env, st, Subscribe).0.cfg == st.cfg
  {
    hide ZFS_ZERO, SECTIONS, MUXER_ZERO, RETENTION_ZERO, DEFAULT_RETENTION;
    hide Typed, Replace, Add, Forget, SetDefault, SetAllowInsecureTransport, SetTLSFiles, Reload;
  }

  // ---- when a write goes through ----

  function Listed(c: Config): seq<StorageEntry> { if c.storage.None? then [] else c.storage.value }

  lemma RefusedExactly(env: Env, prev: Config, next: Config)
    ensures !Refuses(env, prev, next) <==>
      Accepted(env.host, next) && (Listed(next) == [] ==> Listed(prev) == []) && BackendsCoherent(Listed(next))
  {
    hide ZFS_ZERO, SECTIONS, MUXER_ZERO, RETENTION_ZERO, DEFAULT_RETENTION;
    hide Faults, Accepted, BackendsFaults, BackendsCoherent;
    FaultsExactly(env.host, next);
    BackendsCoherentExactly(Listed(next));
    NoBackends();
  }

  lemma ReplaceAnswers(env: Env, st: State, c: Config, saved: bool)
    requires Typed(c)
    ensures Replace(env, st, c, saved).1
         == if Refuses(env, st.cfg, Incoming(c)) then Refused else if !saved then NotWritten else Done
  {
    hide ZFS_ZERO, SECTIONS, MUXER_ZERO, RETENTION_ZERO, DEFAULT_RETENTION;
    hide Typed, Refuses, DeclaredAfter, WrittenText, Incoming;
  }

  /** A whole-document write goes through exactly when the document, its entries resolved, is valid, would not empty the
      storages there were, its zfs storages are apart and reach their pools, and the file could be written. */
  lemma WriteGoesThroughExactly(env: Env, st: State, c: Config, saved: bool)
    requires Typed(c)
    ensures var next, out := Incoming(c), Replace(env, st, c, saved).1;
      && (out == Done <==>
            && saved && Accepted(env.host, next) && (Listed(next) == [] ==> Listed(st.cfg) == []) && BackendsCoherent(Listed(next)))
      && (out != Done ==> out == Refused || (out == NotWritten && !saved))
  {
    hide *;
    RefusedExactly(env, st.cfg, Incoming(c));
    ReplaceAnswers(env, st, c, saved);
  }

  lemma NoBackends()
    ensures BackendsCoherent([])
  {
  }

  /** An addition gets as far as the write path exactly when the file does not stand refused and the entry has an absolute
      path, names its backend, claims neither the name nor the place of another, and not to be the default. */
  lemma AdditionAskedExactly(env: Env, st: State, e: StorageEntry, saved: bool)
    requires Typed(st.cfg) && EntryTyped(e)
    ensures Asked(env, st, AddStorage(e, saved)).Some? <==>
      && !st.discarded && |e.path| > 0 && e.path[0] == '/' && !e.isDefault
      && (e.backend == "zfs" || e.backend == "reflink" || e.backend == "hardlink" || e.backend == "copy")
      && (forall i | 0 <= i < |Listed(st.cfg)| ::
            && Listed(st.cfg)[i].name != (if e.name == "" then e.path else e.name)
            && env.host.clean(Listed(st.cfg)[i].path) != env.host.clean(e.path))
  {
    hide ZFS_ZERO, SECTIONS, MUXER_ZERO, RETENTION_ZERO, DEFAULT_RETENTION;
    hide Typed, Added;
    assert Entries(st.cfg) == Listed(st.cfg);
  }

  predicate FirstNamed(list: seq<StorageEntry>, name: string, i: int) {
    0 <= i < |list| && list[i].name == name && forall j | 0 <= j < i :: list[j].name != name
  }

  lemma IndexIsFirstNamed(list: seq<StorageEntry>, name: string, i: int)
    ensures FirstNamed(list, name, i) <==> i >= 0 && IndexOf(list, name) == Some(i)
  {
  }

  predicate NoneNamed(list: seq<StorageEntry>, name: string) { forall i | 0 <= i < |list| :: list[i].name != name }

  lemma IndexIsNone(list: seq<StorageEntry>, name: string)
    ensures NoneNamed(list, name) <==> IndexOf(list, name).None?
  {
  }

  lemma EntriesListed(c: Config)
    requires Typed(c)
    ensures Entries(c) == Listed(c) && forall e | e in Listed(c) :: EntryTyped(e)
  {
  }

  /** Forgetting reaches the write path exactly for a storage that is there, is not the default and has no job, and then
      asks for the list without it. */
  lemma ForgetReaches(env: Env, st: State, name: string, busy: bool, saved: bool, i: int)
    requires Typed(st.cfg) && FirstNamed(Listed(st.cfg), name, i)
    ensures var list := Listed(st.cfg);
      var kept := list[..i] + list[i + 1..];
      && (forall e | e in kept :: EntryTyped(e)) && WithEntries.requires(st.cfg, kept)
      && Forget(env, st, name, busy, saved)
         == if list[i].isDefault || busy then (st, Refused) else Replace(env, st, WithEntries(st.cfg, kept), saved)
  {
    hide ZFS_ZERO, SECTIONS, MUXER_ZERO, RETENTION_ZERO, DEFAULT_RETENTION;
    hide Replace, Typed, EntryTyped;
    EntriesListed(st.cfg);
    IndexIsFirstNamed(Listed(st.cfg), name, i);
  }

  /** Moving the default reaches the write path exactly for a storage that is there, and then asks for the same list with
      that one flagged and no other. */
  lemma DefaultMoves(env: Env, st: State, name: string, saved: bool, i: int)
    requires Typed(st.cfg) && FirstNamed(Listed(st.cfg), name, i)
    ensures var list := Listed(st.cfg);
      var flagged := seq(|list|, j requires 0 <= j < |list| => list[j].(isDefault := j == i));
      && (forall e | e in flagged :: EntryTyped(e)) && WithEntries.requires(st.cfg, flagged)
      && SetDefault(env, st, name, saved) == Replace(env, st, WithEntries(st.cfg, flagged), saved)
  {
    hide ZFS_ZERO, SECTIONS, MUXER_ZERO, RETENTION_ZERO, DEFAULT_RETENTION;
    hide Replace, Typed, EntryTyped;
    EntriesListed(st.cfg);
    IndexIsFirstNamed(Listed(st.cfg), name, i);
    var list := Listed(st.cfg);
    assert Redesignated(list, i) == seq(|list|, j requires 0 <= j < |list| => list[j].(isDefault := j == i));
  }

  /** An unknown name is answered as such by both. */
  lemma UnknownNames(env: Env, st: State, name: string, busy: bool, saved: bool)
    requires Typed(st.cfg) && NoneNamed(Listed(st.cfg), name)
    ensures Forget(env, st, name, busy, saved) == (st, NoSuchStorage) && SetDefault(env, st, name, saved) == (st, NoSuchStorage)
  {
    hide ZFS_ZERO, SECTIONS, MUXER_ZERO, RETENTION_ZERO, DEFAULT_RETENTION;
    hide Replace, Typed;
    EntriesListed(st.cfg);
    IndexIsNone(Listed(st.cfg), name);
  }

  // ---- what the narrow keys become ----

  /** The transport switch asks for the live configuration with that key at the value given and no other touched. */
  lemma TransportSets(c: Config, allow: bool)
    requires Typed(c)
    ensures var next := WithTransport(c, allow);
      && next.storage == c.storage && next.muxers == c.muxers && next.sections.Keys == c.sections.Keys
      && (forall s | s in c.sections && s != "sessions" :: next.sections[s] == c.sections[s])
      && next.sections["sessions"] == c.sections["sessions"]["allow_insecure_transport" := Bool(allow)]
  {
    NarrowKeys();
    assert "sessions" in c.sections;
    hide SECTIONS, Typed;
  }

  /** The certificate pair likewise, both keys at the values given. */
  lemma TlsSets(c: Config, cert: string, key: string)
    requires Typed(c)
    ensures var next := WithTls(c, cert, key);
      && next.storage == c.storage && next.muxers == c.muxers && next.sections.Keys == c.sections.Keys
      && (forall s | s in c.sections && s != "tls" :: next.sections[s] == c.sections[s])
      && next.sections["tls"] == c.sections["tls"]["cert_file" := Str(cert)]["key_file" := Str(key)]
  {
    NarrowKeys();
    assert "tls" in c.sections;
    hide SECTIONS, Typed;
  }

  /** A switch that goes through leaves exactly that configuration live; it is refused while the file stands refused. */
  lemma SwitchesLand(env: Env, st: State, allow: bool, cert: string, key: string, saved: bool)
    requires WellNamed(st.cfg)
    ensures var (after, out) := SetAllowInsecureTransport(env, st, allow, saved);
      out == Done ==> after.cfg == WithTransport(st.cfg, allow) && !st.discarded && saved
    ensures var (after, out) := SetTLSFiles(env, st, cert, key, saved);
      out == Done ==> after.cfg == WithTls(st.cfg, cert, key) && !st.discarded && saved
  {
    TransportSets(st.cfg, allow);
    TlsSets(st.cfg, cert, key);
    hide *;
    IncomingSame(st.cfg, WithTransport(st.cfg, allow));
    IncomingSame(st.cfg, WithTls(st.cfg, cert, key));
    SwitchesReplace(env, st, allow, cert, key, saved);
    ReplaceAnswers(env, st, WithTransport(st.cfg, allow), saved);
    ReplaceAnswers(env, st, WithTls(st.cfg, cert, key), saved);
    ReplaceLeaves(env, st, WithTransport(st.cfg, allow), saved);
    ReplaceLeaves(env, st, WithTls(st.cfg, cert, key), saved);
  }

  lemma SwitchesReplace(env: Env, st: State, allow: bool, cert: string, key: string, saved: bool)
    requires WellNamed(st.cfg)
    ensures Typed(st.cfg)
    ensures SetAllowInsecureTransport(env, st, allow, saved)
         == if st.discarded then (st, Refused) else Replace(env, st, WithTransport(st.cfg, allow), saved)
    ensures SetTLSFiles(env, st, cert, key, saved)
         == if st.discarded then (st, Refused) else Replace(env, st, WithTls(st.cfg, cert, key), saved)
  {
    hide Replace, Typed, Resolved;
  }

  lemma ReplaceLeaves(env: Env, st: State, c: Config, saved: bool)
    requires Typed(c)
    ensures Replace(env, st, c, saved).1 == Done ==> Replace(env, st, c, saved).0.cfg == Incoming(c) && saved
  {
    hide ZFS_ZERO, SECTIONS, MUXER_ZERO, RETENTION_ZERO, DEFAULT_RETENTION;
    hide Typed, Refuses, DeclaredAfter, WrittenText, Incoming;
  }

  /** A document with the live storages needs no resolving. */
  lemma IncomingSame(c: Config, d: Config)
    requires WellNamed(c) && Typed(d) && d.storage == c.storage
    ensures Incoming(d) == d
  {
    hide ZFS_ZERO, SECTIONS, MUXER_ZERO, RETENTION_ZERO, DEFAULT_RETENTION;
  }

  // ---- which files load ----

  lemma LoadFollows(env: Env, file: File)
    ensures var l := Load(env, file);
      && l.raw == (if file.Holds? then Some(file.text) else None)
      && (!file.Holds? ==> (l.ok <==> file.NoFile?))
      && (!l.ok || file.NoFile? ==> l.config == Default() && l.declared == {})
    ensures file.Holds? ==>
      var l, doc := Load(env, file), env.read(file.text);
      && (l.ok <==> doc.Some? && Decode(doc.value).Ok? && Faults(env.host, Decode(doc.value).value) == [])
      && (l.ok ==> Decode(doc.value) == Ok(l.config) && l.declared == Declared(doc.value))
  {
    hide Decode, Faults, Declared, Default, Typed;
  }

  /** A file loads exactly when it is absent, or readable, parses, decodes and is valid, and then gives what it says; what
      does not load gives the defaults. */
  lemma LoadsExactly(env: Env, file: File)
    ensures var l := Load(env, file);
      && l.raw == (if file.Holds? then Some(file.text) else None)
      && (!file.Holds? ==> (l.ok <==> file.NoFile?))
      && (!l.ok || file.NoFile? ==> l.config == Default() && l.declared == {})
    ensures file.Holds? ==>
      var l, doc := Load(env, file), env.read(file.text);
      && (l.ok <==> doc.Some? && Decode(doc.value).Ok? && Accepted(env.host, Decode(doc.value).value))
      && (l.ok ==> Decode(doc.value) == Ok(l.config) && l.declared == Declared(doc.value))
  {
    hide *;
    LoadFollows(env, file);
    if file.Holds? && env.read(file.text).Some? && Decode(env.read(file.text).value).Ok? {
      FaultsExactly(env.host, Decode(env.read(file.text).value).value);
    }
  }

  /** A start takes what the load gives, remembers the bytes, and knows whether the file stands refused. */
  lemma StartsOnTheLoad(env: Env, file: File, appliers: nat)
    ensures var l, st := Load(env, file), Start(env, file, appliers);
      && st.cfg == l.config && st.declared == l.declared && st.file == file && (st.discarded <==> !l.ok) && st.last == l.raw
      && |st.heard| == appliers && forall a | 0 <= a < appliers :: st.heard[a] == []
  {
    hide ZFS_ZERO, SECTIONS, MUXER_ZERO, RETENTION_ZERO, DEFAULT_RETENTION;
    hide Load;
  }

  /** What a key of a section means: what the file says, or its default when the file has no such key or nothing in it. */
  lemma SectionMeans(doc: Node, c: Config, s: string, k: string)
    requires Decode(doc) == Ok(c) && s in SECTIONS && k in SECTIONS[s]
    ensures var said := Child(Child(Some(doc), s), k);
      c.sections[s][k] == if said.None? || said == Some(Null) then SECTIONS[s][k] else said.value
  {
    DecodedKey(SECTIONS[s], Child(Some(doc), s), c.sections[s], k);
    hide SECTIONS;
  }

  /** What an entry means that leaves things out: it goes by its path, on whatever backend the place affords, and keeps
      ten recent versions, thirty days and twelve weeks. */
  lemma ResolvedMeans(e: StorageEntry)
    requires EntryTyped(e)
    ensures var r := ResolvedEntry(e);
      && r.path == e.path && r.isDefault == e.isDefault
      && r.name == (if e.name == "" then e.path else e.name) && r.backend == (if e.backend == "" then "auto" else e.backend)
      && r.zfs == e.zfs["mode" := if e.zfs["mode"] == Str("") then Str("hook") else e.zfs["mode"]]
                       ["seed" := if e.zfs["seed"] == Str("") then Str("auto") else e.zfs["seed"]]
      && r.retention == (if e.retention.Some? then e.retention
                         else Some(map["keep_recent" := Int(10), "keep_daily" := Int(30), "keep_weekly" := Int(12)]))
  {
  }

  /** What the values of an entry must be for a document to be valid. */
  lemma EntryValuesExactly(e: StorageEntry)
    requires EntryTyped(e)
    ensures ValuesAccepted(e) <==>
      && (e.backend == "auto" || e.backend == "zfs" || e.backend == "reflink" || e.backend == "hardlink" || e.backend == "copy")
      && e.zfs["mode"] == Str("hook") && e.zfs["hook_cmd"] == Str("")
      && (e.zfs["seed"] == Str("auto") || e.zfs["seed"] == Str("reflink") || e.zfs["seed"] == Str("copy"))
      && 0 <= NumberAt(e.zfs, "ssh_port") <= 65535
      && (e.retention.Some? ==> RetentionNotNegative(e.retention.value))
  {
    hide SECTIONS, MUXER_ZERO, DEFAULT_RETENTION, ZFS_ZERO, RETENTION_ZERO, Shaped, TextAt, NumberAt, RetentionChecks;
    ZfsTexts(e.zfs);
    var backend, mode := (e.backend in BACKENDS, Backend), (TextAt(e.zfs, "mode") == "hook", ZfsMode);
    var seed := (TextAt(e.zfs, "seed") in {"auto", "reflink", "copy"}, ZfsSeed);
    var hook := (TextAt(e.zfs, "hook_cmd") == "", ZfsHookCmd);
    var port := (0 <= NumberAt(e.zfs, "ssh_port") <= 65535, ZfsSshPort);
    EveryCheck([backend, mode, seed, hook, port], RetentionChecks(e));
    FiveChecks(backend, mode, seed, hook, port);
    RetentionExactly(e);
  }

  lemma FiveChecks(a: (bool, Setting), b: (bool, Setting), c: (bool, Setting), d: (bool, Setting), e: (bool, Setting))
    ensures (forall x | x in [a, b, c, d, e] :: x.0) <==> a.0 && b.0 && c.0 && d.0 && e.0
  {
    var all := [a, b, c, d, e];
    assert all[0] in all && all[1] in all && all[2] in all && all[3] in all && all[4] in all;
  }

  predicate RetentionNotNegative(r: Record) {
    NumberAt(r, "keep_recent") >= 0 && NumberAt(r, "keep_daily") >= 0 && NumberAt(r, "keep_weekly") >= 0
  }

  lemma RetentionExactly(e: StorageEntry)
    ensures (forall c | c in RetentionChecks(e) :: c.0) <==> (e.retention.Some? ==> RetentionNotNegative(e.retention.value))
  {
    if e.retention.Some? {
      var c := RetentionChecks(e);
      assert (forall x | x in c :: x.0) <==> c[0].0 && c[1].0 && c[2].0;
    }
  }

  lemma EveryCheck(a: seq<(bool, Setting)>, b: seq<(bool, Setting)>)
    ensures (forall c | c in a + b :: c.0) <==> (forall c | c in a :: c.0) && forall c | c in b :: c.0
  {
    assert forall c :: c in a + b <==> c in a || c in b;
  }

  lemma ZfsTexts(z: Record)
    requires Shaped(z, ZFS_ZERO)
    ensures forall k | k in {"mode", "hook_cmd", "seed"} :: k in z && z[k] == Str(TextAt(z, k))
  {
    assert SameKind(z["mode"], ZFS_ZERO["mode"]) && SameKind(z["hook_cmd"], ZFS_ZERO["hook_cmd"]) && SameKind(z["seed"], ZFS_ZERO["seed"]);
  }

  /** A storage is on zfs when it says so, or leaves the choice open and names a parent dataset or a way to reach one; it
      then needs both. */
  lemma ZfsReachExactly(e: StorageEntry)
    ensures var dataset, user, machine := TextAt(e.zfs, "parent_dataset"), TextAt(e.zfs, "ssh_user"), TextAt(e.zfs, "ssh_host");
      && (IsZfs(e) <==> e.backend == "zfs" || (e.backend == "auto" && (dataset != "" || (user != "" && machine != ""))))
      && (ReachesItsPool(e) <==> (IsZfs(e) ==> dataset != "" && user != "" && machine != ""))
  {
  }
}
