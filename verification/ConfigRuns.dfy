/** What holds after any run of writes, hand edits, reloads and registrations. */
module ConfigRuns {
  import opened Wrappers
  import opened YamlTree
  import opened ConfigSchema
  import opened ConfigDeclared
  import opened ConfigWriteDeclared
  import opened ConfigRoundTrip
  import opened ConfigWrites
  import opened ConfigValidate
  import opened ConfigLoad
  import opened ConfigService
  import YamlText

  // ---- the library ----

  ghost function SomeLibrary(host: Host): Env { Env(host, s => YamlText.Read(s), n => YamlText.Text(n)) }

  /** What is asked of the YAML library can be had. */
  lemma FaithfulLibrariesExist(host: Host)
    ensures Faithful(SomeLibrary(host))
  {
    forall n: Node ensures SomeLibrary(host).read(SomeLibrary(host).text(n)) == Some(n) {
      YamlText.ReadsWhatItWrites(n);
    }
  }

  // ---- what a write leaves on disk ----

  /** A load of this text gives exactly `c`. */
  predicate InForce(env: Env, text: string, c: Config) {
    Load(env, Holds(text)).ok && Load(env, Holds(text)).config == c
  }

  lemma FullTextReadsBack(env: Env, c: Config)
    requires Faithful(env) && Typed(c) && Resolved(c)
    ensures ReadsBack(env, env.text(Marshal(c)), c)
  {
    hide ZFS_ZERO, SECTIONS, MUXER_ZERO, RETENTION_ZERO, DEFAULT_RETENTION;
    FullDocumentRoundTrips(c);
  }

  /** Whichever form a write takes, the text parses back to the document it was written from. */
  lemma WrittenReadsBack(env: Env, c: Config, d: set<Path>)
    requires Faithful(env) && Typed(c) && Resolved(c)
    ensures ReadsBack(env, WrittenText(env, c, d), c)
  {
    FullTextReadsBack(env, c);
  }

  lemma ValidTextInForce(env: Env, text: string, c: Config)
    requires ReadsBack(env, text, c) && Faults(env.host, c) == []
    ensures InForce(env, text, c)
  {
    hide Decode, Faults;
  }

  lemma LoadedWellNamed(env: Env, file: File)
    requires Load(env, file).ok
    ensures WellNamed(Load(env, file).config)
  {
    if file.Holds? {
      var p := Parse(env, file.text).value;
      DecodeResolves(env.read(file.text).value);
      FaultsExactly(env.host, p.config);
      AcceptedWellNamed(env.host, p.config);
    }
  }

  lemma DefaultWellNamed()
    ensures WellNamed(Default())
  {
    DefaultTyped();
  }

  /** After an accepted write, from any state and for any document: the file holds exactly the bytes the
      service remembers, they load to exactly the live configuration, which is the document asked for with
      its entries resolved, and every applier was told of that one change. */
  lemma AcceptedWriteLands(env: Env, st: State, c: Config, saved: bool)
    requires Faithful(env) && Typed(c)
    ensures var (after, out) := Replace(env, st, c, saved);
      && (out == Done ==>
            && after.cfg == c.(storage := ResolveStorages(c.storage)) && WellNamed(after.cfg)
            && after.last.Some? && after.file == Holds(after.last.value)
            && InForce(env, after.last.value, after.cfg)
            && !after.discarded
            && after.heard == Told(st.heard, Change(st.cfg, after.cfg)) && |after.heard| == |st.heard|
            && forall a | 0 <= a < |st.heard| :: after.heard[a] == st.heard[a] + [Change(st.cfg, after.cfg)])
      && (out != Done ==> after == st)
  {
    hide ZFS_ZERO, SECTIONS, MUXER_ZERO, RETENTION_ZERO, DEFAULT_RETENTION;
    hide Accepted, Faults, WellNamed, InForce, DeclaredAfter, WrittenText;
    var next := Incoming(c);
    if !Refuses(env, st.cfg, next) && saved {
      var d := DeclaredAfter(st.cfg, st.declared, next);
      WrittenReadsBack(env, next, d);
      ValidTextInForce(env, WrittenText(env, next, d), next);
      FaultsExactly(env.host, next);
      AcceptedWellNamed(env.host, next);
    }
  }

  // ---- steps and runs ----

  datatype Op =
    | Put(c: Config, saved: bool)
    | AddStorage(e: StorageEntry, saved: bool)
    | ForgetStorage(name: string, busy: bool, saved: bool)
    | SetDefaultStorage(name: string, saved: bool)
    | SetTransport(allow: bool, saved: bool)
    | SetTls(cert: string, key: string, saved: bool)
    | Poll
    | Edit(file: File)
    | Subscribe

  predicate OpTyped(op: Op) {
    (op.Put? ==> Typed(op.c)) && (op.AddStorage? ==> EntryTyped(op.e))
  }

  function Step(env: Env, st: State, op: Op): (State, Outcome)
    requires Typed(st.cfg) && OpTyped(op)
  {
    match op
    case Put(c, saved) => Replace(env, st, c, saved)
    case AddStorage(e, saved) => Add(env, st, e, saved)
    case ForgetStorage(name, busy, saved) => Forget(env, st, name, busy, saved)
    case SetDefaultStorage(name, saved) => SetDefault(env, st, name, saved)
    case SetTransport(allow, saved) => SetAllowInsecureTransport(env, st, allow, saved)
    case SetTls(cert, key, saved) => SetTLSFiles(env, st, cert, key, saved)
    case Poll => Reload(env, st)
    case Edit(file) => (st.(file := file), Unchanged)
    case Subscribe => (st.(heard := st.heard + [[]]), Unchanged)
  }

  /** The document a write op hands to `Replace`, when it gets that far. */
  function Asked(env: Env, st: State, op: Op): (r: Option<Config>)
    requires Typed(st.cfg) && OpTyped(op)
    ensures r.Some? ==> Typed(r.value)
  {
    match op
    case Put(c, _) => Some(c)
    case AddStorage(e, _) =>
      if st.discarded || AdditionRefused(env.host, e, Entries(st.cfg)) then None else Some(Added(st.cfg, e))
    case ForgetStorage(name, busy, _) =>
      var list := Entries(st.cfg);
      var idx := IndexOf(list, name);
      if idx.None? || list[idx.value].isDefault || busy then None
      else Some(WithEntries(st.cfg, Without(list, idx.value)))
    case SetDefaultStorage(name, _) =>
      var list := Entries(st.cfg);
      var idx := IndexOf(list, name);
      if idx.None? then None else Some(WithEntries(st.cfg, Redesignated(list, idx.value)))
    case SetTransport(allow, _) => if st.discarded then None else Some(WithTransport(st.cfg, allow))
    case SetTls(cert, key, _) => if st.discarded then None else Some(WithTls(st.cfg, cert, key))
    case _ => None
  }

  predicate Saved(op: Op) {
    match op
    case Put(_, saved) => saved
    case AddStorage(_, saved) => saved
    case ForgetStorage(_, _, saved) => saved
    case SetDefaultStorage(_, saved) => saved
    case SetTransport(_, saved) => saved
    case SetTls(_, _, saved) => saved
    case _ => false
  }

  /** Every door writes through `Replace`, or changes nothing. */
  lemma EveryDoorReplaces(env: Env, st: State, op: Op)
    requires Typed(st.cfg) && OpTyped(op) && !op.Poll? && !op.Edit? && !op.Subscribe?
    ensures var asked := Asked(env, st, op);
      if asked.Some? then Step(env, st, op) == Replace(env, st, asked.value, Saved(op))
      else Step(env, st, op).0 == st && Step(env, st, op).1 in {Refused, NoSuchStorage}
  {
    hide Replace, AdditionRefused, Typed;
  }

  // ---- the invariant ----

  predicate Chain(calls: seq<Change>, live: Config) {
    && (forall i | 0 < i < |calls| :: calls[i].was == calls[i - 1].now)
    && (calls != [] ==> calls[|calls| - 1].now == live)
  }

  predicate Chains(heard: seq<seq<Change>>, live: Config) { forall a | 0 <= a < |heard| :: Chain(heard[a], live) }

  /** When the file was not refused, the live configuration is what the remembered bytes mean; each
      applier's calls form a chain that ends at the live configuration. */
  predicate Coherent(env: Env, st: State) {
    && WellNamed(st.cfg)
    && (!st.discarded ==>
          if st.last.None? then st.cfg == Default() && st.declared == {} else InForce(env, st.last.value, st.cfg))
    && Chains(st.heard, st.cfg)
  }

  lemma ToldChains(heard: seq<seq<Change>>, was: Config, now: Config)
    requires Chains(heard, was)
    ensures Chains(Told(heard, Change(was, now)), now)
  {
    forall a | 0 <= a < |heard| ensures Chain(heard[a] + [Change(was, now)], now) {
      assert Chain(heard[a], was);
    }
  }

  lemma StartCoherent(env: Env, file: File, appliers: nat)
    ensures Coherent(env, Start(env, file, appliers))
  {
    hide Decode, Faults, WellNamed;
    DefaultWellNamed();
    if Load(env, file).ok {
      LoadedWellNamed(env, file);
    }
  }

  lemma ReplaceCoherent(env: Env, st: State, c: Config, saved: bool)
    requires Faithful(env) && Typed(c) && Coherent(env, st)
    ensures Coherent(env, Replace(env, st, c, saved).0)
  {
    hide ZFS_ZERO, SECTIONS, MUXER_ZERO, RETENTION_ZERO, DEFAULT_RETENTION;
    AcceptedWriteLands(env, st, c, saved);
    var (after, out) := Replace(env, st, c, saved);
    if out == Done {
      ToldChains(st.heard, st.cfg, after.cfg);
    }
  }

  lemma ReloadCoherent(env: Env, st: State)
    requires Coherent(env, st)
    ensures Coherent(env, Reload(env, st).0)
  {
    hide ZFS_ZERO, SECTIONS, MUXER_ZERO, RETENTION_ZERO, DEFAULT_RETENTION;
    hide Decode, Faults, WellNamed;
    if Reload(env, st).1 == Applied {
      LoadedWellNamed(env, st.file);
      ToldChains(st.heard, st.cfg, Load(env, st.file).config);
    }
  }

  lemma EditCoherent(env: Env, st: State, file: File)
    requires Coherent(env, st)
    ensures Coherent(env, st.(file := file))
  {
    hide InForce, WellNamed;
  }

  lemma SubscribeCoherent(env: Env, st: State)
    requires Coherent(env, st)
    ensures Coherent(env, st.(heard := st.heard + [[]]))
  {
    hide InForce, WellNamed;
  }

  lemma DoorCoherent(env: Env, st: State, op: Op)
    requires Faithful(env) && Typed(st.cfg) && Coherent(env, st) && OpTyped(op) && !op.Poll? && !op.Edit? && !op.Subscribe?
    ensures Coherent(env, Step(env, st, op).0)
  {
    hide *;
    EveryDoorReplaces(env, st, op);
    var asked := Asked(env, st, op);
    if asked.Some? {
      ReplaceCoherent(env, st, asked.value, Saved(op));
    }
  }

  lemma StepCoherent(env: Env, st: State, op: Op)
    requires Faithful(env) && Typed(st.cfg) && Coherent(env, st) && OpTyped(op)
    ensures Coherent(env, Step(env, st, op).0)
  {
    hide ZFS_ZERO, SECTIONS, MUXER_ZERO, RETENTION_ZERO, DEFAULT_RETENTION;
    hide Coherent, Typed, OpTyped, Reload;
    match op {
      case Poll => ReloadCoherent(env, st);
      case Edit(file) => EditCoherent(env, st, file);
      case Subscribe => SubscribeCoherent(env, st);
      case _ => DoorCoherent(env, st, op);
    }
  }

  /** Any run of writes, foreign edits, reloads and registrations keeps the invariant. */
  lemma {:induction false} RunsStayCoherent(env: Env, file: File, appliers: nat, ops: seq<Op>)
    requires Faithful(env) && forall op | op in ops :: OpTyped(op)
    ensures Coherent(env, Run(env, Start(env, file, appliers), ops))
    decreases |ops|
  {
    if ops == [] {
      StartCoherent(env, file, appliers);
    } else {
      var last := |ops| - 1;
      RunsStayCoherent(env, file, appliers, ops[..last]);
      StepCoherent(env, Run(env, Start(env, file, appliers), ops[..last]), ops[last]);
    }
  }

  function Run(env: Env, st: State, ops: seq<Op>): (r: State)
    requires Typed(st.cfg) && forall op | op in ops :: OpTyped(op)
    ensures Typed(r.cfg)
  {
    if ops == [] then st
    else
      var before := Run(env, st, ops[..|ops| - 1]);
      StepTyped(env, before, ops[|ops| - 1]);
      Step(env, before, ops[|ops| - 1]).0
  }

  lemma StepTyped(env: Env, st: State, op: Op)
    requires Typed(st.cfg) && OpTyped(op)
    ensures Typed(Step(env, st, op).0.cfg)
  {
    hide Typed, DeclaredAfter, Refuses, Faults;
  }

  // ---- reload ----

  lemma OnlyDoorsAreDone(env: Env, st: State, op: Op)
    requires Typed(st.cfg) && OpTyped(op) && Step(env, st, op).1 == Done
    ensures !op.Poll? && !op.Edit? && !op.Subscribe?
  {
    hide Typed, Replace, Load;
  }

  /** A reload right after an accepted write finds nothing to do, whichever door the write came through. */
  lemma ReloadAfterOwnWrite(env: Env, st: State, op: Op)
    requires Faithful(env) && Typed(st.cfg) && OpTyped(op) && Step(env, st, op).1 == Done
    ensures Reload(env, Step(env, st, op).0) == (Step(env, st, op).0, Unchanged)
  {
    hide Replace, Step, Asked, Typed, OpTyped, InForce, WellNamed, Load;
    OnlyDoorsAreDone(env, st, op);
    EveryDoorReplaces(env, st, op);
    AcceptedWriteLands(env, st, Asked(env, st, op).value, Saved(op));
  }

  /** A second reload of the same file does nothing, whether the first applied it, refused it or found it
      unchanged. */
  lemma ReloadIdempotent(env: Env, st: State)
    ensures var once := Reload(env, st).0; Reload(env, once) == (once, Unchanged)
  {
  }

  /** A refused file changes what is reported and nothing that runs. */
  lemma RefusedFileChangesNothingRunning(env: Env, st: State)
    requires Reload(env, st).1 == ReloadRefused
    ensures var after := Reload(env, st).0;
      && after.cfg == st.cfg && after.declared == st.declared && after.heard == st.heard && after.file == st.file
      && after.discarded && st.file == Holds(after.last.value) && !Load(env, st.file).ok
  {
    hide ZFS_ZERO, SECTIONS, MUXER_ZERO, RETENTION_ZERO, DEFAULT_RETENTION;
  }

  /** Reload acts exactly on a readable file other than the one remembered, and takes exactly what a fresh
      start on that file would take. */
  lemma ReloadTakesWhatAStartWould(env: Env, st: State)
    ensures var (after, out) := Reload(env, st);
      && (out == Unchanged <==> !st.file.Holds? || st.file.text == (if st.last.Some? then st.last.value else ""))
      && (out == Applied ==>
            && after.cfg == Start(env, st.file, 0).cfg && after.declared == Start(env, st.file, 0).declared
            && after.last == Start(env, st.file, 0).last && !after.discarded && !Start(env, st.file, 0).discarded)
  {
    hide ZFS_ZERO, SECTIONS, MUXER_ZERO, RETENTION_ZERO, DEFAULT_RETENTION;
  }

  /** While the file on disk stands refused, adding a storage, the transport switch and the certificate pair write
      nothing over it. */
  lemma GuardedDoorsSpareARefusedFile(env: Env, st: State, op: Op)
    requires Typed(st.cfg) && OpTyped(op) && st.discarded && (op.AddStorage? || op.SetTransport? || op.SetTls?)
    ensures Step(env, st, op) == (st, Refused)
  {
    hide Typed, AdditionRefused, Refuses, WrittenText, DeclaredAfter, Load;
  }

  /** Exactly when an operation of the service changes the file on disk, refused or not: a door that writes, a
      document it does not refuse, an atomic write that succeeds, and other bytes than are there. */
  lemma FileChangesExactly(env: Env, st: State, op: Op)
    requires Typed(st.cfg) && OpTyped(op) && !op.Edit?
    ensures var asked := Asked(env, st, op);
      Step(env, st, op).0.file != st.file <==>
        && asked.Some? && Saved(op) && !Refuses(env, st.cfg, Incoming(asked.value))
        && (var next := Incoming(asked.value);
            st.file != Holds(WrittenText(env, next, DeclaredAfter(st.cfg, st.declared, next))))
  {
    hide Typed, Refuses, WrittenText, DeclaredAfter, Load, AdditionRefused, Redesignated, Without, Added, WithTransport, WithTls;
    if !op.Poll? && !op.Subscribe? {
      EveryDoorReplaces(env, st, op);
      hide Step, Asked, Saved;
    }
  }
}
