/** A file that was refused stays on disk for its owner to mend; the doors that do not ask write over it. */
module ConfigRefused {
  import opened Wrappers
  import opened YamlTree
  import opened ConfigSchema
  import opened ConfigDeclared
  import opened ConfigWriteDeclared
  import opened ConfigRoundTrip
  import opened ConfigWrites
  import opened ConfigValidate
  import opened ConfigService
  import opened ConfigRuns
  import opened ConfigEdges
  import opened Lists

  // A platform and a library of the kind the service asks for.
  const PLATFORM: Host := Host(p => p, a => a == "", _ => true)

  function Second(): StorageEntry { Lone().(name := "b", path := "/b", isDefault := false) }

  function Both(): Config { Before([Lone(), Second()]) }

  lemma SecondSound()
    ensures Sound(Second()) && Second().name == "b" && !Second().isDefault
  {
    LoneSound();
    assert Shaped(DEFAULT_RETENTION, RETENTION_ZERO);
    SoundVariant(Second());
  }

  lemma DefaultSettings(storage: Option<seq<StorageEntry>>)
    ensures SettingsAccepted(Default().(storage := storage))
  {
  }

  lemma DefaultMuxersAccepted(storage: Option<seq<StorageEntry>>)
    ensures MuxersAccepted(PLATFORM, ResolvedMuxers(Default().(storage := storage)))
  {
    assert DEFAULT_MUXERS[0]["address"] != DEFAULT_MUXERS[1]["address"] by {
      assert "/var/run/usbmuxd"[9] != "/var/run/mux/usbmuxd"[9];
    }
  }

  lemma PlainValues(e: StorageEntry)
    requires e.backend == "auto" && e.retention == Some(DEFAULT_RETENTION)
    requires e.zfs == ZFS_ZERO["mode" := Str("hook")]["seed" := Str("auto")]
    ensures ValuesAccepted(e) && !IsZfs(e)
  {
    assert forall c | c in RetentionChecks(e) :: c.0;
  }

  lemma LonePlain()
    ensures Lone().backend == "auto" && Lone().zfs == ZFS_ZERO["mode" := Str("hook")]["seed" := Str("auto")]
    ensures Lone().retention == Some(DEFAULT_RETENTION) && Lone().isDefault
  {
  }

  lemma PairAccepted(h: Host, a: StorageEntry, b: StorageEntry)
    requires ValuesAccepted(a) && ValuesAccepted(b) && IsAbs(a.path) && IsAbs(b.path)
    requires h.clean(a.path) != h.clean(b.path) && a.name != b.name && a.isDefault && !b.isDefault
    ensures StoragesAccepted(h, [a, b]) && StoragesAccepted(h, [a])
  {
    hide ValuesAccepted, IsAbs;
    assert OnlyDefault([a, b], 0);
    assert OnlyDefault([a], 0);
  }

  lemma PlainCoherent(list: seq<StorageEntry>)
    requires forall i | 0 <= i < |list| :: !IsZfs(list[i])
    ensures Concat(BackendsFaults(list)) == []
  {
    BackendsCoherentExactly(list);
    hide IsZfs;
  }

  /** Both documents, with the second storage and without it, are fit to be written. */
  lemma BothAccepted()
    ensures Faults(PLATFORM, Both()) == [] && Faults(PLATFORM, Before([Lone()])) == []
    ensures Concat(BackendsFaults([Lone()])) == []
  {
    hide ZFS_ZERO, SECTIONS, MUXER_ZERO, RETENTION_ZERO, DEFAULT_RETENTION;
    LoneSound();
    SecondSound();
    LonePlain();
    DefaultSettings(Some([Lone(), Second()]));
    DefaultMuxersAccepted(Some([Lone(), Second()]));
    DefaultSettings(Some([Lone()]));
    DefaultMuxersAccepted(Some([Lone()]));
    PlainValues(Lone());
    PlainValues(Second());
    SecondPath();
    hide Lone, Second, ValuesAccepted, IsZfs, SettingsAccepted, MuxersAccepted, Faults, StoragesAccepted, BackendsFaults, Sound;
    PairAccepted(PLATFORM, Lone(), Second());
    PlainCoherent([Lone()]);
    FaultsExactly(PLATFORM, Both());
    FaultsExactly(PLATFORM, Before([Lone()]));
  }

  lemma SecondPath()
    ensures Second().path == "/b" && Second().backend == Lone().backend && Second().zfs == Lone().zfs && Second().retention == Lone().retention
    ensures PLATFORM.clean("/a") != PLATFORM.clean("/b") && IsAbs("/a") && IsAbs("/b")
  {
    assert "/a"[1] != "/b"[1];
    hide Lone;
  }

  // ---- the run ----

  function Bad(env: Env): File { Holds(env.text(Str("not a document"))) }

  lemma ScalarIsNoDocument(text: string)
    ensures Decode(Str(text)).Err?
  {
    hide DecodeStorage, DecodeMuxerList, DecodeRecord, ResolveStorages;
  }

  lemma NoParse(env: Env, text: string, doc: Node)
    requires env.read(text) == Some(doc) && Decode(doc).Err?
    ensures Parse(env, text).Err?
  {
    hide Decode;
  }

  lemma BadIsRefused(env: Env)
    requires Faithful(env)
    ensures !Load(env, Bad(env)).ok
  {
    hide Decode, Faults, Parse;
    ScalarIsNoDocument("not a document");
    NoParse(env, Bad(env).text, Str("not a document"));
  }

  lemma StartsOnBoth(env: Env)
    requires Faithful(env) && env.host == PLATFORM
    ensures var file := Holds(env.text(Marshal(Both())));
      && Start(env, file, 0).cfg == Both() && !Start(env, file, 0).discarded
      && Start(env, file, 0).last == Some(file.text) && Bad(env) != file
  {
    hide Lone, Second, Sound, Faults, Decode, Load;
    BothAccepted();
    LoneSound();
    SecondSound();
    TwoWellNamed(Lone(), Second());
    FullTextReadsBack(env, Both());
    ValidTextInForce(env, env.text(Marshal(Both())), Both());
    BadIsRefused(env);
    LoadRemembers(env, env.text(Marshal(Both())));
  }

  lemma LoadRemembers(env: Env, text: string)
    ensures Load(env, Holds(text)).raw == Some(text)
  {
    hide Decode, Faults;
  }

  predicate Standing(env: Env, st: State) { st.cfg == Both() && st.discarded && st.file == Bad(env) }

  /** A hand edit the service cannot read, noticed: the file stands refused and the old configuration runs on. */
  lemma PollRefuses(env: Env, st: State)
    requires Faithful(env) && st.cfg == Both() && st.last.Some? && st.file == Holds(st.last.value) && Bad(env) != st.file
    ensures Standing(env, Reload(env, st.(file := Bad(env))).0)
  {
    hide Load, Both;
    BadIsRefused(env);
  }

  lemma BothIndex()
    ensures Typed(Both()) && Entries(Both()) == [Lone(), Second()] && IndexOf(Entries(Both()), "b") == Some(1)
    ensures Without(Entries(Both()), 1) == [Lone()] && !Entries(Both())[1].isDefault
    ensures WithEntries(Both(), [Lone()]) == Before([Lone()]) && Incoming(Before([Lone()])) == Before([Lone()])
  {
    hide Lone, Second;
    LoneSound();
    SecondSound();
    TwoWellNamed(Lone(), Second());
    OneWellNamed(Lone(), None);
    assert IndexOf([Lone(), Second()][1..], "b") == Some(0);
    assert Incoming(Before([Lone()])).storage == Some([Lone()]);
  }

  lemma ForgetAsks(env: Env, st: State)
    requires Standing(env, st) && env.host == PLATFORM && Typed(st.cfg)
    ensures Asked(env, st, ForgetStorage("b", false, true)) == Some(Before([Lone()]))
    ensures Incoming(Before([Lone()])) == Before([Lone()]) && !Refuses(env, st.cfg, Before([Lone()]))
  {
    BothIndex();
    BothAccepted();
    hide Lone, Second, Faults, BackendsFaults, Typed, Incoming, Entries, IndexOf, Without, WithEntries;
    assert Count(Before([Lone()])) == 1;
  }

  /** Forgetting a storage while the file stands refused: what its owner was editing is gone, and the file is the
      service's own again. */
  lemma ForgettingWritesOverIt(env: Env, st: State)
    requires Faithful(env) && env.host == PLATFORM && Standing(env, st) && Typed(st.cfg)
    ensures var after := Step(env, st, ForgetStorage("b", false, true)).0;
      after.file != st.file && !after.discarded && after.cfg == Before([Lone()])
  {
    var op := ForgetStorage("b", false, true);
    ForgetAsks(env, st);
    EveryDoorReplaces(env, st, op);
    AcceptedWriteLands(env, st, Before([Lone()]), true);
    BadIsRefused(env);
    ForgetTyped();
    hide Step, Asked, Faults, Load, Refuses, Incoming, Typed, Lone, Second, Both, DeclaredAfter, WrittenText, Bad;
  }

  lemma ForgetTyped()
    ensures Typed(Before([Lone()]))
  {
    LoneSound();
    OneWellNamed(Lone(), None);
  }

  lemma BothTyped()
    ensures Typed(Both())
  {
    hide Lone, Second;
    BothIndex();
  }

  /** From a start on a good file: a bad hand edit, a poll that refuses it, and forgetting a storage that is not the
      default, which no guard stops.  The edit is lost. */
  lemma AnEditIsWrittenOver(env: Env) returns (start: State, edited: State, polled: State, forgot: State)
    requires Faithful(env) && env.host == PLATFORM
    ensures start == Start(env, Holds(env.text(Marshal(Both()))), 0) && !start.discarded
    ensures Typed(start.cfg) && edited == Step(env, start, Edit(Bad(env))).0
    ensures Typed(edited.cfg) && polled == Step(env, edited, Poll).0
    ensures Typed(polled.cfg) && forgot == Step(env, polled, ForgetStorage("b", false, true)).0
    ensures polled.discarded && polled.file == Bad(env) && !forgot.discarded && forgot.file != Bad(env)
  {
    hide Load, Bad, Both, Typed, Start, Reload, Forget, Step, Marshal;
    StartsOnBoth(env);
    BothTyped();
    start := Start(env, Holds(env.text(Marshal(Both()))), 0);
    StartsWithItsFile(env, Holds(env.text(Marshal(Both()))));
    edited := start.(file := Bad(env));
    EditStep(env, start, Bad(env));
    PollRefuses(env, start);
    PollStep(env, edited);
    polled := Reload(env, edited).0;
    ForgetStep(env, polled);
    forgot := Forget(env, polled, "b", false, true).0;
    ForgettingWritesOverIt(env, polled);
  }

  lemma EditStep(env: Env, st: State, file: File)
    requires Typed(st.cfg)
    ensures OpTyped(Edit(file)) && Step(env, st, Edit(file)).0 == st.(file := file)
  {
    hide Typed, Replace, Add, Forget, SetDefault, SetAllowInsecureTransport, SetTLSFiles, Reload;
  }

  lemma PollStep(env: Env, st: State)
    requires Typed(st.cfg)
    ensures OpTyped(Poll) && Step(env, st, Poll) == Reload(env, st)
  {
    hide Typed, Replace, Add, Forget, SetDefault, SetAllowInsecureTransport, SetTLSFiles, Reload;
  }

  lemma ForgetStep(env: Env, st: State)
    requires Typed(st.cfg)
    ensures OpTyped(ForgetStorage("b", false, true))
    ensures Step(env, st, ForgetStorage("b", false, true)) == Forget(env, st, "b", false, true)
  {
    hide Typed, Replace, Add, Forget, SetDefault, SetAllowInsecureTransport, SetTLSFiles, Reload;
  }

  lemma StartsWithItsFile(env: Env, file: File)
    ensures Start(env, file, 0).file == file
  {
    hide Load;
  }
}
