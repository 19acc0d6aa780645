/** The narrow doors keep the file tidy: over any run of them, with hand edits and reloads in between, no
    write ever falls back to the long form. */
module ConfigNarrow {
  import opened Wrappers
  import opened YamlTree
  import opened ConfigSchema
  import opened ConfigDeclared
  import opened ConfigWriteDeclared
  import opened ConfigRoundTrip
  import opened ConfigCoverage
  import opened ConfigWrites
  import opened ConfigTidy
  import opened ConfigValidate
  import opened ConfigLoad
  import opened ConfigService
  import opened ConfigRuns

  // ---- names the dotted paths can carry ----

  predicate CleanList(list: seq<StorageEntry>) { forall i | 0 <= i < |list| :: ']' !in list[i].name }

  predicate CleanNames(c: Config) { c.storage.Some? ==> CleanList(c.storage.value) }

  lemma {:induction false} CleanNamesLive(c: Config, i: nat)
    requires c.storage.Some? && i < |c.storage.value| && CleanNames(c)
    ensures CutName(c.storage.value[i].name) == c.storage.value[i].name
    ensures CutName(c.storage.value[i].name) in Names(c.storage)
  {
    CutNameWhole(c.storage.value[i].name);
  }

  lemma {:induction false} CutOfWhole(p: Path)
    ensures WholeName(p).Some? ==> StorageEntryName(p) == Some(CutName(WholeName(p).value))
  {
    WithinOfName(p);
    if WholeName(p).Some? {
      NameOfPath(p, WholeName(p).value);
    }
  }

  /** Paths a write changes belong to entries of the new document. */
  lemma {:induction false} ChangedNames(prev: Config, next: Config, p: Path, name: string)
    requires WellNamed(prev) && WellNamed(next) && p in ChangedKeys(prev, next) && Within(p, EntryAt(name))
    ensures name in Names(next.storage)
  {
    hide Marshal, MarshalEntry, EntryKey, Resolved, AddressesDistinct;
    ListNodes(next);
    var was, now := Some(Marshal(prev)), Marshal(next);
    WithinTransitive(p, EntryAt(name), STORAGE);
    ChangedBelow(was, now, Root, "storage", p);
    if next.storage.Some? {
      ChangedNamesAreLive(Child(was, "storage"), now.m["storage"], STORAGE, name, p);
      MarshalledKeysDistinct(next.storage.value);
    } else {
      WithinDepth(p, EntryAt(name));
    }
  }

  /** No declared path belongs to a name the document lost and the dotted form cuts to one it kept. */
  predicate LostNamesStayLost(d: set<Path>, next: Config) {
    forall p | p in d && WholeName(p).Some? && WholeName(p).value !in Names(next.storage) ::
      CutName(WholeName(p).value) !in Names(next.storage)
  }

  /** After a write no declared path belongs to a storage the document lost, exactly when no lost name with declared
      paths is cut to the name of one it kept. */
  lemma {:induction false} NothingStaleExactly(prev: Config, d: set<Path>, next: Config)
    requires WellNamed(prev) && WellNamed(next)
    ensures NoStale(next, DeclaredAfter(prev, d, next)) <==> LostNamesStayLost(d, next)
  {
    hide WellNamed, CutName, ChangedKeys, WholeName, StorageEntryName;
    forall p | p in ChangedKeys(prev, next) && WholeName(p).Some? ensures WholeName(p).value in Names(next.storage) {
      WithinOfName(p);
      ChangedNames(prev, next, p, WholeName(p).value);
    }
    forall p | WholeName(p).Some?
      ensures BelongsHere(p, Names(next.storage)) <==> CutName(WholeName(p).value) in Names(next.storage)
    {
      CutOfWhole(p);
    }
  }

  /** So it is with names the dotted form can carry. */
  lemma {:induction false} NothingStaleAfter(prev: Config, d: set<Path>, next: Config)
    requires Settled(prev, d) && WellNamed(next) && CleanNames(prev)
    ensures NoStale(next, DeclaredAfter(prev, d, next))
  {
    NothingStaleExactly(prev, d, next);
    hide WellNamed, Covered, DeclaredAfter;
    forall p | p in d && WholeName(p).Some? ensures CutName(WholeName(p).value) == WholeName(p).value {
      var name := WholeName(p).value;
      assert name in Names(prev.storage);
      var i :| 0 <= i < |prev.storage.value| && prev.storage.value[i].name == name;
      CutNameWhole(name);
    }
  }

  // ---- lists that inherit their entries ----

  /** The entry keeps the name, path and retention policy of an entry the document had. */
  predicate Inherits(prev: Config, e: StorageEntry) {
    prev.storage.Some? && exists i :: 0 <= i < |prev.storage.value| && SameTerms(prev.storage.value[i], e)
  }

  predicate SameTerms(a: StorageEntry, b: StorageEntry) { a.name == b.name && a.path == b.path && a.retention == b.retention }

  lemma {:induction false} FindOwn(list: seq<StorageEntry>, i: nat)
    requires i < |list| && NamesDistinct(list)
    ensures FindEntry(list, list[i].name) == Some(list[i])
  {
    if i < |list| - 1 {
      FindOwn(list[..|list| - 1], i);
    }
  }

  predicate FreshEntry(prev: Config, e: StorageEntry) {
    Prior(prev, e.name).None? && e.retention.Some? && e.retention.value.Keys == RETENTION_ZERO.Keys
    && RetentionWhole(DEFAULT_RETENTION, e.retention.value)
  }

  lemma {:induction false} InheritedTidy(prev: Config, d: set<Path>, next: Config, i: nat)
    requires WellNamed(prev) && WellNamed(next) && CleanNames(next)
    requires next.storage.Some? && i < |next.storage.value| && Inherits(prev, next.storage.value[i])
    ensures EntryTidy(prev, d, next, next.storage.value[i])
  {
    hide ZFS_ZERO, SECTIONS, MUXER_ZERO, RETENTION_ZERO, DEFAULT_RETENTION;
    var e := next.storage.value[i];
    CleanNamesLive(next, i);
    ComparedTyped(prev, next, e);
    var j :| 0 <= j < |prev.storage.value| && SameTerms(prev.storage.value[j], e);
    FindOwn(prev.storage.value, j);
  }

  lemma {:induction false} FreshTidy(prev: Config, d: set<Path>, next: Config, i: nat)
    requires WellNamed(prev) && WellNamed(next) && CleanNames(next)
    requires next.storage.Some? && i < |next.storage.value| && FreshEntry(prev, next.storage.value[i])
    ensures EntryTidy(prev, d, next, next.storage.value[i])
  {
    var e := next.storage.value[i];
    CleanNamesLive(next, i);
    ComparedTyped(prev, next, e);
    PathOnlyTyped(e.path, |next.storage.value| == 1);
  }

  lemma {:induction false} ListStaysTidy(prev: Config, d: set<Path>, next: Config)
    requires Settled(prev, d) && WellNamed(next) && CleanNames(next)
    requires next.muxers == prev.muxers && (next.storage == Some([]) ==> prev.storage == Some([]))
    requires next.storage.Some? ==>
      forall i | 0 <= i < |next.storage.value| :: Inherits(prev, next.storage.value[i]) || FreshEntry(prev, next.storage.value[i])
    ensures WriteStaysTidy(prev, d, next)
  {
    if next.storage.Some? {
      forall i | 0 <= i < |next.storage.value| ensures EntryTidy(prev, d, next, next.storage.value[i]) {
        if Inherits(prev, next.storage.value[i]) {
          InheritedTidy(prev, d, next, i);
        } else {
          FreshTidy(prev, d, next, i);
        }
      }
    }
  }

  // ---- what each door asks for ----

  predicate TidyAddition(e: StorageEntry)
    requires EntryTyped(e)
  {
    ']' !in ResolvedEntry(e).name && (e.retention.Some? ==> RetentionWhole(DEFAULT_RETENTION, e.retention.value))
  }

  /** Resolving again what was resolved keeps every entry's terms. */
  lemma ResolvedTerms(c: Config, i: nat)
    requires Typed(c) && Resolved(c) && c.storage.Some? && i < |c.storage.value|
    ensures EntryTyped(c.storage.value[i]) && SameTerms(ResolvedEntry(c.storage.value[i]), c.storage.value[i])
  {
    ResolvedParts(c);
  }

  /** `list` is made of entries the document has, under other default flags, and at most one fresh one. */
  predicate MadeOf(prev: Config, list: seq<StorageEntry>)
    requires Typed(prev)
  {
    forall i | 0 <= i < |list| :: EntryTyped(list[i]) && ']' !in ResolvedEntry(list[i]).name
      && (Inherits(prev, ResolvedEntry(list[i])) || FreshEntry(prev, ResolvedEntry(list[i])))
  }

  lemma {:induction false} MadeOfStaysTidy(prev: Config, d: set<Path>, asked: Config)
    requires Settled(prev, d) && Typed(asked) && WellNamed(Incoming(asked))
    requires asked.muxers == prev.muxers && (asked.storage == Some([]) ==> prev.storage == Some([]))
    requires asked.storage.Some? ==> MadeOf(prev, asked.storage.value)
    ensures CleanNames(Incoming(asked)) && WriteStaysTidy(prev, d, Incoming(asked))
  {
    var next := Incoming(asked);
    if asked.storage.Some? {
      var list := asked.storage.value;
      forall i | 0 <= i < |list|
        ensures ']' !in next.storage.value[i].name
        ensures Inherits(prev, next.storage.value[i]) || FreshEntry(prev, next.storage.value[i])
      {
        InheritsFlag(prev, ResolvedEntry(list[i]), next.storage.value[i]);
      }
    }
    ListStaysTidy(prev, d, next);
  }

  lemma InheritsFlag(prev: Config, a: StorageEntry, b: StorageEntry)
    requires SameTerms(a, b)
    ensures Inherits(prev, a) ==> Inherits(prev, b)
    ensures FreshEntry(prev, a) ==> FreshEntry(prev, b)
  {
    if Inherits(prev, a) {
      var i :| 0 <= i < |prev.storage.value| && SameTerms(prev.storage.value[i], a);
      assert SameTerms(prev.storage.value[i], b);
    }
  }

  lemma {:induction false} OwnInherits(prev: Config, i: nat, e: StorageEntry)
    requires Typed(prev) && Resolved(prev) && prev.storage.Some? && i < |prev.storage.value|
    requires EntryTyped(e) && e.(isDefault := false) == prev.storage.value[i].(isDefault := false)
    ensures Inherits(prev, ResolvedEntry(e)) && ResolvedEntry(e).name == prev.storage.value[i].name
  {
    ResolvedTerms(prev, i);
    assert SameTerms(prev.storage.value[i], ResolvedEntry(e));
  }

  lemma {:induction false} AddedMadeOf(h: Host, prev: Config, e: StorageEntry)
    requires WellNamed(prev) && CleanNames(prev) && EntryTyped(e) && TidyAddition(e)
    requires !AdditionRefused(h, e, Entries(prev))
    ensures MadeOf(prev, Added(prev, e).storage.value)
  {
    hide ZFS_ZERO, SECTIONS, MUXER_ZERO, RETENTION_ZERO, DEFAULT_RETENTION;
    var list := Entries(prev) + [e];
    var made := Added(prev, e).storage.value;
    forall i | 0 <= i < |list|
      ensures EntryTyped(made[i]) && ']' !in ResolvedEntry(made[i]).name
      ensures Inherits(prev, ResolvedEntry(made[i])) || FreshEntry(prev, ResolvedEntry(made[i]))
    {
      ResolvedEntryTyped(list[i]);
      if i < |Entries(prev)| {
        OwnInherits(prev, i, list[i]);
        InheritsFlag(prev, ResolvedEntry(list[i]), ResolvedEntry(made[i]));
      } else {
        AddedFresh(h, prev, e);
        InheritsFlag(prev, ResolvedEntry(e), ResolvedEntry(made[i]));
      }
    }
  }

  lemma {:induction false} AddedFresh(h: Host, prev: Config, e: StorageEntry)
    requires WellNamed(prev) && EntryTyped(e) && TidyAddition(e) && !AdditionRefused(h, e, Entries(prev))
    ensures FreshEntry(prev, ResolvedEntry(e))
  {
    var name := ResolvedEntry(e).name;
    if prev.storage.Some? {
      FindEntrySpec(prev.storage.value, name);
      assert !NameDeclared(Entries(prev), name);
    }
  }

  lemma {:induction false} ForgottenMadeOf(prev: Config, idx: nat)
    requires WellNamed(prev) && CleanNames(prev) && prev.storage.Some? && idx < |prev.storage.value|
    ensures MadeOf(prev, Without(prev.storage.value, idx))
  {
    var list := prev.storage.value;
    var kept := Without(list, idx);
    forall i | 0 <= i < |kept|
      ensures EntryTyped(kept[i]) && ']' !in ResolvedEntry(kept[i]).name && Inherits(prev, ResolvedEntry(kept[i]))
    {
      var j := if i < idx then i else i + 1;
      assert kept[i] == list[j] && list[j] in list;
      OwnInherits(prev, j, kept[i]);
    }
  }

  lemma {:induction false} RedesignatedMadeOf(prev: Config, idx: nat)
    requires WellNamed(prev) && CleanNames(prev) && prev.storage.Some? && idx < |prev.storage.value|
    ensures MadeOf(prev, Redesignated(prev.storage.value, idx))
  {
    var list := prev.storage.value;
    var flagged := Redesignated(list, idx);
    forall i | 0 <= i < |flagged|
      ensures EntryTyped(flagged[i]) && ']' !in ResolvedEntry(flagged[i]).name && Inherits(prev, ResolvedEntry(flagged[i]))
    {
      assert flagged[i] in flagged;
      OwnInherits(prev, i, flagged[i]);
    }
  }

  lemma {:induction false} UntouchedMadeOf(prev: Config)
    requires WellNamed(prev) && CleanNames(prev) && prev.storage.Some?
    ensures MadeOf(prev, prev.storage.value)
  {
    var list := prev.storage.value;
    forall i | 0 <= i < |list|
      ensures EntryTyped(list[i]) && ']' !in ResolvedEntry(list[i]).name && Inherits(prev, ResolvedEntry(list[i]))
    {
      assert list[i] in list;
      OwnInherits(prev, i, list[i]);
    }
  }

  // ---- siblings ----

  predicate SameButFlag(a: StorageEntry, b: StorageEntry) { a.(isDefault := false) == b.(isDefault := false) }

  /** Resolving a list leaves resolved entries as they are, but for the flag of a lone one. */
  lemma ResolvedAlready(list: seq<StorageEntry>, i: nat, b: StorageEntry)
    requires i < |list| && EntryTyped(list[i]) && EntryTyped(b) && SameButFlag(list[i], b)
    requires SameButFlag(ResolvedEntry(b), b)
    ensures SameButFlag(ResolvedIn(list, i), b)
  {
  }

  lemma ResolvedOwn(c: Config, i: nat)
    requires WellNamed(c) && c.storage.Some? && i < |c.storage.value|
    ensures EntryTyped(c.storage.value[i]) && SameButFlag(ResolvedEntry(c.storage.value[i]), c.storage.value[i])
  {
    ResolvedParts(c);
  }

  /** Splicing the list server-side: whichever narrow door moves it, every other key of the document and every
      key of every other entry stays, `zfs:` and `retention:` blocks included. */
  lemma {:induction false} AddSparesSiblings(env: Env, st: State, e: StorageEntry, saved: bool)
    requires WellNamed(st.cfg) && EntryTyped(e) && Add(env, st, e, saved).1 == Done
    ensures var after := Add(env, st, e, saved).0.cfg;
      && after.sections == st.cfg.sections && after.muxers == st.cfg.muxers
      && after.storage.Some? && |after.storage.value| == |Entries(st.cfg)| + 1
      && (forall i | 0 <= i < |Entries(st.cfg)| :: SameButFlag(after.storage.value[i], Entries(st.cfg)[i]))
      && SameButFlag(after.storage.value[|Entries(st.cfg)|], ResolvedEntry(e))
  {
    hide Refuses, DeclaredAfter, WrittenText, WellNamed, AdditionRefused;
    var list := Entries(st.cfg) + [e];
    var once := ResolvedList(list);
    ResolveIdempotent(Some(list));
    assert Add(env, st, e, saved).0.cfg.storage == Some(once);
    forall i | 0 <= i < |Entries(st.cfg)| ensures SameButFlag(once[i], Entries(st.cfg)[i]) {
      ResolvedOwn(st.cfg, i);
      ResolvedAlready(list, i, Entries(st.cfg)[i]);
    }
  }

  lemma {:induction false} ForgetSparesSiblings(env: Env, st: State, name: string, busy: bool, saved: bool)
    requires WellNamed(st.cfg) && Forget(env, st, name, busy, saved).1 == Done
    ensures var after := Forget(env, st, name, busy, saved).0.cfg;
      var list := Entries(st.cfg);
      var idx := IndexOf(list, name);
      && after.sections == st.cfg.sections && after.muxers == st.cfg.muxers
      && idx.Some? && !list[idx.value].isDefault && !busy
      && after.storage.Some? && |after.storage.value| == |list| - 1
      && (forall i | 0 <= i < |list| - 1 :: SameButFlag(after.storage.value[i], list[if i < idx.value then i else i + 1]))
  {
    hide Refuses, DeclaredAfter, WrittenText, WellNamed;
    var list := Entries(st.cfg);
    var idx := IndexOf(list, name).value;
    var kept := Without(list, idx);
    assert Forget(env, st, name, busy, saved).0.cfg.storage == Some(ResolvedList(kept));
    forall i | 0 <= i < |kept| ensures SameButFlag(ResolvedList(kept)[i], list[if i < idx then i else i + 1]) {
      var j := if i < idx then i else i + 1;
      assert kept[i] == list[j];
      ResolvedOwn(st.cfg, j);
      ResolvedAlready(kept, i, list[j]);
    }
  }

  lemma {:induction false} SetDefaultSparesSiblings(env: Env, st: State, name: string, saved: bool)
    requires WellNamed(st.cfg) && SetDefault(env, st, name, saved).1 == Done
    ensures var after := SetDefault(env, st, name, saved).0.cfg;
      var list := Entries(st.cfg);
      && after.sections == st.cfg.sections && after.muxers == st.cfg.muxers
      && after.storage.Some? && |after.storage.value| == |list|
      && (forall i | 0 <= i < |list| :: SameButFlag(after.storage.value[i], list[i]))
      && (forall i | 0 <= i < |list| :: after.storage.value[i].isDefault <==> Some(i) == IndexOf(list, name))
  {
    hide Refuses, DeclaredAfter, WrittenText, WellNamed;
    var list := Entries(st.cfg);
    var flagged := Redesignated(list, IndexOf(list, name).value);
    assert SetDefault(env, st, name, saved).0.cfg.storage == Some(ResolvedList(flagged));
    forall i | 0 <= i < |list| ensures SameButFlag(ResolvedList(flagged)[i], list[i]) {
      ResolvedOwn(st.cfg, i);
      ResolvedAlready(flagged, i, list[i]);
    }
  }

  // ---- runs ----

  /** A file that does not load, or loads into a settled state with names the dotted paths can carry. */
  predicate TidyFile(env: Env, file: File) {
    file.Holds? && Load(env, file).ok ==>
      var doc := env.read(file.text).value;
      NoKeylessRetention(doc) && MuxersKeyed(doc, Load(env, file).config) && CleanNames(Load(env, file).config)
  }

  /** Every door but the full-document one; additions whose retention is absent, the default, or different in
      all three keys; hand edits that leave a tidy file. */
  predicate TidyOp(env: Env, op: Op) {
    match op
    case Put(_, _) => false
    case AddStorage(e, _) => EntryTyped(e) && TidyAddition(e)
    case Edit(file) => TidyFile(env, file)
    case _ => true
  }

  predicate TidyState(env: Env, st: State) {
    && Settled(st.cfg, st.declared) && CleanNames(st.cfg)
    && (TidyFile(env, st.file) || (st.last.Some? && st.file == Holds(st.last.value)))
  }

  /** The write left the short form. */
  predicate Short(env: Env, st: State)
    requires Typed(st.cfg)
  {
    st.last == Some(env.text(MarshalDeclared(st.cfg, st.declared)))
  }

  lemma TidyReadsBack(env: Env, c: Config, d: set<Path>)
    requires Faithful(env) && Typed(c)
    requires Decode(MarshalDeclared(c, d)) == Ok(c)
    ensures WrittenText(env, c, d) == env.text(MarshalDeclared(c, d))
  {
    hide Decode, MarshalDeclared;
  }

  /** A full-document write to a settled state takes the short form exactly when it stays tidy: the guard
      fires on every other write and on no tidy one. */
  lemma ShortExactly(env: Env, prev: Config, d: set<Path>, next: Config)
    requires Faithful(env) && Settled(prev, d) && WellNamed(next)
    ensures ReadsBack(env, env.text(MarshalDeclared(next, DeclaredAfter(prev, d, next))), next) <==> WriteStaysTidy(prev, d, next)
  {
    hide Decode, MarshalDeclared, WriteStaysTidy, Settled, WellNamed, DeclaredAfter;
    TidyWritesExactly(prev, d, next);
  }

  lemma {:induction false} TidyReplace(env: Env, st: State, asked: Config, saved: bool)
    requires Faithful(env) && TidyState(env, st) && Typed(asked)
    requires WellNamed(Incoming(asked)) ==>
      CleanNames(Incoming(asked)) && WriteStaysTidy(st.cfg, st.declared, Incoming(asked))
    ensures TidyState(env, Replace(env, st, asked, saved).0)
    ensures Replace(env, st, asked, saved).1 == Done ==> Short(env, Replace(env, st, asked, saved).0)
  {
    hide ZFS_ZERO, SECTIONS, MUXER_ZERO, RETENTION_ZERO, DEFAULT_RETENTION;
    hide Decode, MarshalDeclared, Covered, Refuses, WellNamed, Load;
    var (after, out) := Replace(env, st, asked, saved);
    AcceptedWriteLands(env, st, asked, saved);
    if out == Done {
      var next := Incoming(asked);
      TidyWritesExactly(st.cfg, st.declared, next);
      TidyRoundTripsExactly(next, after.declared);
      TidyReadsBack(env, next, after.declared);
      NothingStaleAfter(st.cfg, st.declared, next);
    }
  }

  lemma {:induction false} AskedMadeOf(env: Env, st: State, op: Op)
    requires WellNamed(st.cfg) && CleanNames(st.cfg) && OpTyped(op) && TidyOp(env, op) && Asked(env, st, op).Some?
    ensures var asked := Asked(env, st, op).value;
      && asked.muxers == st.cfg.muxers
      && (asked.storage.Some? ==> MadeOf(st.cfg, asked.storage.value))
      && (asked.storage == Some([]) ==> st.cfg.storage == Some([]))
  {
    hide ZFS_ZERO, SECTIONS, MUXER_ZERO, RETENTION_ZERO, DEFAULT_RETENTION;
    hide Inherits, FreshEntry, AdditionRefused, MadeOf, WellNamed, CleanNames;
    match op {
      case AddStorage(e, _) => AddedMadeOf(env.host, st.cfg, e);
      case ForgetStorage(name, _, _) =>
        ForgottenMadeOf(st.cfg, IndexOf(Entries(st.cfg), name).value);
        LoneIsDefault(st.cfg);
      case SetDefaultStorage(name, _) => RedesignatedMadeOf(st.cfg, IndexOf(Entries(st.cfg), name).value);
      case _ =>
        if st.cfg.storage.Some? {
          UntouchedMadeOf(st.cfg);
        }
    }
  }

  /** Forgetting cannot empty the list: the only storage is the default. */
  lemma LoneIsDefault(c: Config)
    requires WellNamed(c)
    ensures c.storage.Some? && |c.storage.value| == 1 ==> c.storage.value[0].isDefault
  {
    if c.storage.Some? {
      ResolvedParts(c);
    }
  }

  lemma {:induction false} DoorStaysTidy(env: Env, st: State, op: Op)
    requires Typed(st.cfg) && TidyState(env, st) && OpTyped(op) && TidyOp(env, op) && Asked(env, st, op).Some?
    requires WellNamed(Incoming(Asked(env, st, op).value))
    ensures var next := Incoming(Asked(env, st, op).value);
      CleanNames(next) && WriteStaysTidy(st.cfg, st.declared, next)
  {
    hide Asked, MadeOf, WriteStaysTidy, CleanNames, Covered, NoStale, TidyOp, WellNamed;
    AskedMadeOf(env, st, op);
    MadeOfStaysTidy(st.cfg, st.declared, Asked(env, st, op).value);
  }

  lemma {:induction false} LoadStaysTidy(env: Env, file: File)
    requires TidyFile(env, file)
    ensures Settled(Load(env, file).config, Load(env, file).declared) && CleanNames(Load(env, file).config)
  {
    hide Faults, Accepted, Decode, Settled, CleanNames, MuxersKeyed, NoKeylessRetention;
    var l := Load(env, file);
    if file.Holds? && l.ok {
      FaultsExactly(env.host, l.config);
      LoadedSettled(env.host, env.read(file.text).value, l.config);
    } else {
      DefaultSettled();
    }
  }

  lemma DefaultSettled()
    ensures Settled(Default(), {}) && CleanNames(Default())
  {
    hide Typed;
    DefaultTyped();
    DefaultWellNamed();
  }

  lemma {:induction false} PollStaysTidy(env: Env, st: State)
    requires TidyState(env, st)
    ensures TidyState(env, Reload(env, st).0)
  {
    hide Load, Settled, CleanNames;
    if Reload(env, st).1 == Applied {
      LoadStaysTidy(env, st.file);
    }
  }

  lemma {:induction false} WriteStepStaysTidy(env: Env, st: State, op: Op)
    requires Faithful(env) && Typed(st.cfg) && TidyState(env, st) && OpTyped(op) && TidyOp(env, op)
    requires !op.Poll? && !op.Edit? && !op.Subscribe?
    ensures TidyState(env, Step(env, st, op).0)
    ensures Step(env, st, op).1 == Done ==> Short(env, Step(env, st, op).0)
  {
    hide *;
    EveryDoorReplaces(env, st, op);
    var asked := Asked(env, st, op);
    if asked.Some? {
      if WellNamed(Incoming(asked.value)) {
        DoorStaysTidy(env, st, op);
      }
      TidyReplace(env, st, asked.value, Saved(op));
    }
  }

  lemma {:induction false} StepStaysTidy(env: Env, st: State, op: Op)
    requires Faithful(env) && Typed(st.cfg) && TidyState(env, st) && OpTyped(op) && TidyOp(env, op)
    ensures TidyState(env, Step(env, st, op).0)
    ensures Step(env, st, op).1 == Done ==> Short(env, Step(env, st, op).0)
  {
    hide ZFS_ZERO, SECTIONS, MUXER_ZERO, RETENTION_ZERO, DEFAULT_RETENTION;
    hide Settled, CleanNames, Load, TidyFile, Typed;
    match op {
      case Poll => PollStaysTidy(env, st);
      case Edit(_) =>
      case Subscribe =>
      case _ => WriteStepStaysTidy(env, st, op);
    }
  }

  /** Over any run of the narrow doors, from a start on a tidy file, with tidy hand edits and reloads
      anywhere, every write that lands takes the short form: the long-form fallback never fires. */
  lemma {:induction false} NarrowRunsNeverFallBack(env: Env, file: File, appliers: nat, ops: seq<Op>)
    requires Faithful(env) && TidyFile(env, file)
    requires forall op | op in ops :: OpTyped(op) && TidyOp(env, op)
    ensures TidyState(env, Run(env, Start(env, file, appliers), ops))
    ensures ops != [] ==>
      var before := Run(env, Start(env, file, appliers), ops[..|ops| - 1]);
      var (after, out) := Step(env, before, ops[|ops| - 1]);
      out == Done ==> Short(env, after)
    decreases |ops|
  {
    hide TidyFile, Settled, CleanNames, Step, Load;
    if ops == [] {
      LoadStaysTidy(env, file);
    } else {
      var last := |ops| - 1;
      NarrowRunsNeverFallBack(env, file, appliers, ops[..last]);
      StepStaysTidy(env, Run(env, Start(env, file, appliers), ops[..last]), ops[last]);
    }
  }
}
