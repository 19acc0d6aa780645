/** The service that owns the live configuration: parse, load, the write path behind every door, and
    reload.  Each operation is a function from state to state; `ConfigLive` runs the same operations step by
    step on its fields and is proved to agree.

    Every operation holds the write lock from start to finish, so an operation is one step. */
module ConfigService {
  import opened Wrappers
  import opened YamlTree
  import opened ConfigSchema
  import opened ConfigDeclared
  import opened ConfigWriteDeclared
  import opened ConfigLoad
  import opened ConfigValidate
  import opened Lists

  /** The YAML library and the platform.  A text that does not parse reads as nothing. */
  datatype Env = Env(host: Host, read: string -> Option<Node>, text: Node -> string)

  /** The one thing asked of the YAML library: it reads back the trees it writes. */
  ghost predicate Faithful(env: Env) { forall n :: env.read(env.text(n)) == Some(n) }

  // ---- parse and load ----

  datatype Parsed = Parsed(config: Config, declared: set<Path>)

  function Parse(env: Env, raw: string): (r: Result<Parsed>)
    ensures r.Ok? ==> Typed(r.value.config)
  {
    var doc := env.read(raw);
    if doc.None? then Err
    else match Decode(doc.value)
      case Ok(c) => Ok(Parsed(c, Declared(doc.value)))
      case Err => Err
  }

  method ParseByWalk(env: Env, raw: string) returns (r: Result<Parsed>)
    ensures r == Parse(env, raw)
  {
    var doc := env.read(raw);
    if doc.None? {
      return Err;
    }
    var declared := DeclaredByWalk(doc.value);
    r := match Decode(doc.value)
      case Ok(c) => Ok(Parsed(c, declared))
      case Err => Err;
  }

  datatype File = NoFile | Unreadable | Holds(text: string)

  datatype Loaded = Loaded(config: Config, declared: set<Path>, ok: bool, raw: Option<string>)

  function Load(env: Env, file: File): (l: Loaded)
    ensures Typed(l.config)
  {
    DefaultTyped();
    match file
    case NoFile => Loaded(Default(), {}, true, None)
    case Unreadable => Loaded(Default(), {}, false, None)
    case Holds(text) =>
      var p := Parse(env, text);
      if p.Err? || Faults(env.host, p.value.config) != [] then Loaded(Default(), {}, false, Some(text))
      else Loaded(p.value.config, p.value.declared, true, Some(text))
  }

  lemma DefaultTyped()
    ensures Typed(Default())
  {
  }

  method LoadByParts(env: Env, file: File) returns (l: Loaded)
    ensures l == Load(env, file)
  {
    match file {
      case NoFile => l := Loaded(Default(), {}, true, None);
      case Unreadable => l := Loaded(Default(), {}, false, None);
      case Holds(text) =>
        var p := ParseByWalk(env, text);
        if p.Err? {
          return Loaded(Default(), {}, false, Some(text));
        }
        var errs := Validate(env.host, p.value.config);
        if errs != [] {
          return Loaded(Default(), {}, false, Some(text));
        }
        l := Loaded(p.value.config, p.value.declared, true, Some(text));
    }
  }

  // ---- the state ----

  /** One call of an applier. */
  datatype Change = Change(was: Config, now: Config)

  /** `last` is the document this process last read or wrote; `heard[a]` is every call applier `a` got;
      `file` is the file itself, which others may edit. */
  datatype State = State(
    cfg: Config, declared: set<Path>, discarded: bool, last: Option<string>, heard: seq<seq<Change>>, file: File)

  function Start(env: Env, file: File, appliers: nat): (st: State)
    ensures Typed(st.cfg)
  {
    var l := Load(env, file);
    State(l.config, l.declared, !l.ok, l.raw, seq(appliers, _ => []), file)
  }

  function Told(heard: seq<seq<Change>>, change: Change): seq<seq<Change>> {
    seq(|heard|, a requires 0 <= a < |heard| => heard[a] + [change])
  }

  // ---- the write path ----

  function Count(c: Config): nat { if c.storage.None? then 0 else |c.storage.value| }

  /** A resolved document is refused when it is invalid, when it would empty a list that was not empty, or
      when two of its storages are one. */
  predicate Refuses(env: Env, prev: Config, next: Config) {
    || Faults(env.host, next) != []
    || (Count(next) == 0 && Count(prev) > 0)
    || (next.storage.Some? && Concat(BackendsFaults(next.storage.value)) != [])
  }

  function ReadsBack(env: Env, text: string, c: Config): bool {
    Parse(env, text).Ok? && Parse(env, text).value.config == c
  }

  /** The bytes a write leaves: the tidy document, or the full one when the tidy one does not read back. */
  function WrittenText(env: Env, c: Config, d: set<Path>): string
    requires Typed(c)
  {
    var tidy := env.text(MarshalDeclared(c, d));
    if ReadsBack(env, tidy, c) then tidy else env.text(Marshal(c))
  }

  datatype Outcome = Done | Refused | NotWritten | NoSuchStorage | Unchanged | Applied | ReloadRefused

  lemma TypedEntries(c: Config)
    requires Typed(c)
    ensures c.storage.Some? ==> forall e | e in c.storage.value :: EntryTyped(e)
  {
  }

  function Incoming(c: Config): (r: Config)
    requires Typed(c)
    ensures Typed(r) && Resolved(r)
  {
    ResolveIdempotent(c.storage);
    c.(storage := ResolveStorages(c.storage))
  }

  /** Replace the whole document.  `saved` is whether the atomic write succeeded. */
  function Replace(env: Env, st: State, c: Config, saved: bool): (State, Outcome)
    requires Typed(c)
  {
    var next := Incoming(c);
    if Refuses(env, st.cfg, next) then (st, Refused)
    else if !saved then (st, NotWritten)
    else
      var d := DeclaredAfter(st.cfg, st.declared, next);
      var text := WrittenText(env, next, d);
      (State(next, d, false, Some(text), Told(st.heard, Change(st.cfg, next)), Holds(text)), Done)
  }

  // ---- the narrow doors ----

  const ADDABLE: set<string> := {"zfs", "reflink", "hardlink", "copy"}

  predicate NameDeclared(list: seq<StorageEntry>, name: string) { exists i :: 0 <= i < |list| && list[i].name == name }

  predicate PathDeclared(h: Host, list: seq<StorageEntry>, path: string) {
    exists i :: 0 <= i < |list| && h.clean(list[i].path) == h.clean(path)
  }

  predicate AdditionRefused(h: Host, e: StorageEntry, existing: seq<StorageEntry>)
    requires EntryTyped(e)
  {
    || !IsAbs(e.path)
    || e.backend !in ADDABLE
    || NameDeclared(existing, ResolvedEntry(e).name)
    || PathDeclared(h, existing, e.path)
    || e.isDefault
  }

  method ValidateAddition(h: Host, e: StorageEntry, existing: seq<StorageEntry>) returns (refused: bool)
    requires EntryTyped(e)
    ensures refused == AdditionRefused(h, e, existing)
  {
    refused := !IsAbs(e.path) || e.backend !in ADDABLE || e.isDefault;
    var name := ResolvedEntry(e).name;
    var named := false;
    for i := 0 to |existing|
      invariant named <==> exists j :: 0 <= j < i && existing[j].name == name
    {
      if existing[i].name == name {
        named := true;
        break;
      }
    }
    var clean := h.clean(e.path);
    var placed := false;
    for i := 0 to |existing|
      invariant placed <==> exists j :: 0 <= j < i && h.clean(existing[j].path) == clean
    {
      if h.clean(existing[i].path) == clean {
        placed := true;
        break;
      }
    }
    refused := refused || named || placed;
  }

  function Entries(c: Config): (r: seq<StorageEntry>)
    requires Typed(c)
    ensures forall e | e in r :: EntryTyped(e)
  {
    if c.storage.None? then [] else c.storage.value
  }

  function WithEntries(c: Config, list: seq<StorageEntry>): (r: Config)
    requires Typed(c) && forall e | e in list :: EntryTyped(e)
    ensures Typed(r)
  {
    c.(storage := Some(list))
  }

  function Added(c: Config, e: StorageEntry): (r: Config)
    requires Typed(c) && EntryTyped(e)
    ensures Typed(r)
  {
    ResolveIdempotent(Some(Entries(c) + [e]));
    WithEntries(c, ResolvedList(Entries(c) + [e]))
  }

  function Add(env: Env, st: State, e: StorageEntry, saved: bool): (State, Outcome)
    requires Typed(st.cfg) && EntryTyped(e)
  {
    if st.discarded || AdditionRefused(env.host, e, Entries(st.cfg)) then (st, Refused)
    else Replace(env, st, Added(st.cfg, e), saved)
  }

  /** The first entry with this name. */
  function IndexOf(list: seq<StorageEntry>, name: string): (r: Option<nat>)
    ensures r.Some? ==> r.value < |list| && list[r.value].name == name && forall j | 0 <= j < r.value :: list[j].name != name
    ensures r.None? ==> forall j | 0 <= j < |list| :: list[j].name != name
  {
    if list == [] then None
    else if list[0].name == name then Some(0)
    else match IndexOf(list[1..], name)
      case None => None
      case Some(i) => Some(i + 1)
  }

  method FindIndex(list: seq<StorageEntry>, name: string) returns (idx: int)
    ensures IndexOf(list, name) == if idx < 0 then None else Some(idx)
  {
    idx := -1;
    for i := 0 to |list|
      invariant idx == -1 && forall j | 0 <= j < i :: list[j].name != name
    {
      if list[i].name == name {
        idx := i;
        break;
      }
    }
  }

  function Without(list: seq<StorageEntry>, i: nat): seq<StorageEntry>
    requires i < |list|
  {
    list[..i] + list[i + 1..]
  }

  function Forget(env: Env, st: State, name: string, busy: bool, saved: bool): (State, Outcome)
    requires Typed(st.cfg)
  {
    var list := Entries(st.cfg);
    var idx := IndexOf(list, name);
    if idx.None? then (st, NoSuchStorage)
    else if list[idx.value].isDefault || busy then (st, Refused)
    else Replace(env, st, WithEntries(st.cfg, Without(list, idx.value)), saved)
  }

  function Redesignated(list: seq<StorageEntry>, idx: nat): (r: seq<StorageEntry>)
    requires forall e | e in list :: EntryTyped(e)
    ensures forall e | e in r :: EntryTyped(e)
  {
    var r := seq(|list|, i requires 0 <= i < |list| => list[i].(isDefault := i == idx));
    assert forall i | 0 <= i < |r| :: EntryTyped(list[i]) && r[i] == list[i].(isDefault := i == idx);
    r
  }

  function SetDefault(env: Env, st: State, name: string, saved: bool): (State, Outcome)
    requires Typed(st.cfg)
  {
    var list := Entries(st.cfg);
    var idx := IndexOf(list, name);
    if idx.None? then (st, NoSuchStorage)
    else Replace(env, st, WithEntries(st.cfg, Redesignated(list, idx.value)), saved)
  }

  /** The document with one key of one section replaced by a value of the same kind. */
  function WithKey(c: Config, s: string, k: string, v: Node): (r: Config)
    requires Typed(c) && s in SECTIONS && k in SECTIONS[s] && SameKind(v, SECTIONS[s][k])
    ensures Typed(r)
  {
    var section := c.sections[s][k := v];
    ShapedUpdate(c.sections[s], SECTIONS[s], k, v);
    var sections := c.sections[s := section];
    assert forall t | t in SECTIONS :: Shaped(sections[t], SECTIONS[t]);
    c.(sections := sections)
  }

  lemma ShapedUpdate(r: Record, table: Record, k: string, v: Node)
    requires Shaped(r, table) && k in table && SameKind(v, table[k])
    ensures Shaped(r[k := v], table)
  {
  }

  lemma NarrowKeys()
    ensures "sessions" in SECTIONS && SECTIONS["sessions"] == map["allow_insecure_transport" := Bool(false)]
    ensures "tls" in SECTIONS && SECTIONS["tls"] == map["cert_file" := Str(""), "key_file" := Str("")]
  {
  }

  function WithTransport(c: Config, allow: bool): (r: Config)
    requires Typed(c)
    ensures Typed(r)
  {
    NarrowKeys();
    WithKey(c, "sessions", "allow_insecure_transport", Bool(allow))
  }

  function WithTls(c: Config, cert: string, key: string): (r: Config)
    requires Typed(c)
    ensures Typed(r)
  {
    NarrowKeys();
    WithKey(WithKey(c, "tls", "cert_file", Str(cert)), "tls", "key_file", Str(key))
  }

  function SetAllowInsecureTransport(env: Env, st: State, allow: bool, saved: bool): (State, Outcome)
    requires Typed(st.cfg)
  {
    if st.discarded then (st, Refused) else Replace(env, st, WithTransport(st.cfg, allow), saved)
  }

  function SetTLSFiles(env: Env, st: State, cert: string, key: string, saved: bool): (State, Outcome)
    requires Typed(st.cfg)
  {
    if st.discarded then (st, Refused) else Replace(env, st, WithTls(st.cfg, cert, key), saved)
  }

  // ---- reload ----

  /** Compare bytes, and take the file only if it is not the one last read or written.  Absent bytes
      compare as empty ones. */
  function Reload(env: Env, st: State): (State, Outcome) {
    if !st.file.Holds? then (st, Unchanged)
    else if st.file.text == (if st.last.None? then "" else st.last.value) then (st, Unchanged)
    else
      var l := Load(env, st.file);
      if !l.ok then (st.(discarded := true, last := l.raw), ReloadRefused)
      else
        (st.(cfg := l.config, declared := l.declared, discarded := false, last := l.raw,
             heard := Told(st.heard, Change(st.cfg, l.config))), Applied)
  }
}
