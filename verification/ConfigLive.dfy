/** The service as it runs: fields updated in place under the write lock, each method proved to take the
    step its specification describes. */
module ConfigLive {
  import opened Wrappers
  import opened YamlTree
  import opened ConfigSchema
  import opened ConfigDeclared
  import opened ConfigWriteDeclared
  import opened ConfigValidate
  import opened ConfigService

  /** The file, which the service shares with whoever edits it by hand. */
  class Disk {
    var file: File

    constructor (contents: File)
      ensures file == contents
    {
      file := contents;
    }
  }

  class Service {
    const env: Env
    const disk: Disk
    var cfg: Config
    var declared: set<Path>
    var discarded: bool
    var lastBytes: Option<string>
    var heard: seq<seq<Change>>

    ghost predicate Valid()
      reads this
    {
      Typed(cfg)
    }

    ghost function Now(): State
      reads this, disk
    {
      State(cfg, declared, discarded, lastBytes, heard, disk.file)
    }

    constructor (e: Env, d: Disk)
      ensures env == e && disk == d && Valid()
      ensures Now() == Start(e, d.file, 0)
      ensures d.file == old(d.file)
    {
      hide Load, Typed;
      var l := LoadByParts(e, d.file);
      env, disk := e, d;
      cfg, declared, discarded, lastBytes := l.config, l.declared, !l.ok, l.raw;
      heard := [];
    }

    /** Wiring time: one more applier, which has heard nothing yet. */
    method Subscribe()
      requires Valid()
      modifies this`heard
      ensures Valid() && Now() == old(Now()).(heard := old(heard) + [[]])
    {
      heard := heard + [[]];
    }

    /** Every applier is told, in registration order. */
    method Notify(change: Change)
      modifies this`heard
      ensures heard == Told(old(heard), change) && |heard| == |old(heard)|
      ensures forall a | 0 <= a < |heard| :: heard[a] == old(heard)[a] + [change]
    {
      var list := heard;
      for a := 0 to |list|
        invariant |heard| == |list|
        invariant forall b | 0 <= b < a :: heard[b] == list[b] + [change]
        invariant forall b | a <= b < |list| :: heard[b] == list[b]
      {
        heard := heard[a := heard[a] + [change]];
      }
    }

    /** What a write would be refused for, before anything is written. */
    method Judge(next: Config) returns (refused: bool)
      ensures refused == Refuses(env, cfg, next)
    {
      hide Faults;
      var errs := Validate(env.host, next);
      if errs != [] {
        return true;
      }
      if Count(next) == 0 && Count(cfg) > 0 {
        return true;
      }
      if next.storage.Some? {
        errs := CheckStorageBackends(next.storage.value);
        return errs != [];
      }
      return false;
    }

    /** The declared set this write leaves, and the bytes: the tidy form, verified by parsing it back, or
        the full document. */
    method Render(next: Config) returns (d: set<Path>, data: string)
      requires Typed(next)
      ensures d == DeclaredAfter(cfg, declared, next)
      ensures data == WrittenText(env, next, d)
    {
      hide Parse, Typed;
      var changed := DiffMaps(Some(Marshal(cfg)), Marshal(next), Root, {});
      assert changed == ChangedKeys(cfg, next);
      d := ForStoragesByLoop(declared + changed, next.storage);
      var kept := PruneMapping(Marshal(next), d, Root, {});
      data := env.text(Mapping(kept));
      var back := ParseByWalk(env, data);
      if back.Err? || back.value.config != next {
        data := env.text(Marshal(next));
      }
    }

    method ReplaceLocked(c: Config, saved: bool) returns (out: Outcome)
      requires Valid() && Typed(c)
      modifies this`cfg, this`declared, this`discarded, this`lastBytes, this`heard, disk
      ensures Valid() && (Now(), out) == Replace(env, old(Now()), c, saved)
    {
      hide Refuses, DeclaredAfter, WrittenText, Typed, Resolved;
      TypedEntries(c);
      var storage := ResolveStoragesByLoop(c.storage);
      var next := c.(storage := storage);
      assert next == Incoming(c);
      var refused := Judge(next);
      if refused {
        return Refused;
      }
      var d, data := Render(next);
      if !saved {
        return NotWritten;
      }
      disk.file := Holds(data);
      var prev := cfg;
      cfg, declared, discarded, lastBytes := next, d, false, Some(data);
      Notify(Change(prev, next));
      out := Done;
    }

    method AddStorage(e: StorageEntry, saved: bool) returns (out: Outcome)
      requires Valid() && EntryTyped(e)
      modifies this`cfg, this`declared, this`discarded, this`lastBytes, this`heard, disk
      ensures Valid() && (Now(), out) == Add(env, old(Now()), e, saved)
    {
      hide Replace, AdditionRefused, Typed;
      if discarded {
        return Refused;
      }
      var existing := Entries(cfg);
      var refused := ValidateAddition(env.host, e, existing);
      if refused {
        return Refused;
      }
      out := ReplaceLocked(Added(cfg, e), saved);
    }

    method ForgetStorage(name: string, busy: bool, saved: bool) returns (out: Outcome)
      requires Valid()
      modifies this`cfg, this`declared, this`discarded, this`lastBytes, this`heard, disk
      ensures Valid() && (Now(), out) == Forget(env, old(Now()), name, busy, saved)
    {
      hide Replace, Typed;
      var list := Entries(cfg);
      var idx := FindIndex(list, name);
      if idx < 0 {
        return NoSuchStorage;
      }
      if list[idx].isDefault {
        return Refused;
      }
      if busy {
        return Refused;
      }
      var kept := list[..idx] + list[idx + 1..];
      assert forall e | e in kept :: EntryTyped(e);
      out := ReplaceLocked(WithEntries(cfg, kept), saved);
    }

    method SetDefaultStorage(name: string, saved: bool) returns (out: Outcome)
      requires Valid()
      modifies this`cfg, this`declared, this`discarded, this`lastBytes, this`heard, disk
      ensures Valid() && (Now(), out) == SetDefault(env, old(Now()), name, saved)
    {
      hide Replace, Typed;
      var list := Entries(cfg);
      var idx := FindIndex(list, name);
      if idx < 0 {
        return NoSuchStorage;
      }
      var entries := list;
      for i := 0 to |list|
        invariant |entries| == |list|
        invariant forall j | 0 <= j < i :: entries[j] == list[j].(isDefault := j == idx)
        invariant forall j | i <= j < |list| :: entries[j] == list[j]
      {
        entries := entries[i := entries[i].(isDefault := i == idx)];
      }
      assert entries == Redesignated(list, idx);
      out := ReplaceLocked(WithEntries(cfg, entries), saved);
    }

    method SetTransport(allow: bool, saved: bool) returns (out: Outcome)
      requires Valid()
      modifies this`cfg, this`declared, this`discarded, this`lastBytes, this`heard, disk
      ensures Valid() && (Now(), out) == SetAllowInsecureTransport(env, old(Now()), allow, saved)
    {
      hide Replace, Typed;
      if discarded {
        return Refused;
      }
      out := ReplaceLocked(WithTransport(cfg, allow), saved);
    }

    method SetTls(cert: string, key: string, saved: bool) returns (out: Outcome)
      requires Valid()
      modifies this`cfg, this`declared, this`discarded, this`lastBytes, this`heard, disk
      ensures Valid() && (Now(), out) == SetTLSFiles(env, old(Now()), cert, key, saved)
    {
      hide Replace, Typed;
      if discarded {
        return Refused;
      }
      out := ReplaceLocked(WithTls(cfg, cert, key), saved);
    }

    /** Never writes the file: `disk` is not in its frame. */
    method Poll() returns (out: Outcome)
      requires Valid()
      modifies this`cfg, this`declared, this`discarded, this`lastBytes, this`heard
      ensures Valid() && (Now(), out) == Reload(env, old(Now()))
    {
      hide Load, Typed;
      if !disk.file.Holds? {
        return Unchanged;
      }
      var data := disk.file.text;
      if data == (if lastBytes.None? then "" else lastBytes.value) {
        return Unchanged;
      }
      var l := LoadByParts(env, disk.file);
      if !l.ok {
        discarded, lastBytes := true, l.raw;
        return ReloadRefused;
      }
      var was := cfg;
      cfg, declared, discarded, lastBytes := l.config, l.declared, false, l.raw;
      Notify(Change(was, l.config));
      out := Applied;
    }
  }
}
