/** The document model under `config.yml`: a decoded YAML tree, and the key paths that name its parts.

    A mapping is a `map`, so two mappings with the same pairs are the same node whatever order they
    were written in.  A scalar keeps the kind the decoder gave it. */
module YamlTree {
  import opened Wrappers

  datatype Node =
    | Null
    | Str(s: string)
    | Bool(b: bool)
    | Int(i: int)
    | Mapping(m: map<string, Node>)
    | Sequence(items: seq<Node>)

  predicate SameKind(a: Node, b: Node) {
    match a
    case Null => b.Null?
    case Str(_) => b.Str?
    case Bool(_) => b.Bool?
    case Int(_) => b.Int?
    case Mapping(_) => b.Mapping?
    case Sequence(_) => b.Sequence?
  }

  function Child(n: Option<Node>, key: string): Option<Node> {
    if n.Some? && n.value.Mapping? && key in n.value.m then Some(n.value.m[key]) else None
  }

  /** A key path, built outwards in: `storage[nas].zfs.mode` is
      `Key(Key(Item(Key(Root, "storage"), "nas"), "zfs"), "mode")`.  No key of the schema holds a
      `]`, so the last `]` of the dotted form splits it uniquely and the two forms are one-to-one. */
  datatype Path = Root | Key(of: Path, key: string) | Item(of: Path, name: string)

  function Depth(p: Path): nat {
    if p.Root? then 0 else 1 + Depth(p.of)
  }

  /** `p` is `at` or lies below it. */
  predicate Within(p: Path, at: Path) {
    p == at || (!p.Root? && Within(p.of, at))
  }

  lemma {:induction false} WithinDepth(p: Path, at: Path)
    requires Within(p, at)
    ensures Depth(at) <= Depth(p)
    ensures Depth(at) == Depth(p) ==> p == at
  {
    if p != at {
      WithinDepth(p.of, at);
    }
  }

  /** A path has one ancestor at each depth. */
  lemma {:induction false} AncestorUnique(p: Path, a: Path, b: Path)
    requires Within(p, a) && Within(p, b) && Depth(a) == Depth(b)
    ensures a == b
  {
    WithinDepth(p, a);
    WithinDepth(p, b);
    if p != a && p != b {
      AncestorUnique(p.of, a, b);
    }
  }

  lemma {:induction false} WithinTransitive(p: Path, a: Path, b: Path)
    requires Within(p, a) && Within(a, b)
    ensures Within(p, b)
  {
    if p != a {
      WithinTransitive(p.of, a, b);
    }
  }

  /** What a list entry goes by: the first of its name, its path and its address that it has. */
  function EntryKey(m: map<string, Node>): string {
    if "name" in m && m["name"].Str? && m["name"].s != "" then m["name"].s
    else if "path" in m && m["path"].Str? then m["path"].s
    else if "address" in m && m["address"].Str? then m["address"].s
    else ""
  }
}
