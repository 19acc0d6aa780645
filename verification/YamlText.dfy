/** A YAML library that reads back the trees it writes can exist: a text for every tree, no two alike.  The
    service is proved against any such library. */
module YamlText {
  import opened Wrappers
  import opened YamlTree

  // Prefix-free texts, so that what follows a text never blurs into it.
  ghost function Quote(s: string): string { if s == "" then "." else "c" + [s[0]] + Quote(s[1..]) }

  ghost function Tally(n: nat): string { if n == 0 then "." else "1" + Tally(n - 1) }

  ghost function Pick(keys: set<string>): string
    requires keys != {}
    ensures Pick(keys) in keys
  {
    var k :| k in keys; k
  }

  ghost function Text(n: Node): string
    decreases n, 1, 0
  {
    match n
    case Null => "n"
    case Str(s) => "s" + Quote(s)
    case Bool(b) => if b then "t" else "f"
    case Int(i) => if i >= 0 then "+" + Tally(i) else "-" + Tally(-i)
    case Mapping(m) => "{" + Pairs(n, m.Keys)
    case Sequence(items) => "[" + Elements(n, 0)
  }

  ghost function Pairs(n: Node, keys: set<string>): string
    requires n.Mapping? && keys <= n.m.Keys
    decreases n, 0, |keys|
  {
    if keys == {} then "}"
    else
      var k := Pick(keys);
      "k" + Quote(k) + Text(n.m[k]) + Pairs(n, keys - {k})
  }

  ghost function Elements(n: Node, i: nat): string
    requires n.Sequence? && i <= |n.items|
    decreases n, 0, |n.items| - i
  {
    if i == |n.items| then "]" else "," + Text(n.items[i]) + Elements(n, i + 1)
  }

  lemma {:induction false} QuoteUnique(a: string, b: string, r: string, s: string)
    requires Quote(a) + r == Quote(b) + s
    ensures a == b && r == s
  {
    var x, y := Quote(a) + r, Quote(b) + s;
    assert x[0] == y[0];
    if a == "" {
      assert x[1..] == r && y[1..] == s;
    } else {
      assert x[1] == a[0] && y[1] == b[0];
      assert x[2..] == Quote(a[1..]) + r && y[2..] == Quote(b[1..]) + s;
      QuoteUnique(a[1..], b[1..], r, s);
      assert a == [a[0]] + a[1..] && b == [b[0]] + b[1..];
    }
  }

  lemma {:induction false} TallyUnique(a: nat, b: nat, r: string, s: string)
    requires Tally(a) + r == Tally(b) + s
    ensures a == b && r == s
  {
    var x, y := Tally(a) + r, Tally(b) + s;
    assert x[0] == y[0];
    if a == 0 {
      assert x[1..] == r && y[1..] == s;
    } else {
      assert x[1..] == Tally(a - 1) + r && y[1..] == Tally(b - 1) + s;
      TallyUnique(a - 1, b - 1, r, s);
    }
  }

  lemma Regrouped(mark: string, a: string, b: string, c: string, rest: string)
    requires |mark| == 1
    ensures ((mark + a + b + c) + rest)[1..] == a + (b + (c + rest))
  {
  }

  /** Texts differ as trees do, whatever follows them. */
  lemma {:induction false} TextUnique(a: Node, b: Node, r: string, s: string)
    requires Text(a) + r == Text(b) + s
    ensures a == b && r == s
    decreases a, 1, 0
  {
    hide Quote, Tally, Pairs, Elements;
    var x, y := Text(a) + r, Text(b) + s;
    assert x[0] == y[0] && x[1..] == y[1..];
    match a {
      case Null => assert x[1..] == r && y[1..] == s;
      case Bool(_) => assert x[1..] == r && y[1..] == s;
      case Str(t) =>
        assert x[1..] == Quote(t) + r && y[1..] == Quote(b.s) + s;
        QuoteUnique(t, b.s, r, s);
      case Int(i) =>
        var j := b.i;
        assert x[1..] == Tally(if i >= 0 then i else -i) + r && y[1..] == Tally(if j >= 0 then j else -j) + s;
        TallyUnique(if i >= 0 then i else -i, if j >= 0 then j else -j, r, s);
      case Mapping(m) =>
        assert x[1..] == Pairs(a, m.Keys) + r && y[1..] == Pairs(b, b.m.Keys) + s;
        PairsUnique(a, b, m.Keys, b.m.Keys, r, s);
        assert m == b.m;
      case Sequence(items) =>
        assert x[1..] == Elements(a, 0) + r && y[1..] == Elements(b, 0) + s;
        ElementsUnique(a, b, 0, r, s);
        assert items == b.items;
    }
  }

  lemma {:induction false} PairsUnique(a: Node, b: Node, j: set<string>, k: set<string>, r: string, s: string)
    requires a.Mapping? && b.Mapping? && j <= a.m.Keys && k <= b.m.Keys
    requires Pairs(a, j) + r == Pairs(b, k) + s
    ensures j == k && r == s && forall x | x in j :: a.m[x] == b.m[x]
    decreases a, 0, |j|
  {
    var x, y := Pairs(a, j) + r, Pairs(b, k) + s;
    assert x[0] == y[0] && x[1..] == y[1..];
    if j == {} {
      assert x[1..] == r && y[1..] == s;
    } else {
      var p, q := Pick(j), Pick(k);
      var u, v := Text(a.m[p]) + (Pairs(a, j - {p}) + r), Text(b.m[q]) + (Pairs(b, k - {q}) + s);
      Regrouped("k", Quote(p), Text(a.m[p]), Pairs(a, j - {p}), r);
      Regrouped("k", Quote(q), Text(b.m[q]), Pairs(b, k - {q}), s);
      hide Quote, Text, Pairs;
      QuoteUnique(p, q, u, v);
      TextUnique(a.m[p], b.m[q], Pairs(a, j - {p}) + r, Pairs(b, k - {q}) + s);
      PairsUnique(a, b, j - {p}, k - {q}, r, s);
      assert j == (j - {p}) + {p} && k == (k - {q}) + {q};
    }
  }

  lemma {:induction false} ElementsUnique(a: Node, b: Node, i: nat, r: string, s: string)
    requires a.Sequence? && b.Sequence? && i <= |a.items| && i <= |b.items|
    requires Elements(a, i) + r == Elements(b, i) + s
    ensures |a.items| == |b.items| && r == s && forall n | i <= n < |a.items| :: a.items[n] == b.items[n]
    decreases a, 0, |a.items| - i
  {
    hide Text;
    var x, y := Elements(a, i) + r, Elements(b, i) + s;
    assert x[0] == y[0] && x[1..] == y[1..];
    if i == |a.items| {
      assert x[1..] == r && y[1..] == s;
    } else {
      var u, v := Elements(a, i + 1) + r, Elements(b, i + 1) + s;
      Regrouped(",", Text(a.items[i]), Elements(a, i + 1), "", r);
      Regrouped(",", Text(b.items[i]), Elements(b, i + 1), "", s);
      assert "" + r == r && "" + s == s;
      assert Elements(a, i) == "," + Text(a.items[i]) + Elements(a, i + 1) + "";
      assert Elements(b, i) == "," + Text(b.items[i]) + Elements(b, i + 1) + "";
      hide Elements;
      TextUnique(a.items[i], b.items[i], u, v);
      ElementsUnique(a, b, i + 1, r, s);
    }
  }

  ghost function Read(s: string): Option<Node> {
    if n :| Text(n) == s then Some(n) else None
  }

  /** This library reads back every tree it writes. */
  lemma ReadsWhatItWrites(n: Node)
    ensures Read(Text(n)) == Some(n)
  {
    var back := Read(Text(n)).value;
    TextUnique(back, n, "", "");
  }
}
