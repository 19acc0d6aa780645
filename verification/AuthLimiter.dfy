/** The login limiter: a fixed number of attempts per address per window.  Its sweep cannot be noticed. */
module AuthLimiter {
  import opened Wrappers

  type Address = string

  datatype Bucket = Bucket(count: nat, start: int)

  /** The one clock rule both sides share: a bucket is over once more than a window has passed. */
  predicate Over(b: Bucket, now: int, window: nat) { now - b.start > window }

  // ---- the reference: an address that is never swept ----

  /** The bucket an attempt falls in. */
  function Current(b: Option<Bucket>, now: int, window: nat): Bucket {
    if b.None? || Over(b.value, now, window) then Bucket(0, now) else b.value
  }

  function Admits(b: Option<Bucket>, now: int, max: nat, window: nat): bool { Current(b, now, window).count < max }

  function Tried(b: Option<Bucket>, now: int, max: nat, window: nat): Bucket {
    var c := Current(b, now, window);
    if c.count < max then c.(count := c.count + 1) else c
  }

  function Of(buckets: map<Address, Bucket>, ip: Address): Option<Bucket> { if ip in buckets then Some(buckets[ip]) else None }

  // ---- the limiter ----

  class Limiter {
    const max: nat
    const window: nat
    var buckets: map<Address, Bucket>
    var lastSweep: int
    /** What the table would hold if nothing were ever swept, and the latest clock reading. */
    ghost var unswept: map<Address, Bucket>
    ghost var clock: int

    /** A swept bucket is one the next attempt would have replaced anyway. */
    ghost predicate Valid()
      reads this
    {
      && (forall ip | ip in buckets :: ip in unswept && buckets[ip] == unswept[ip])
      && (forall ip | ip in unswept && ip !in buckets :: Over(unswept[ip], clock, window))
    }

    constructor (m: nat, w: nat, zero: int)
      ensures Valid() && max == m && window == w && unswept == map[] && clock == zero
    {
      max, window, buckets, lastSweep, unswept, clock := m, w, map[], zero, map[], zero;
    }

    method Sweep(now: int)
      requires Valid() && clock <= now
      modifies this`buckets, this`lastSweep, this`clock
      ensures Valid() && clock == now
    {
      clock := now;
      if now - lastSweep < window {
        return;
      }
      ghost var was := buckets;
      var todo := buckets.Keys;
      while todo != {}
        invariant todo <= was.Keys && todo <= buckets.Keys && buckets.Keys <= was.Keys && clock == now
        invariant forall ip | ip in buckets :: buckets[ip] == was[ip]
        invariant forall ip | ip in was && ip !in buckets :: Over(was[ip], now, window)
      {
        var ip :| ip in todo;
        todo := todo - {ip};
        if Over(buckets[ip], now, window) {
          buckets := buckets - {ip};
        }
      }
      lastSweep := now;
    }

    /** Answers, and counts, exactly as a limiter that never sweeps. */
    method Allow(ip: Address, now: int) returns (ok: bool)
      requires Valid() && clock <= now
      modifies this`buckets, this`lastSweep, this`unswept, this`clock
      ensures Valid() && clock == now
      ensures ok == Admits(Of(old(unswept), ip), now, max, window)
      ensures unswept == old(unswept)[ip := Tried(Of(old(unswept), ip), now, max, window)]
    {
      Sweep(now);
      unswept := unswept[ip := Tried(Of(unswept, ip), now, max, window)];
      var b := if ip !in buckets || Over(buckets[ip], now, window) then Bucket(0, now) else buckets[ip];
      buckets := buckets[ip := b];
      if b.count >= max {
        return false;
      }
      buckets := buckets[ip := b.(count := b.count + 1)];
      return true;
    }

    method Reset(ip: Address)
      requires Valid()
      modifies this`buckets, this`unswept
      ensures Valid() && unswept == old(unswept) - {ip}
    {
      buckets := buckets - {ip};
      unswept := unswept - {ip};
    }
  }

  // ---- the bound ----

  /** How many of these attempts of one address, with no reset among them, are admitted. */
  function Admitted(b: Option<Bucket>, times: seq<int>, max: nat, window: nat): nat
    decreases |times|
  {
    if times == [] then 0
    else (if Admits(b, times[0], max, window) then 1 else 0)
         + Admitted(Some(Tried(b, times[0], max, window)), times[1..], max, window)
  }

  predicate Nondecreasing(times: seq<int>) { forall i, j | 0 <= i < j < |times| :: times[i] <= times[j] }

  /** Inside one bucket no more than what is left of it. */
  lemma {:induction false} OneBucket(b: Bucket, times: seq<int>, max: nat, window: nat)
    requires b.count <= max && forall i | 0 <= i < |times| :: times[i] - b.start <= window
    ensures Admitted(Some(b), times, max, window) <= max - b.count
    decreases |times|
  {
    if times != [] {
      OneBucket(Tried(Some(b), times[0], max, window), times[1..], max, window);
    }
  }

  /** Within one window's length: what is left of the bucket it begins in, and one more bucket. */
  lemma {:induction false} TwoBuckets(b: Option<Bucket>, times: seq<int>, max: nat, window: nat)
    requires Nondecreasing(times) && (b.Some? ==> b.value.count <= max)
    requires times != [] ==> times[|times| - 1] - times[0] <= window
    ensures Admitted(b, times, max, window) <= max + (if b.Some? then max - b.value.count else 0)
    decreases |times|
  {
    if times != [] {
      var next := Tried(b, times[0], max, window);
      if b.None? || Over(b.value, times[0], window) {
        forall i | 0 <= i < |times[1..]| ensures times[1..][i] - next.start <= window {
          assert times[i + 1] <= times[|times| - 1];
        }
        OneBucket(next, times[1..], max, window);
      } else {
        TwoBuckets(Some(next), times[1..], max, window);
      }
    }
  }

  /** The attempts of a whole run that fall in a closed interval. */
  function Skip(b: Option<Bucket>, times: seq<int>, max: nat, window: nat): Option<Bucket>
    decreases |times|
  {
    if times == [] then b else Skip(Some(Tried(b, times[0], max, window)), times[1..], max, window)
  }

  lemma {:induction false} SkipKeeps(b: Option<Bucket>, times: seq<int>, max: nat, window: nat)
    requires max > 0 && (b.Some? ==> 1 <= b.value.count <= max)
    ensures var s := Skip(b, times, max, window); s.Some? ==> 1 <= s.value.count <= max
    decreases |times|
  {
    if times != [] {
      SkipKeeps(Some(Tried(b, times[0], max, window)), times[1..], max, window);
    }
  }

  /** Between resets, any closed interval one window long admits fewer attempts than twice the limit, whatever
      came before: `times[lo..hi]` are the attempts that fall in it. */
  lemma {:induction false} FewerThanTwiceTheLimit(times: seq<int>, lo: nat, hi: nat, max: nat, window: nat)
    requires max > 0 && Nondecreasing(times) && lo < hi <= |times| && times[hi - 1] - times[lo] <= window
    ensures Admitted(Skip(None, times[..lo], max, window), times[lo..hi], max, window) <= 2 * max - 1
  {
    SkipKeeps(None, times[..lo], max, window);
    TwoBuckets(Skip(None, times[..lo], max, window), times[lo..hi], max, window);
  }

  function Times(n: nat, t: int): seq<int> { seq(n, _ => t) }

  /** Attempts at one moment inside a bucket are admitted while the bucket lasts, and counted in it. */
  lemma {:induction false} AtOnce(b: Bucket, n: nat, t: int, rest: seq<int>, max: nat, window: nat)
    requires b.count + n <= max && !Over(b, t, window)
    ensures Admitted(Some(b), Times(n, t) + rest, max, window)
         == n + Admitted(Some(b.(count := b.count + n)), rest, max, window)
    decreases n
  {
    if n == 0 {
      assert Times(n, t) + rest == rest;
    } else {
      var all := Times(n, t) + rest;
      assert all[0] == t && all[1..] == Times(n - 1, t) + rest;
      AtOnce(b.(count := b.count + 1), n - 1, t, rest, max, window);
    }
  }

  /** One attempt, a window later all but one of what that bucket has left, and at once after it a full bucket. */
  function Burst(max: nat, window: nat): seq<int>
    requires max > 0
  {
    [0] + (Times(max - 1, window) + Times(max, window + 1))
  }

  /** The bound is reached, for every limit and window: of these attempts, all but the first fall
      within one window of each other, number one fewer than twice the limit, and are admitted. */
  lemma {:induction false} TheBoundIsReached(max: nat, window: nat)
    requires max > 0 && window > 0
    ensures var times := Burst(max, window);
      && Nondecreasing(times) && |times| == 2 * max
      && times[|times| - 1] - times[1] <= window
      && Admitted(Skip(None, times[..1], max, window), times[1..], max, window) == 2 * max - 1
  {
    var times := Burst(max, window);
    assert times[..1] == [0] && [0][1..] == [] && times[1..] == Times(max - 1, window) + Times(max, window + 1);
    var first := Bucket(1, 0);
    assert Skip(None, [0], max, window) == Skip(Some(first), [], max, window) == Some(first);
    AtOnce(first, max - 1, window, Times(max, window + 1), max, window);
    var full := Bucket(max, 0);
    var anew := Times(max, window + 1);
    assert anew[0] == window + 1 && anew[1..] == Times(max - 1, window + 1);
    assert Times(max - 1, window + 1) + [] == Times(max - 1, window + 1);
    AtOnce(Bucket(1, window + 1), max - 1, window + 1, [], max, window);
    assert Admitted(Some(full), anew, max, window) == 1 + Admitted(Some(Bucket(1, window + 1)), anew[1..], max, window);
  }
}
