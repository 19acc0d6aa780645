/** The device registry: what several muxers report, merged into one table, with the events published on the
    way.  Events are listed in the order their changes took the lock. */
module DeviceRegistry {
  import opened Wrappers

  type Udid = string
  // Muxer ids and timestamps, up to the order of their strings; a timestamp is never the empty string.
  type Source = nat
  type Stamp = t: nat | 0 < t witness 1

  datatype Transport = Usb | Wifi

  /** source → device → transport → when it was last seen there. */
  type Table = map<Source, map<Udid, map<Transport, Stamp>>>

  predicate Holds(table: Table, s: Source, u: Udid, t: Transport) { s in table && u in table[s] && t in table[s][u] }

  predicate Present(table: Table, u: Udid, t: Transport) { exists s :: s in table && Holds(table, s, u, t) }

  /** The merged relation: which device is on which transport, whoever says so. */
  function Merged(table: Table): set<(Udid, Transport)> {
    set s, u, t | s in table && u in table[s] && t in table[s][u] :: (u, t)
  }

  lemma MergedExactly(table: Table, u: Udid, t: Transport)
    ensures (u, t) in Merged(table) <==> Present(table, u, t)
  {
    if s :| s in table && Holds(table, s, u, t) {
      assert s in table && u in table[s] && t in table[s][u];
    }
    if (u, t) in Merged(table) {
      var s :| s in table && u in table[s] && t in table[s][u];
      assert Holds(table, s, u, t);
    }
  }

  function WithEdge(table: Table, s: Source, u: Udid, t: Transport, now: Stamp): Table {
    var byUdid: map<Udid, map<Transport, Stamp>> := if s in table then table[s] else map[];
    var edges: map<Transport, Stamp> := if u in byUdid then byUdid[u] else map[];
    table[s := byUdid[u := edges[t := now]]]
  }

  function WithoutEdge(table: Table, s: Source, u: Udid, t: Transport): Table {
    if s !in table || u !in table[s] then table
    else
      var edges := table[s][u] - {t};
      table[s := if edges == map[] then table[s] - {u} else table[s][u := edges]]
  }

  /** What one source says of one edge: when it last saw it, if it holds it. */
  function StampAt(table: Table, s: Source, u: Udid, t: Transport): Option<Stamp> {
    if Holds(table, s, u, t) then Some(table[s][u][t]) else None
  }

  /** Setting an edge stamps it and leaves every other edge of every source as it was. */
  lemma EdgeStamped(table: Table, s: Source, u: Udid, t: Transport, now: Stamp, r: Source, v: Udid, x: Transport)
    ensures StampAt(WithEdge(table, s, u, t, now), r, v, x)
         == if r == s && v == u && x == t then Some(now) else StampAt(table, r, v, x)
  {
  }

  lemma EdgeUnstamped(table: Table, s: Source, u: Udid, t: Transport, r: Source, v: Udid, x: Transport)
    ensures StampAt(WithoutEdge(table, s, u, t), r, v, x)
         == if r == s && v == u && x == t then None else StampAt(table, r, v, x)
  {
    if Holds(table, s, u, x) && x != t {
      assert x in table[s][u] - {t};
    }
  }

  lemma EdgeSet(table: Table, s: Source, u: Udid, t: Transport, now: Stamp)
    ensures Merged(WithEdge(table, s, u, t, now)) == Merged(table) + {(u, t)}
  {
    var now1 := WithEdge(table, s, u, t, now);
    forall x: (Udid, Transport) ensures x in Merged(now1) <==> x in Merged(table) || x == (u, t) {
      MergedExactly(table, x.0, x.1);
      MergedExactly(now1, x.0, x.1);
      assert Holds(now1, s, u, t);
      if r :| r in table && Holds(table, r, x.0, x.1) {
        assert Holds(now1, r, x.0, x.1);
      }
    }
  }

  /** Clearing an edge takes it from the merged table exactly when no other source holds it. */
  lemma EdgeCleared(table: Table, s: Source, u: Udid, t: Transport)
    ensures var m, n := Merged(table), Merged(WithoutEdge(table, s, u, t));
      && n == (if (u, t) in n then m else m - {(u, t)})
      && ((u, t) in n <==> exists r :: r in table && r != s && Holds(table, r, u, t))
  {
    var less := WithoutEdge(table, s, u, t);
    forall x: (Udid, Transport) ensures x != (u, t) ==> (x in Merged(less) <==> x in Merged(table))
                                ensures x in Merged(less) ==> x in Merged(table)
    {
      MergedExactly(table, x.0, x.1);
      MergedExactly(less, x.0, x.1);
      if r :| r in less && Holds(less, r, x.0, x.1) {
        assert Holds(table, r, x.0, x.1);
      }
      if r :| r in table && Holds(table, r, x.0, x.1) {
        if x != (u, t) && r == s && x.0 == u {
          assert x.1 in table[s][u] - {t};
        }
        assert x != (u, t) ==> Holds(less, r, x.0, x.1);
      }
    }
    MergedExactly(less, u, t);
    if r :| r in table && r != s && Holds(table, r, u, t) {
      assert Holds(less, r, u, t);
    }
  }

  // ---- events ----

  datatype Event = Attached(udid: Udid, transport: Transport) | Detached(udid: Udid, transport: Transport)

  function After(m: set<(Udid, Transport)>, e: Event): set<(Udid, Transport)> {
    if e.Attached? then m + {(e.udid, e.transport)} else m - {(e.udid, e.transport)}
  }

  predicate Changes(m: set<(Udid, Transport)>, e: Event) { e.Attached? <==> (e.udid, e.transport) !in m }

  function Replayed(events: seq<Event>): set<(Udid, Transport)> {
    if events == [] then {} else After(Replayed(events[..|events| - 1]), events[|events| - 1])
  }

  /** An event is published only when it changes something. */
  predicate Real(events: seq<Event>) { forall i | 0 <= i < |events| :: Changes(Replayed(events[..i]), events[i]) }

  lemma ReplayNext(events: seq<Event>, e: Event)
    ensures Replayed(events + [e]) == After(Replayed(events), e)
    ensures Real(events) && Changes(Replayed(events), e) ==> Real(events + [e])
  {
    var more := events + [e];
    assert more[..|events|] == events;
    if Real(events) && Changes(Replayed(events), e) {
      forall i | 0 <= i < |more| ensures Changes(Replayed(more[..i]), more[i]) {
        if i < |events| {
          assert more[..i] == events[..i] && more[i] == events[i];
        }
      }
    }
  }

  predicate NoRepeats(order: seq<Udid>) { forall i, j | 0 <= i < j < |order| :: order[i] != order[j] }

  /** The devices holding at least one edge. */
  predicate Connected(m: set<(Udid, Transport)>, u: Udid) { (u, Usb) in m || (u, Wifi) in m }

  // ---- the registry ----

  class Registry {
    var sources: Table
    var order: seq<Udid>
    var offlineSeen: map<Udid, Stamp>
    ghost var published: seq<Event>

    /** Replaying what was published gives exactly the merged table; every event was a real change; the order
        lists each connected device once and no other. */
    ghost predicate Valid()
      reads this
    {
      && Replayed(published) == Merged(sources) && Real(published)
      && NoRepeats(order)
      && forall u :: u in order <==> Connected(Merged(sources), u)
    }

    constructor ()
      ensures Valid() && sources == map[] && order == [] && published == []
    {
      sources, order, offlineSeen, published := map[], [], map[], [];
    }

    // ---- reads ----

    method TransportPresent(u: Udid, t: Transport) returns (present: bool)
      ensures present <==> (u, t) in Merged(sources)
    {
      present := false;
      var todo := sources.Keys;
      while todo != {}
        invariant todo <= sources.Keys
        invariant present <==> exists s :: s in sources && s !in todo && Holds(sources, s, u, t)
      {
        var s :| s in todo;
        todo := todo - {s};
        if u in sources[s] && t in sources[s][u] {
          assert Holds(sources, s, u, t);
          present := true;
        }
      }
      MergedExactly(sources, u, t);
    }

    /** The newest stamp any source carries for this edge. */
    method Newest(u: Udid, t: Transport) returns (seen: Option<Stamp>)
      ensures seen.None? <==> (u, t) !in Merged(sources)
      ensures seen.Some? ==> NewestStamp(sources, u, t, seen.value)
    {
      seen := None;
      var todo := sources.Keys;
      while todo != {}
        invariant todo <= sources.Keys
        invariant seen.None? <==> forall s | s in sources && s !in todo :: !Holds(sources, s, u, t)
        invariant seen.Some? ==>
          && (exists s :: s in sources && Holds(sources, s, u, t) && sources[s][u][t] == seen.value)
          && forall s | s in sources && s !in todo && Holds(sources, s, u, t) :: sources[s][u][t] <= seen.value
      {
        var s :| s in todo;
        todo := todo - {s};
        if u in sources[s] && t in sources[s][u] {
          assert Holds(sources, s, u, t);
          if seen.None? || sources[s][u][t] > seen.value {
            seen := Some(sources[s][u][t]);
          }
        }
      }
      MergedExactly(sources, u, t);
    }

    /** Which muxer to use for a device: the freshest, then the least id, whatever order the map is walked in. */
    method SourceFor(u: Udid, t: Transport) returns (best: Option<Source>)
      ensures best.None? <==> (u, t) !in Merged(sources)
      ensures best.Some? ==> Preferred(sources, u, t, best.value)
    {
      best := None;
      var bestSeen := 0;
      var todo := sources.Keys;
      while todo != {}
        invariant todo <= sources.Keys
        invariant best.None? <==> bestSeen == 0
        invariant best.None? <==> forall s | s in sources && s !in todo :: !Holds(sources, s, u, t)
        invariant best.Some? ==>
          && best.value in sources && best.value !in todo && Holds(sources, best.value, u, t)
          && sources[best.value][u][t] == bestSeen
          && forall s | s in sources && s !in todo && Holds(sources, s, u, t) ::
               sources[s][u][t] < bestSeen || (sources[s][u][t] == bestSeen && best.value <= s)
      {
        var s :| s in todo;
        todo := todo - {s};
        if u in sources[s] && t in sources[s][u] {
          assert Holds(sources, s, u, t);
          var seen := sources[s][u][t];
          if seen > bestSeen || (seen == bestSeen && best.Some? && s < best.value) {
            best, bestSeen := Some(s), seen;
          }
        }
      }
      MergedExactly(sources, u, t);
    }

    // ---- changes ----

    method Emit(e: Event)
      modifies this`published
      ensures published == old(published) + [e]
    {
      published := published + [e];
    }

    method SetEdge(s: Source, u: Udid, t: Transport, now: Stamp)
      modifies this`sources
      ensures sources == WithEdge(old(sources), s, u, t, now)
    {
      var byUdid: map<Udid, map<Transport, Stamp>> := if s in sources then sources[s] else map[];
      var edges: map<Transport, Stamp> := if u in byUdid then byUdid[u] else map[];
      edges := edges[t := now];
      byUdid := byUdid[u := edges];
      sources := sources[s := byUdid];
    }

    method ClearEdge(s: Source, u: Udid, t: Transport)
      modifies this`sources
      ensures sources == WithoutEdge(old(sources), s, u, t)
    {
      if s !in sources || u !in sources[s] {
        return;
      }
      var byUdid := sources[s];
      var edges := byUdid[u] - {t};
      byUdid := if edges == map[] then byUdid - {u} else byUdid[u := edges];
      sources := sources[s := byUdid];
    }

    method EnsureOrder(u: Udid)
      requires NoRepeats(order)
      modifies this`order
      ensures NoRepeats(order) && forall v :: v in order <==> v in old(order) || v == u
      ensures order == if u in old(order) then old(order) else old(order) + [u]
    {
      for i := 0 to |order|
        invariant order == old(order) && u !in order[..i]
      {
        if order[i] == u {
          return;
        }
      }
      assert order[..|order|] == order;
      order := order + [u];
    }

    method DropFromOrder(u: Udid)
      requires NoRepeats(order)
      modifies this`order
      ensures NoRepeats(order) && forall v :: v in order <==> v in old(order) && v != u
      ensures if u !in old(order) then order == old(order)
        else exists i :: 0 <= i < |old(order)| && old(order)[i] == u && order == old(order)[..i] + old(order)[i + 1..]
    {
      for i := 0 to |order|
        invariant order == old(order) && u !in order[..i]
      {
        if order[i] == u {
          ghost var was := order;
          order := order[..i] + order[i + 1..];
          Removed(was, i);
          return;
        }
      }
      assert order[..|order|] == order;
    }

    method AnnounceAttach(u: Udid, t: Transport)
      requires NoRepeats(order) && Real(published) && (u, t) !in Replayed(published)
      requires Merged(sources) == Replayed(published) + {(u, t)}
      requires forall v :: v in order <==> Connected(Replayed(published), v)
      modifies this`order, this`published
      ensures Valid() && published == old(published) + [Attached(u, t)] && u in order
    {
      hide Merged, Real, NoRepeats;
      ReplayNext(published, Attached(u, t));
      EnsureOrder(u);
      Emit(Attached(u, t));
    }

    method AnnounceDetach(u: Udid, t: Transport, now: Stamp)
      requires NoRepeats(order) && Real(published) && (u, t) in Replayed(published)
      requires Merged(sources) == Replayed(published) - {(u, t)}
      requires forall v :: v in order <==> Connected(Replayed(published), v)
      modifies this`order, this`published, this`offlineSeen
      ensures Valid() && published == old(published) + [Detached(u, t)]
      ensures offlineSeen == if u in old(order) && u !in order then old(offlineSeen)[u := now] else old(offlineSeen)
    {
      hide Merged, Real, NoRepeats, NewestStamp;
      ReplayNext(published, Detached(u, t));
      var usb := Newest(u, Usb);
      var wifi := Newest(u, Wifi);
      if usb.None? && wifi.None? {
        DropFromOrder(u);
        offlineSeen := offlineSeen[u := now];
      }
      Emit(Detached(u, t));
    }

    /** An attach or a detach from one source: at most one event, and only when the merged table changed. */
    method Apply(s: Source, attach: bool, u: Udid, t: Transport, now: Stamp)
      requires Valid()
      modifies this
      ensures Valid()
      ensures sources == if attach then WithEdge(old(sources), s, u, t, now) else WithoutEdge(old(sources), s, u, t)
      ensures forall r, v, x ::
        StampAt(sources, r, v, x)
          == (if r == s && v == u && x == t then (if attach then Some(now) else None) else StampAt(old(sources), r, v, x))
      ensures published == old(published) +
        if Merged(sources) == Merged(old(sources)) then [] else [if attach then Attached(u, t) else Detached(u, t)]
      ensures offlineSeen == if u in old(order) && u !in order then old(offlineSeen)[u := now] else old(offlineSeen)
    {
      hide Merged, Real, NoRepeats, Holds, WithEdge, WithoutEdge, Connected, StampAt;
      forall r, v, x
        ensures StampAt(WithEdge(sources, s, u, t, now), r, v, x)
             == if r == s && v == u && x == t then Some(now) else StampAt(sources, r, v, x)
        ensures StampAt(WithoutEdge(sources, s, u, t), r, v, x)
             == if r == s && v == u && x == t then None else StampAt(sources, r, v, x)
      {
        EdgeStamped(sources, s, u, t, now, r, v, x);
        EdgeUnstamped(sources, s, u, t, r, v, x);
      }
      ghost var m := Merged(sources);
      var before := TransportPresent(u, t);
      if attach {
        EdgeSet(sources, s, u, t, now);
        SetEdge(s, u, t, now);
      } else {
        EdgeCleared(sources, s, u, t);
        ClearEdge(s, u, t);
      }
      var after := TransportPresent(u, t);
      if attach && !before && after {
        AnnounceAttach(u, t);
      } else if !attach && before && !after {
        AnnounceDetach(u, t, now);
      } else {
        assert Merged(sources) == m;
      }
    }

    /** One device of a source that went away: its transports nobody else holds are detached. */
    method DropEdges(u: Udid, edges: set<Transport>)
      requires NoRepeats(order) && Real(published)
      requires forall t | t in edges && (u, t) !in Merged(sources) :: (u, t) in Replayed(published)
      modifies this`order, this`published
      ensures NoRepeats(order) && Real(published)
      ensures Replayed(published) == Replayed(old(published)) - Lost(u, edges, Merged(sources))
      ensures forall v :: v in order <==>
        v in old(order) && !(v == u && !Connected(Merged(sources), u) && Lost(u, edges, Merged(sources)) != {})
      ensures old(published) <= published
      ensures forall i | |old(published)| <= i < |published| ::
        published[i].Detached? && published[i].udid == u && published[i].transport in edges
    {
      hide Merged, Real, NoRepeats, NewestStamp, Holds, Lost, Replayed;
      var dropped := false;
      assert edges - edges == {};
      LostNone(u, Merged(sources));
      var todo := edges;
      while todo != {}
        invariant todo <= edges && NoRepeats(order) && Real(published)
        invariant Replayed(published) == Replayed(old(published)) - Lost(u, edges - todo, Merged(sources))
        invariant dropped <==> !Connected(Merged(sources), u) && Lost(u, edges - todo, Merged(sources)) != {}
        invariant forall v :: v in order <==> v in old(order) && !(v == u && dropped)
        invariant old(published) <= published
        invariant forall i | |old(published)| <= i < |published| ::
          published[i].Detached? && published[i].udid == u && published[i].transport in edges
      {
        var t :| t in todo;
        ghost var done := edges - todo;
        todo := todo - {t};
        assert edges - todo == done + {t};
        LostNext(u, done, t, Merged(sources));
        LostOnlyOf(u, done, Merged(sources));
        var held := TransportPresent(u, t);
        if held {
          continue;
        }
        var usb := Newest(u, Usb);
        var wifi := Newest(u, Wifi);
        if usb.None? && wifi.None? && !dropped {
          DropFromOrder(u);
          dropped := true;
        }
        ReplayNext(published, Detached(u, t));
        Emit(Detached(u, t));
      }
      assert edges - todo == edges;
    }

    /** A source went away: every edge only it held is detached, one event each. */
    method Reset(s: Source)
      requires Valid()
      modifies this`sources, this`order, this`published
      ensures Valid() && sources == old(sources) - {s}
      ensures forall i | |old(published)| <= i < |published| ::
        published[i].Detached? && Holds(old(sources), s, published[i].udid, published[i].transport)
      ensures old(published) <= published
    {
      hide Merged, Real, NoRepeats, Replayed;
      ghost var was := sources;
      var prev: map<Udid, map<Transport, Stamp>> := if s in sources then sources[s] else map[];
      sources := sources - {s};
      ghost var m0, m1 := Merged(was), Merged(sources);
      SourceLost(was, s);
      var todo := prev.Keys;
      ghost var done: set<Udid> := {};
      while todo != {}
        invariant done + todo == prev.Keys && done !! todo && sources == was - {s}
        invariant NoRepeats(order) && Real(published)
        invariant Replayed(published) == m0 - LostBy(prev, done, m1)
        invariant forall v :: v in order <==> Connected(m0, v) && !(v in done && !Connected(m1, v) && Lost(v, prev[v].Keys, m1) != {})
        invariant old(published) <= published
        invariant forall i | |old(published)| <= i < |published| ::
          published[i].Detached? && Holds(was, s, published[i].udid, published[i].transport)
      {
        var u :| u in todo;
        forall t | t in prev[u].Keys && (u, t) !in m1 ensures (u, t) in Replayed(published) {
          assert Holds(was, s, u, t);
          MergedExactly(was, u, t);
        }
        DropEdges(u, prev[u].Keys);
        assert LostBy(prev, done + {u}, m1) == LostBy(prev, done, m1) + Lost(u, prev[u].Keys, m1);
        todo := todo - {u};
        done := done + {u};
      }
      assert done == prev.Keys;
      forall x: (Udid, Transport) ensures x in m0 - LostBy(prev, done, m1) <==> x in m1 {
        LostExactly(was, s, prev, x);
      }
      forall v ensures v in order <==> Connected(m1, v) {
        DisconnectedBy(was, s, prev, v);
      }
    }
  }

  /** The transports of one device that nobody in `m` holds. */
  function Lost(u: Udid, edges: set<Transport>, m: set<(Udid, Transport)>): set<(Udid, Transport)> {
    set t | t in edges && (u, t) !in m :: (u, t)
  }

  function LostBy(prev: map<Udid, map<Transport, Stamp>>, done: set<Udid>, m: set<(Udid, Transport)>): set<(Udid, Transport)> {
    set u, t | u in done && u in prev && t in prev[u] && (u, t) !in m :: (u, t)
  }

  lemma LostNone(u: Udid, m: set<(Udid, Transport)>)
    ensures Lost(u, {}, m) == {}
  {
  }

  lemma LostOnlyOf(u: Udid, edges: set<Transport>, m: set<(Udid, Transport)>)
    ensures forall t :: (u, t) in Lost(u, edges, m) ==> t in edges
  {
  }

  lemma LostNext(u: Udid, done: set<Transport>, t: Transport, m: set<(Udid, Transport)>)
    ensures Lost(u, done + {t}, m) == Lost(u, done, m) + if (u, t) in m then {} else {(u, t)}
  {
  }

  lemma SourceLost(table: Table, s: Source)
    ensures Merged(table - {s}) <= Merged(table)
    ensures forall u, t | (u, t) in Merged(table) && (u, t) !in Merged(table - {s}) :: Holds(table, s, u, t)
  {
    forall u, t | (u, t) in Merged(table) && (u, t) !in Merged(table - {s}) ensures Holds(table, s, u, t) {
      MergedExactly(table, u, t);
      MergedExactly(table - {s}, u, t);
      var r :| r in table && Holds(table, r, u, t);
      assert r in table - {s} ==> Holds(table - {s}, r, u, t);
    }
    forall x: (Udid, Transport) | x in Merged(table - {s}) ensures x in Merged(table) {
      MergedExactly(table, x.0, x.1);
      MergedExactly(table - {s}, x.0, x.1);
      var r :| r in table - {s} && Holds(table - {s}, r, x.0, x.1);
      assert Holds(table, r, x.0, x.1);
    }
  }

  lemma LostExactly(table: Table, s: Source, prev: map<Udid, map<Transport, Stamp>>, x: (Udid, Transport))
    requires prev == if s in table then table[s] else map[]
    ensures var m := Merged(table - {s});
      x in Merged(table) - LostBy(prev, prev.Keys, m) <==> x in m
  {
    SourceLost(table, s);
    var m := Merged(table - {s});
    if x in Merged(table) && x !in m {
      assert Holds(table, s, x.0, x.1);
      assert x.0 in prev && x.1 in prev[x.0] && (x.0, x.1) !in m;
    }
  }

  lemma DisconnectedBy(table: Table, s: Source, prev: map<Udid, map<Transport, Stamp>>, v: Udid)
    requires prev == if s in table then table[s] else map[]
    ensures var m := Merged(table - {s});
      Connected(m, v) <==> Connected(Merged(table), v) && !(v in prev && !Connected(m, v) && Lost(v, prev[v].Keys, m) != {})
  {
    SourceLost(table, s);
    var m := Merged(table - {s});
    if Connected(Merged(table), v) && !Connected(m, v) {
      var t := if (v, Usb) in Merged(table) then Usb else Wifi;
      assert Holds(table, s, v, t);
      assert (v, t) in Lost(v, prev[v].Keys, m);
    }
  }

  lemma Removed(order: seq<Udid>, i: nat)
    requires NoRepeats(order) && i < |order|
    ensures var less := order[..i] + order[i + 1..];
      NoRepeats(less) && forall v :: v in less <==> v in order && v != order[i]
  {
    var less := order[..i] + order[i + 1..];
    forall j | 0 <= j < |less| ensures less[j] == if j < i then order[j] else order[j + 1] {}
    forall v | v in order && v != order[i] ensures v in less {
      var j :| 0 <= j < |order| && order[j] == v;
      assert less[if j < i then j else j - 1] == v;
    }
  }

  // ---- what the reads mean ----

  /** The newest stamp any source carries. */
  ghost predicate NewestStamp(table: Table, u: Udid, t: Transport, seen: Stamp) {
    && (exists s :: s in table && Holds(table, s, u, t) && table[s][u][t] == seen)
    && forall s | s in table && Holds(table, s, u, t) :: table[s][u][t] <= seen
  }

  /** The freshest source, ties to the least id. */
  ghost predicate Preferred(table: Table, u: Udid, t: Transport, best: Source) {
    && best in table && Holds(table, best, u, t)
    && forall s | s in table && Holds(table, s, u, t) ::
         table[s][u][t] < table[best][u][t] || (table[s][u][t] == table[best][u][t] && best <= s)
  }

  /** Only one source is preferred, so the answer cannot depend on the order of a walk; and its edge carries
      the very stamp the merged view shows. */
  lemma RoutingIsDetermined(table: Table, u: Udid, t: Transport, a: Source, b: Source, seen: Stamp)
    requires Preferred(table, u, t, a) && Preferred(table, u, t, b) && NewestStamp(table, u, t, seen)
    ensures a == b && table[a][u][t] == seen
  {
  }

  /** Of sources as fresh as each other the least id is taken. */
  lemma TiesGoToTheLeast(table: Table, u: Udid, t: Transport, best: Source, s: Source)
    requires Preferred(table, u, t, best) && StampAt(table, s, u, t) == StampAt(table, best, u, t)
    ensures best <= s
  {
  }

  // ---- over a run of reports ----

  datatype Report =
    | Attach(source: Source, udid: Udid, transport: Transport, now: Stamp)
    | Detach(source: Source, udid: Udid, transport: Transport)
    | Gone(source: Source)

  /** The table after these reports. */
  function Reported(reports: seq<Report>): Table {
    if reports == [] then map[]
    else
      var before := Reported(reports[..|reports| - 1]);
      match reports[|reports| - 1]
      case Attach(s, u, t, now) => WithEdge(before, s, u, t, now)
      case Detach(s, u, t) => WithoutEdge(before, s, u, t)
      case Gone(s) => before - {s}
  }

  /** A report about this edge of this source. */
  predicate About(r: Report, s: Source, u: Udid, t: Transport) {
    r.source == s && (r.Gone? || (r.udid == u && r.transport == t))
  }

  /** Report `k` attached this edge, and nothing was said of it since. */
  predicate Stands(reports: seq<Report>, k: int, s: Source, u: Udid, t: Transport) {
    && 0 <= k < |reports| && reports[k].Attach? && About(reports[k], s, u, t)
    && forall j | k < j < |reports| :: !About(reports[j], s, u, t)
  }

  lemma StandsBefore(reports: seq<Report>, k: int, s: Source, u: Udid, t: Transport)
    requires reports != [] && k < |reports| - 1
    ensures Stands(reports, k, s, u, t)
       <==> Stands(reports[..|reports| - 1], k, s, u, t) && !About(reports[|reports| - 1], s, u, t)
  {
    var rest := reports[..|reports| - 1];
    assert forall j | 0 <= j < |rest| :: rest[j] == reports[j];
    if Stands(reports, k, s, u, t) {
      assert forall j | k < j < |rest| :: !About(rest[j], s, u, t);
    }
    if Stands(rest, k, s, u, t) && !About(reports[|rest|], s, u, t) {
      forall j | k < j < |reports| ensures !About(reports[j], s, u, t) {
        assert j < |rest| ==> !About(rest[j], s, u, t);
      }
    }
  }

  /** Over any run of reports each edge carries the time of its last attach, and is held exactly when one stands. */
  lemma {:induction false} StampsAreLastAttaches(reports: seq<Report>, s: Source, u: Udid, t: Transport)
    ensures var stamp := StampAt(Reported(reports), s, u, t);
      && (stamp.Some? <==> exists k :: Stands(reports, k, s, u, t))
      && forall k | Stands(reports, k, s, u, t) :: stamp == Some(reports[k].now)
  {
    if reports != [] {
      var n := |reports| - 1;
      var rest, last := reports[..n], reports[n];
      StampsAreLastAttaches(rest, s, u, t);
      match last {
        case Attach(r, v, x, now) => EdgeStamped(Reported(rest), r, v, x, now, s, u, t);
        case Detach(r, v, x) => EdgeUnstamped(Reported(rest), r, v, x, s, u, t);
        case Gone(r) => SourceUnstamped(Reported(rest), r, s, u, t);
      }
      hide StampAt, WithEdge, WithoutEdge;
      forall k | k < n
        ensures Stands(reports, k, s, u, t) <==> Stands(rest, k, s, u, t) && !About(last, s, u, t)
        ensures 0 <= k ==> reports[k] == rest[k]
      {
        StandsBefore(reports, k, s, u, t);
      }
      hide Reported;
      if About(last, s, u, t) {
        assert last.Attach? <==> Stands(reports, n, s, u, t);
      } else {
        assert !Stands(reports, n, s, u, t);
        if k :| Stands(rest, k, s, u, t) {
          assert Stands(reports, k, s, u, t);
        }
      }
    }
  }

  lemma SourceUnstamped(table: Table, gone: Source, s: Source, u: Udid, t: Transport)
    ensures StampAt(table - {gone}, s, u, t) == if s == gone then None else StampAt(table, s, u, t)
  {
  }

  predicate Rising(reports: seq<Report>) {
    forall i, j | 0 <= i < j < |reports| && reports[i].Attach? && reports[j].Attach? :: reports[i].now < reports[j].now
  }

  /** With a rising clock the device is routed through the source that attached it last, of those that have not taken
      it back. */
  lemma {:induction false} LastAttachIsRouted(reports: seq<Report>, u: Udid, t: Transport, k: nat, best: Source)
    requires Rising(reports) && k < |reports| && Stands(reports, k, reports[k].source, u, t)
    requires forall j, s | k < j < |reports| :: !Stands(reports, j, s, u, t)
    requires Preferred(Reported(reports), u, t, best)
    ensures best == reports[k].source
  {
    var s := reports[k].source;
    StampsAreLastAttaches(reports, s, u, t);
    StampsAreLastAttaches(reports, best, u, t);
    hide Reported;
    if best != s {
      var i :| Stands(reports, i, best, u, t);
      assert false;
    }
  }
}
