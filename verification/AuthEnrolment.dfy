/** Enrolment secrets: minted for one device, usable once and for ten minutes, and answered for by name for a
    grace window after that.  The table forgets; the answers are those of a history that never does. */
module AuthEnrolment {
  import opened Wrappers

  type Id = nat

  // Seconds.
  const TTL := 600
  const GRACE := 1800

  datatype State = Live | Spent | Revoked

  datatype Secret = Secret(token: string, scope: string, created: int, expires: int, state: State, deadAt: Option<int>)

  datatype Verdict = Usable(id: Id) | Unknown | IsExpired | IsSpent | IsRevoked | WrongDevice | NotFound

  /** When the record may be forgotten. */
  function Dead(r: Secret): int { if r.deadAt.Some? then r.deadAt.value else r.expires + GRACE }

  /** Why the secret cannot be used now, if it cannot. */
  function Unusable(r: Secret, now: int): Option<Verdict> {
    match r.state
    case Spent => Some(IsSpent)
    case Revoked => Some(IsRevoked)
    case Live => if now >= r.expires then Some(IsExpired) else None
  }

  // ---- the reference: every secret ever minted ----

  /** Ids and tokens are never reused, times are as minted, and only ended secrets have an end. */
  ghost predicate Chronicle(h: map<Id, Secret>) {
    && (forall i | i in h :: h[i].token != "" && h[i].expires == h[i].created + TTL)
    && (forall i | i in h :: h[i].deadAt.Some? <==> !h[i].state.Live?)
    && (forall i, j | i in h && j in h && i != j :: h[i].token != h[j].token)
  }

  /** What a token is answered: from its record until the grace window closes, and unknown after it. */
  ghost predicate AnsweredAs(h: map<Id, Secret>, token: string, now: int, v: Verdict) {
    if exists i :: i in h && h[i].token == token && now < Dead(h[i]) then
      exists i :: i in h && h[i].token == token && now < Dead(h[i])
        && v == if Unusable(h[i], now).Some? then Unusable(h[i], now).value else Usable(i)
    else v == Unknown
  }

  lemma AnswersFound(h: map<Id, Secret>, i: Id, now: int)
    requires i in h && now < Dead(h[i])
    ensures AnsweredAs(h, h[i].token, now, if Unusable(h[i], now).Some? then Unusable(h[i], now).value else Usable(i))
  {
  }

  lemma AnswersUnknown(h: map<Id, Secret>, token: string, now: int)
    requires forall i | i in h && now < Dead(h[i]) :: h[i].token != token
    ensures AnsweredAs(h, token, now, Unknown)
  {
  }

  /** One answer only: the record that decides is the token's own. */
  lemma AnswerIsUnique(h: map<Id, Secret>, token: string, now: int, v: Verdict, w: Verdict)
    requires Chronicle(h) && AnsweredAs(h, token, now, v) && AnsweredAs(h, token, now, w)
    ensures v == w
  {
  }

  // ---- what may happen to it ----

  datatype Deed =
    | Minting(scope: string, now: int, token: string, id: Id)
    | Checking(token: string, now: int)
    | Spending(token: string, now: int, later: int)
    | Revoking(udid: string, id: Id, now: int)

  function Ended(r: Secret, state: State, now: int): Secret { r.(state := state, deadAt := Some(now + GRACE)) }

  /** The deed takes the history `h` to `g` and is answered `v`. */
  ghost predicate Does(h: map<Id, Secret>, deed: Deed, v: Verdict, g: map<Id, Secret>) {
    match deed
    case Minting(scope, now, token, id) =>
      if scope == "" then v == NotFound && g == h
      else v == Usable(id) && g == h[id := Secret(token, scope, now, now + TTL, Live, None)]
    case Checking(token, now) => AnsweredAs(h, token, now, v) && g == h
    case Spending(token, now, later) =>
      && AnsweredAs(h, token, now, v)
      && if v.Usable? then v.id in h && h[v.id].token == token && h[v.id].state.Live? && g == h[v.id := Ended(h[v.id], Spent, later)]
         else g == h
    case Revoking(udid, id, now) =>
      if !(id in h && now < Dead(h[id])) then v == NotFound && g == h
      else if h[id].scope != udid then v == WrongDevice && g == h
      else if Unusable(h[id], now).Some? then v == Unusable(h[id], now).value && g == h
      else v == Usable(id) && g == h[id := Ended(h[id], Revoked, now)]
  }

  /** Token and id are unused: both are drawn at random. */
  ghost predicate Fresh(h: map<Id, Secret>, deed: Deed) {
    deed.Minting? ==> deed.token != "" && deed.id !in h && forall i | i in h :: h[i].token != deed.token
  }

  function Public(h: map<Id, Secret>, udid: string, now: int): set<Id> {
    set i | i in h && h[i].scope == udid && Unusable(h[i], now).None?
  }

  predicate Before(h: map<Id, Secret>, i: Id, j: Id)
    requires i in h && j in h
  {
    h[i].created < h[j].created || (h[i].created == h[j].created && i < j)
  }

  predicate InOrder(h: map<Id, Secret>, ids: seq<Id>) {
    && (forall a | 0 <= a < |ids| :: ids[a] in h)
    && (forall a, b | 0 <= a < b < |ids| :: Before(h, ids[a], ids[b]))
  }

  // ---- the table ----

  class Enrolments {
    var table: map<Id, Secret>
    ghost var history: map<Id, Secret>
    ghost var clock: int

    ghost predicate Valid()
      reads this
    {
      && Chronicle(history)
      && (forall i | i in table :: i in history && table[i] == history[i])
      && (forall i | i in history && i !in table :: Dead(history[i]) <= clock)
    }

    constructor ()
      ensures Valid() && table == map[] && history == map[] && clock == 0
    {
      table, history, clock := map[], map[], 0;
    }

    method Sweep(now: int)
      requires Valid() && clock <= now
      modifies this`table, this`clock
      ensures Valid() && clock == now
      ensures forall i | i in history && now < Dead(history[i]) :: i in table
      ensures forall i | i in table :: now < Dead(history[i])
    {
      hide Chronicle, Dead;
      ghost var was := table;
      var todo := table.Keys;
      while todo != {}
        invariant todo <= was.Keys && todo <= table.Keys && table.Keys <= was.Keys && clock == old(clock)
        invariant forall i | i in table :: table[i] == was[i]
        invariant forall i | i in was && i !in todo :: (i in table <==> now < Dead(was[i]))
      {
        var i :| i in todo;
        todo := todo - {i};
        if now >= Dead(table[i]) {
          table := table - {i};
        }
      }
      clock := now;
    }

    /** A new secret for a stated device. */
    method Mint(scope: string, now: int, token: string, id: Id) returns (v: Verdict)
      requires Valid() && clock <= now && Fresh(history, Minting(scope, now, token, id))
      modifies this
      ensures Valid() && clock >= old(clock)
      ensures Does(old(history), Minting(scope, now, token, id), v, history)
    {
      if scope == "" {
        return NotFound;
      }
      Sweep(now);
      var r := Secret(token, scope, now, now + TTL, Live, None);
      table := table[id := r];
      history := history[id := r];
      return Usable(id);
    }

    method Find(token: string, now: int) returns (v: Verdict)
      requires Valid() && clock <= now
      modifies this`table, this`clock
      ensures Valid() && clock == now
      ensures AnsweredAs(history, token, now, v)
      ensures v.Usable? ==> v.id in table && table[v.id].token == token && Unusable(table[v.id], now).None?
    {
      hide Dead, AnsweredAs;
      Sweep(now);
      if token == "" {
        AnswersUnknown(history, token, now);
        return Unknown;
      }
      var todo := table.Keys;
      while todo != {}
        invariant todo <= table.Keys
        invariant forall i | i in table && i !in todo :: table[i].token != token
      {
        var i :| i in todo;
        todo := todo - {i};
        if table[i].token == token {
          AnswersFound(history, i, now);
          var why := Unusable(table[i], now);
          if why.Some? {
            return why.value;
          }
          return Usable(i);
        }
      }
      AnswersUnknown(history, token, now);
      return Unknown;
    }

    /** Looking changes no answer: the history is not in the frame. */
    method Check(token: string, now: int) returns (v: Verdict)
      requires Valid() && clock <= now
      modifies this`table, this`clock
      ensures Valid() && clock == now && AnsweredAs(history, token, now, v)
    {
      v := Find(token, now);
    }

    /** The one use.  `later` is the second reading of the clock. */
    method Spend(token: string, now: int, later: int) returns (v: Verdict)
      requires Valid() && clock <= now <= later
      modifies this
      ensures Valid() && clock == later
      ensures Does(old(history), Spending(token, now, later), v, history)
    {
      hide AnsweredAs, Chronicle, Dead, Later;
      v := Find(token, now);
      clock := later;
      if v.Usable? {
        EndingGoesOn(history, v.id, Spent, later);
        var r := table[v.id].(state := Spent, deadAt := Some(later + GRACE));
        table := table[v.id := r];
        history := history[v.id := r];
      }
    }

    method Revoke(udid: string, id: Id, now: int) returns (v: Verdict)
      requires Valid() && clock <= now
      modifies this
      ensures Valid() && clock == now
      ensures Does(old(history), Revoking(udid, id, now), v, history)
    {
      hide Chronicle, AnsweredAs, Dead, Later;
      Sweep(now);
      if id !in table {
        return NotFound;
      }
      if table[id].scope != udid {
        return WrongDevice;
      }
      var why := Unusable(table[id], now);
      if why.Some? {
        return why.value;
      }
      EndingGoesOn(history, id, Revoked, now);
      var r := table[id].(state := Revoked, deadAt := Some(now + GRACE));
      table := table[id := r];
      history := history[id := r];
      return Usable(id);
    }

    /** Exactly the device's usable secrets, oldest first. */
    method List(udid: string, now: int) returns (ids: seq<Id>)
      requires Valid() && clock <= now
      modifies this`table, this`clock
      ensures Valid() && clock == now
      ensures InOrder(history, ids)
      ensures forall i :: i in ids <==> i in history && history[i].scope == udid && history[i].state.Live? && now < history[i].expires
      ensures forall a, b | 0 <= a < b < |ids| ::
        history[ids[a]].created < history[ids[b]].created
        || (history[ids[a]].created == history[ids[b]].created && ids[a] < ids[b])
    {
      Sweep(now);
      ids := [];
      var todo := table.Keys;
      while todo != {}
        invariant todo <= table.Keys
        invariant InOrder(table, ids)
        invariant forall i :: i in ids <==> i in Public(table, udid, now) && i !in todo
      {
        var i :| i in todo;
        todo := todo - {i};
        if table[i].scope == udid && Unusable(table[i], now).None? {
          ids := Insert(table, ids, i);
        }
      }
      forall i ensures i in Public(table, udid, now) <==> i in Public(history, udid, now) {
        if i in history && i !in table {
          assert Dead(history[i]) <= now;
        }
      }
      forall a | 0 <= a < |ids| ensures ids[a] in history && table[ids[a]] == history[ids[a]] {
        assert ids[a] in table;
      }
    }
  }

  /** Keeps a list of ids in (created, id) order. */
  function Insert(h: map<Id, Secret>, ids: seq<Id>, i: Id): (r: seq<Id>)
    requires InOrder(h, ids) && i in h && i !in ids
    ensures forall j :: j in r <==> j in ids || j == i
    ensures InOrder(h, r)
  {
    if ids == [] then [i]
    else if Before(h, i, ids[0]) then [i] + ids
    else
      var rest := Insert(h, ids[1..], i);
      InsertAfter(h, ids[0], ids[1..], rest, i);
      [ids[0]] + rest
  }

  lemma InsertAfter(h: map<Id, Secret>, first: Id, tail: seq<Id>, rest: seq<Id>, i: Id)
    requires first in h && InOrder(h, [first] + tail) && InOrder(h, rest) && i in h && i !in [first] + tail && !Before(h, i, first)
    requires forall j :: j in rest <==> j in tail || j == i
    ensures InOrder(h, [first] + rest)
    ensures forall j :: j in [first] + rest <==> j in [first] + tail || j == i
  {
    var all := [first] + tail;
    assert all[0] == first;
    assert first != i by {
      assert first in all;
    }
    forall b | 0 <= b < |rest| ensures Before(h, first, rest[b]) {
      assert rest[b] in rest;
      if rest[b] != i {
        var c :| 0 <= c < |tail| && tail[c] == rest[b];
        assert all[c + 1] == tail[c];
      }
    }
    var r := [first] + rest;
    forall a, b | 0 <= a < b < |r| ensures Before(h, r[a], r[b]) {
      if a > 0 {
        assert r[a] == rest[a - 1] && r[b] == rest[b - 1];
      } else {
        assert r[b] == rest[b - 1];
      }
    }
    forall j ensures j in r <==> j in all || j == i {
      assert j in r <==> j == first || j in rest;
      assert j in all <==> j == first || j in tail;
    }
  }

  // ---- what each deed answers ----

  /** A spend or a check answers usable exactly for the token of a secret that nobody ended and that has not expired; a
      revocation goes through exactly for such a secret of that device; a secret is minted exactly for a device; and
      nothing else changes the history. */
  lemma DeedsAnswerExactly(h: map<Id, Secret>, deed: Deed, v: Verdict, g: map<Id, Secret>)
    requires Chronicle(h) && Fresh(h, deed) && Does(h, deed, v, g)
    ensures deed.Spending? || deed.Checking? ==>
      forall i :: v == Usable(i) <==> i in h && h[i].token == deed.token && h[i].state.Live? && deed.now < h[i].expires
    ensures deed.Revoking? ==>
      && (v.Usable? <==> deed.id in h && h[deed.id].scope == deed.udid && h[deed.id].state.Live? && deed.now < h[deed.id].expires)
      && (v == WrongDevice <==> deed.id in h && deed.now < Dead(h[deed.id]) && h[deed.id].scope != deed.udid)
      && (v == NotFound <==> deed.id !in h || deed.now >= Dead(h[deed.id]))
    ensures deed.Minting? ==> (v.Usable? <==> deed.scope != "")
    ensures g != h ==> v.Usable? && !deed.Checking?
  {
    if deed.Spending? || deed.Checking? {
      forall i ensures v == Usable(i) <==> i in h && h[i].token == deed.token && h[i].state.Live? && deed.now < h[i].expires {
        UsableExactly(h, deed.token, deed.now, v, i);
      }
    }
    hide AnsweredAs;
  }

  lemma UsableExactly(h: map<Id, Secret>, token: string, now: int, v: Verdict, i: Id)
    requires Chronicle(h) && AnsweredAs(h, token, now, v)
    ensures v == Usable(i) <==> i in h && h[i].token == token && h[i].state.Live? && now < h[i].expires
  {
    if i in h && h[i].token == token && h[i].state.Live? && now < h[i].expires {
      AnswersFound(h, i, now);
      AnswerIsUnique(h, token, now, v, Usable(i));
    }
  }

  // ---- over a history ----

  /** Nothing minted is lost, and what has ended stays as it ended. */
  predicate Later(h: map<Id, Secret>, g: map<Id, Secret>) {
    forall i | i in h :: i in g && g[i].token == h[i].token && g[i].scope == h[i].scope && g[i].expires == h[i].expires
      && (!h[i].state.Live? ==> g[i] == h[i])
  }

  lemma EndingGoesOn(h: map<Id, Secret>, i: Id, state: State, now: int)
    requires Chronicle(h) && i in h && h[i].state.Live? && !state.Live?
    ensures Chronicle(h[i := Ended(h[i], state, now)]) && Later(h, h[i := Ended(h[i], state, now)])
  {
  }

  lemma MintingGoesOn(h: map<Id, Secret>, deed: Deed)
    requires Chronicle(h) && Fresh(h, deed) && deed.Minting?
    ensures var g := h[deed.id := Secret(deed.token, deed.scope, deed.now, deed.now + TTL, Live, None)];
      Chronicle(g) && Later(h, g)
  {
  }

  /** Whatever is done, the history goes on as one. */
  lemma DeedsGoOn(h: map<Id, Secret>, deed: Deed, v: Verdict, g: map<Id, Secret>)
    requires Chronicle(h) && Fresh(h, deed) && Does(h, deed, v, g)
    ensures Chronicle(g) && Later(h, g)
  {
    hide AnsweredAs, Chronicle, Later, Fresh, Ended;
    LaterItself(h);
    match deed {
      case Minting(_, _, _, _) => MintingGoesOn(h, deed);
      case Checking(_, _) =>
      case Spending(_, _, later) => if v.Usable? { EndingGoesOn(h, v.id, Spent, later); }
      case Revoking(_, id, now) => if v.Usable? && id in h && h[id].state.Live? { EndingGoesOn(h, id, Revoked, now); }
    }
  }

  lemma LaterOn(f: map<Id, Secret>, g: map<Id, Secret>, h: map<Id, Secret>)
    requires Later(f, g) && Later(g, h)
    ensures Later(f, h)
  {
  }

  /** A run of deeds: the histories before and after each, and the answers. */
  ghost predicate Lives(hs: seq<map<Id, Secret>>, deeds: seq<Deed>, vs: seq<Verdict>) {
    && |hs| == |deeds| + 1 && |vs| == |deeds| && hs[0] == map[]
    && forall k | 0 <= k < |deeds| :: Fresh(hs[k], deeds[k]) && Does(hs[k], deeds[k], vs[k], hs[k + 1])
  }

  lemma {:induction false} LivesLater(hs: seq<map<Id, Secret>>, deeds: seq<Deed>, vs: seq<Verdict>, i: nat, j: nat)
    requires Lives(hs, deeds, vs) && i <= j <= |deeds|
    ensures Chronicle(hs[j]) && Chronicle(hs[i]) && Later(hs[i], hs[j])
    decreases j
  {
    hide Chronicle, Later, Does, Fresh;
    if j == 0 {
      Nothing();
    } else if i < j {
      LivesLater(hs, deeds, vs, i, j - 1);
      DeedsGoOn(hs[j - 1], deeds[j - 1], vs[j - 1], hs[j]);
      LaterOn(hs[i], hs[j - 1], hs[j]);
    } else {
      LivesLater(hs, deeds, vs, j - 1, j - 1);
      DeedsGoOn(hs[j - 1], deeds[j - 1], vs[j - 1], hs[j]);
      LaterItself(hs[j]);
    }
  }

  lemma Nothing()
    ensures Chronicle(map[]) && Later(map[], map[])
  {
  }

  lemma LaterItself(h: map<Id, Secret>)
    ensures Later(h, h)
  {
  }

  /** Once a token has been spent, every later look at it is answered from that spend: spent until the grace
      closes, then unknown; whatever was minted, spent or revoked in between. */
  lemma SpentForGood(hs: seq<map<Id, Secret>>, deeds: seq<Deed>, vs: seq<Verdict>, i: nat, j: nat)
    requires Lives(hs, deeds, vs) && i < j < |deeds|
    requires deeds[i].Spending? && vs[i].Usable?
    requires (deeds[j].Spending? || deeds[j].Checking?) && deeds[j].token == deeds[i].token
    ensures vs[j] == if deeds[j].now < deeds[i].later + GRACE then IsSpent else Unknown
  {
    hide Chronicle, Later, Fresh, Does, AnsweredAs;
    LivesLater(hs, deeds, vs, i + 1, j);
    Answered(hs[j], deeds[j], vs[j], hs[j + 1]);
    SpendingEnds(hs[i], deeds[i], vs[i], hs[i + 1]);
    EndedAnswers(hs[i + 1], hs[j], vs[i].id, deeds[j].now, vs[j]);
  }

  lemma Answered(h: map<Id, Secret>, deed: Deed, v: Verdict, g: map<Id, Secret>)
    requires Does(h, deed, v, g) && (deed.Spending? || deed.Checking?)
    ensures AnsweredAs(h, deed.token, deed.now, v)
  {
  }

  /** A record that has ended is what every later look at its token is answered from. */
  lemma EndedAnswers(g: map<Id, Secret>, h: map<Id, Secret>, i: Id, now: int, w: Verdict)
    requires Chronicle(h) && Later(g, h) && i in g && !g[i].state.Live? && AnsweredAs(h, g[i].token, now, w)
    ensures w == if now < Dead(g[i]) then (if g[i].state.Spent? then IsSpent else IsRevoked) else Unknown
  {
    assert h[i] == g[i];
    AnswerIsUnique(h, g[i].token, now, w,
      if now < Dead(g[i]) then (if g[i].state.Spent? then IsSpent else IsRevoked) else Unknown);
  }

  /** And a revoked secret likewise: revoked until the grace closes, then unknown. */
  lemma RevokedForGood(hs: seq<map<Id, Secret>>, deeds: seq<Deed>, vs: seq<Verdict>, i: nat, j: nat)
    requires Lives(hs, deeds, vs) && i < j < |deeds|
    requires deeds[i].Revoking? && vs[i].Usable? && deeds[i].id in hs[i]
    requires (deeds[j].Spending? || deeds[j].Checking?) && deeds[j].token == hs[i][deeds[i].id].token
    ensures vs[j] == if deeds[j].now < deeds[i].now + GRACE then IsRevoked else Unknown
  {
    hide Chronicle, Later, Fresh, Does, AnsweredAs;
    LivesLater(hs, deeds, vs, i + 1, j);
    Answered(hs[j], deeds[j], vs[j], hs[j + 1]);
    RevokingEnds(hs[i], deeds[i], vs[i], hs[i + 1]);
    EndedAnswers(hs[i + 1], hs[j], deeds[i].id, deeds[j].now, vs[j]);
  }

  lemma RevokingEnds(h: map<Id, Secret>, deed: Deed, v: Verdict, g: map<Id, Secret>)
    requires deed.Revoking? && v.Usable? && Does(h, deed, v, g)
    ensures deed.id in h && v == Usable(deed.id) && deed.id in g && g[deed.id] == Ended(h[deed.id], Revoked, deed.now)
  {
  }

  lemma SpendingEnds(h: map<Id, Secret>, deed: Deed, v: Verdict, g: map<Id, Secret>)
    requires deed.Spending? && v.Usable? && Does(h, deed, v, g)
    ensures v.id in h && h[v.id].token == deed.token && v.id in g && g[v.id] == Ended(h[v.id], Spent, deed.later)
  {
    hide AnsweredAs;
  }

  /** Over any run, at most one spend of a token succeeds. */
  lemma SpentOnce(hs: seq<map<Id, Secret>>, deeds: seq<Deed>, vs: seq<Verdict>, i: nat, j: nat)
    requires Lives(hs, deeds, vs) && i < |deeds| && j < |deeds|
    requires deeds[i].Spending? && vs[i].Usable? && deeds[j].Spending? && vs[j].Usable?
    requires deeds[i].token == deeds[j].token || vs[i] == vs[j]
    ensures i == j
  {
    if i != j {
      var a, b := if i < j then i else j, if i < j then j else i;
      hide Later, Fresh, Chronicle;
      LivesLater(hs, deeds, vs, a, b);
      assert deeds[a].token == deeds[b].token by {
        if vs[a] == vs[b] {
          SameRecord(hs[a], hs[b], deeds[a], vs[a], hs[a + 1], deeds[b], hs[b + 1]);
        }
      }
      SpentForGood(hs, deeds, vs, a, b);
    }
  }

  lemma SameRecord(f: map<Id, Secret>, h: map<Id, Secret>, one: Deed, v: Verdict, g: map<Id, Secret>, two: Deed, k: map<Id, Secret>)
    requires one.Spending? && two.Spending? && v.Usable? && Does(f, one, v, g) && Does(h, two, v, k) && Later(f, h)
    ensures one.token == two.token
  {
  }

  /** The deed leaves this record alone. */
  lemma RecordKept(h: map<Id, Secret>, deed: Deed, v: Verdict, g: map<Id, Secret>, i: Id)
    requires Does(h, deed, v, g) && Fresh(h, deed) && i in h && (v == Usable(i) ==> deed.Checking?)
    ensures i in g && g[i] == h[i]
  {
    hide AnsweredAs;
  }

  /** Nobody spends or revokes `i` between these deeds. */
  predicate Untouched(deeds: seq<Deed>, vs: seq<Verdict>, i: Id, lo: nat, hi: nat)
    requires lo <= hi <= |deeds| == |vs|
  {
    forall k | lo <= k < hi && vs[k] == Usable(i) :: deeds[k].Checking?
  }

  lemma {:induction false} UntouchedRecord(hs: seq<map<Id, Secret>>, deeds: seq<Deed>, vs: seq<Verdict>, i: Id, lo: nat, hi: nat)
    requires Lives(hs, deeds, vs) && lo <= hi <= |deeds| && i in hs[lo] && Untouched(deeds, vs, i, lo, hi)
    ensures i in hs[hi] && hs[hi][i] == hs[lo][i]
    decreases hi
  {
    hide Does, Fresh;
    if lo < hi {
      UntouchedRecord(hs, deeds, vs, i, lo, hi - 1);
      RecordKept(hs[hi - 1], deeds[hi - 1], vs[hi - 1], hs[hi], i);
    }
  }

  lemma LiveAnswers(h: map<Id, Secret>, i: Id, now: int, v: Verdict)
    requires Chronicle(h) && i in h && h[i].state.Live? && AnsweredAs(h, h[i].token, now, v)
    ensures v == if now < h[i].expires then Usable(i) else if now < h[i].expires + GRACE then IsExpired else Unknown
  {
    if v.Usable? {
      assert v.id in h;
    }
  }

  lemma MintingMakes(h: map<Id, Secret>, deed: Deed, v: Verdict, g: map<Id, Secret>)
    requires deed.Minting? && v.Usable? && Does(h, deed, v, g)
    ensures deed.id in g && g[deed.id] == Secret(deed.token, deed.scope, deed.now, deed.now + TTL, Live, None)
  {
  }

  /** The life of a secret from its minting, over any run of deeds in which nobody spends or revokes it: usable for its
      ten minutes, expired until the grace closes, then unknown. */
  lemma UntouchedLife(hs: seq<map<Id, Secret>>, deeds: seq<Deed>, vs: seq<Verdict>, i: nat, j: nat)
    requires Lives(hs, deeds, vs) && i < j < |deeds| && deeds[i].Minting? && vs[i].Usable?
    requires Untouched(deeds, vs, deeds[i].id, i + 1, j)
    requires (deeds[j].Spending? || deeds[j].Checking?) && deeds[j].token == deeds[i].token
    ensures vs[j] == if deeds[j].now < deeds[i].now + TTL then Usable(deeds[i].id)
                     else if deeds[j].now < deeds[i].now + TTL + GRACE then IsExpired else Unknown
  {
    hide Chronicle, Later, Fresh, Does, AnsweredAs;
    MintingMakes(hs[i], deeds[i], vs[i], hs[i + 1]);
    UntouchedRecord(hs, deeds, vs, deeds[i].id, i + 1, j);
    LivesLater(hs, deeds, vs, j, j);
    Answered(hs[j], deeds[j], vs[j], hs[j + 1]);
    LiveAnswers(hs[j], deeds[i].id, deeds[j].now, vs[j]);
  }
}
