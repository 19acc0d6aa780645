/** Concurrent finishes of one enrolment: each call checks the secret, registers a credential, spends the
    secret and mints a session, and the four happen at different moments. */
module AuthEnrolmentRace {
  import opened Wrappers
  import opened AuthCredentials
  import Admin = AuthSafety
  import opened AuthEnrolment

  type CallId = nat

  /** What a call was made with: the secret it presented, the device that is for, the ceremony key and the address.
      `None` is a key under which no ceremony was ever begun. */
  datatype Request = Request(secret: Id, udid: string, key: Option<Token>, rpId: RpId)

  /** Where one call is. */
  datatype Call = Checked(request: Request) | Registered(secret: Id, cred: CredId) | Spender(secret: Id, cred: CredId) | Over

  /** What a call left behind. */
  datatype Made = Made(secret: Id, cred: CredId, scope: Scope)

  datatype Session = Session(secret: Id, cred: CredId)

  /** `secrets` is the history of the enrolment table; `made` and `minted` record every credential and every
      session these calls produced; `clock` is the latest reading anybody took. */
  datatype World = World(
    install: Install, secrets: map<Id, Secret>, calls: map<CallId, Call>, made: seq<Made>, minted: seq<Session>, clock: int)

  /** `Elsewhere` is anything else the auth service does meanwhile: other ceremonies begun and finished, credentials
      removed, passwords changed. */
  datatype Event =
    | MintSecret(id: Id, secret: Secret)
    | RevokeSecret(id: Id, now: int)
    | CheckIn(call: CallId, id: Id, key: Option<Token>, rpId: RpId, now: int)
    | RegisterCred(call: CallId, cred: CredId, now: int)
    | SpendSecret(call: CallId, now: int)
    | MintSession(call: CallId)
    | Elsewhere(now: int, op: Admin.Op)

  predicate Usable(w: World, id: Id, now: int) { id in w.secrets && Unusable(w.secrets[id], now).None? }

  /** A key is drawn at random when its ceremony begins, so nobody presents it before. */
  predicate Enabled(w: World, e: Event) {
    match e
    case MintSecret(id, secret) => id !in w.secrets && secret.state.Live?
    case RevokeSecret(id, now) => w.clock <= now && Usable(w, id, now)
    case CheckIn(call, id, key, _, now) =>
      w.clock <= now && call !in w.calls && Usable(w, id, now) && (key.Some? ==> key.value < w.install.nextToken)
    case RegisterCred(call, _, now) => w.clock <= now && call in w.calls && w.calls[call].Checked?
    case SpendSecret(call, now) => w.clock <= now && call in w.calls && w.calls[call].Registered?
    case MintSession(call) => call in w.calls && w.calls[call].Spender?
    case Elsewhere(now, op) => w.clock <= now && (op.Register? ==> op.scope.Admin?)
  }

  /** Registration takes the ceremony, which must be for this very device. */
  function Register(w: World, call: CallId, cred: CredId, now: int): World
    requires call in w.calls && w.calls[call].Checked?
  {
    var c := w.calls[call].request;
    var (install, answer) :=
      if c.key.None? then (w.install, NoChallenge)
      else FinishRegistration(w.install, now, c.key.value, c.rpId, Device(c.udid), cred);
    if answer != Done then w.(install := install, calls := w.calls[call := Over], clock := now)
    else w.(install := install, calls := w.calls[call := Registered(c.secret, cred)], clock := now,
            made := w.made + [Made(c.secret, cred, install.passkeys[|install.passkeys| - 1].scope)])
  }

  function Next(w: World, e: Event): World
    requires Enabled(w, e)
  {
    match e
    case MintSecret(id, secret) => w.(secrets := w.secrets[id := secret])
    case RevokeSecret(id, now) => w.(secrets := w.secrets[id := Ended(w.secrets[id], Revoked, now)], clock := now)
    case CheckIn(call, id, key, rpId, now) =>
      w.(calls := w.calls[call := Checked(Request(id, w.secrets[id].scope, key, rpId))], clock := now)
    case RegisterCred(call, cred, now) => Register(w, call, cred, now)
    case SpendSecret(call, now) =>
      var c := w.calls[call];
      if Usable(w, c.secret, now) then
        w.(secrets := w.secrets[c.secret := Ended(w.secrets[c.secret], Spent, now)],
           calls := w.calls[call := Spender(c.secret, c.cred)], clock := now)
      else w.(calls := w.calls[call := Over], clock := now)
    case MintSession(call) =>
      var c := w.calls[call];
      w.(calls := w.calls[call := Over], minted := w.minted + [Session(c.secret, c.cred)])
    case Elsewhere(now, op) => w.(install := Admin.Apply(w.install, now, op).0, clock := now)
  }

  /** An empty table beside any install. */
  function Empty(install: Install, clock: int): World { World(install, map[], map[], [], [], clock) }

  predicate Runs(w: World, events: seq<Event>)
    decreases |events|
  {
    events == [] || (Enabled(w, events[0]) && Runs(Next(w, events[0]), events[1..]))
  }

  function After(w: World, events: seq<Event>): World
    requires Runs(w, events)
    decreases |events|
  {
    if events == [] then w else After(Next(w, events[0]), events[1..])
  }

  // ---- the invariant ----

  predicate MadeFor(w: World, secret: Id, cred: CredId) {
    secret in w.secrets && Made(secret, cred, Device(w.secrets[secret].scope)) in w.made
  }

  predicate CallOk(w: World, c: Call) {
    match c
    case Checked(r) => r.secret in w.secrets && w.secrets[r.secret].scope == r.udid
    case Registered(secret, cred) => MadeFor(w, secret, cred)
    case Spender(secret, cred) => MadeFor(w, secret, cred) && w.secrets[secret].state.Spent?
    case Over => true
  }

  predicate Good(w: World) {
    && (forall c | c in w.calls :: CallOk(w, w.calls[c]))
    && (forall m | m in w.made :: m.secret in w.secrets && m.scope == Device(w.secrets[m.secret].scope))
    && (forall i | 0 <= i < |w.minted| :: MadeFor(w, w.minted[i].secret, w.minted[i].cred) && w.secrets[w.minted[i].secret].state.Spent?)
    && (forall i, j | 0 <= i < j < |w.minted| :: w.minted[i].secret != w.minted[j].secret)
    && (forall c, d | c in w.calls && d in w.calls && c != d && w.calls[c].Spender? && w.calls[d].Spender? ::
          w.calls[c].secret != w.calls[d].secret)
    && (forall c, i | c in w.calls && w.calls[c].Spender? && 0 <= i < |w.minted| :: w.calls[c].secret != w.minted[i].secret)
    && (forall s | s in w.secrets && w.secrets[s].state.Spent? :: exists m :: m in w.made && m.secret == s)
  }

  /** What registering leaves: the call is over, or one credential confined to its device was made. */
  lemma RegisterMakes(w: World, e: Event)
    requires Enabled(w, e) && e.RegisterCred?
    ensures e.call in w.calls && w.calls[e.call].Checked?
    ensures var v, c := Next(w, e), w.calls[e.call].request;
      && v.secrets == w.secrets && v.minted == w.minted && v.clock == e.now
      && (if v.made == w.made then v.calls == w.calls[e.call := Over]
          else v.made == w.made + [Made(c.secret, e.cred, Device(c.udid))] && v.calls == w.calls[e.call := Registered(c.secret, e.cred)])
  {
  }

  lemma RegisterGood(w: World, e: Event)
    requires Good(w) && Enabled(w, e) && e.RegisterCred?
    ensures Good(Next(w, e))
  {
    hide Next, Enabled;
    RegisterMakes(w, e);
    var v := Next(w, e);
    assert CallOk(w, w.calls[e.call]);
    forall d | d in v.calls ensures CallOk(v, v.calls[d]) {
      if d != e.call {
        assert CallOk(w, w.calls[d]);
      }
    }
    forall s | s in v.secrets && v.secrets[s].state.Spent? ensures exists m :: m in v.made && m.secret == s {
      var m :| m in w.made && m.secret == s;
      assert m in v.made;
    }
  }

  lemma SpendGood(w: World, e: Event)
    requires Good(w) && Enabled(w, e) && e.SpendSecret?
    ensures Good(Next(w, e))
  {
    var c := w.calls[e.call];
    var v := Next(w, e);
    assert CallOk(w, c);
    forall d | d in v.calls ensures CallOk(v, v.calls[d]) {
      assert CallOk(w, w.calls[d]);
    }
    forall d | d in w.calls && w.calls[d].Spender? && Usable(w, c.secret, e.now) ensures w.calls[d].secret != c.secret {
      assert CallOk(w, w.calls[d]);
    }
    forall s | s in v.secrets && v.secrets[s].state.Spent? ensures exists m :: m in v.made && m.secret == s {
      if s == c.secret {
        assert Made(c.secret, c.cred, Device(w.secrets[c.secret].scope)) in v.made;
      }
    }
  }

  lemma MintSessionGood(w: World, e: Event)
    requires Good(w) && Enabled(w, e) && e.MintSession?
    ensures Good(Next(w, e))
  {
    var v := Next(w, e);
    assert CallOk(w, w.calls[e.call]);
    forall d | d in v.calls ensures CallOk(v, v.calls[d]) {
      assert CallOk(w, w.calls[d]);
    }
  }

  lemma OtherGood(w: World, e: Event)
    requires Good(w) && Enabled(w, e) && (e.MintSecret? || e.RevokeSecret? || e.CheckIn? || e.Elsewhere?)
    ensures Good(Next(w, e))
  {
    var v := Next(w, e);
    forall d | d in v.calls ensures CallOk(v, v.calls[d]) {
      if d in w.calls {
        assert CallOk(w, w.calls[d]);
      }
    }
  }

  lemma NextGood(w: World, e: Event)
    requires Good(w) && Enabled(w, e)
    ensures Good(Next(w, e))
  {
    hide Good, Next, Enabled;
    match e {
      case RegisterCred(_, _, _) => RegisterGood(w, e);
      case SpendSecret(_, _) => SpendGood(w, e);
      case MintSession(_) => MintSessionGood(w, e);
      case _ => OtherGood(w, e);
    }
  }

  lemma {:induction false} ReachableGood(w: World, events: seq<Event>)
    requires Good(w) && Runs(w, events)
    ensures Good(After(w, events))
    decreases |events|
  {
    hide Good, Next, Enabled;
    if events != [] {
      NextGood(w, events[0]);
      ReachableGood(Next(w, events[0]), events[1..]);
    }
  }

  /** However the calls interleave: one secret yields at most one session, every credential made is confined to
      the secret's own device, and a secret is spent only if a credential was made for it. */
  lemma {:induction false} OneSecretOneSession(install: Install, clock: int, events: seq<Event>)
    requires Runs(Empty(install, clock), events)
    ensures var w := After(Empty(install, clock), events);
      && (forall i, j | 0 <= i < |w.minted| && 0 <= j < |w.minted| && w.minted[i].secret == w.minted[j].secret :: i == j)
      && (forall m | m in w.made :: m.secret in w.secrets && m.scope == Device(w.secrets[m.secret].scope))
      && (forall s | s in w.secrets && w.secrets[s].state.Spent? :: exists m :: m in w.made && m.secret == s)
      && (forall i | 0 <= i < |w.minted| ::
            w.minted[i].secret in w.secrets && w.secrets[w.minted[i].secret].state.Spent?
            && exists m :: m in w.made && m.secret == w.minted[i].secret && m.cred == w.minted[i].cred)
  {
    ReachableGood(Empty(install, clock), events);
    var w := After(Empty(install, clock), events);
    hide After, Runs;
    forall i | 0 <= i < |w.minted|
      ensures exists m :: m in w.made && m.secret == w.minted[i].secret && m.cred == w.minted[i].cred
    {
      var s := w.minted[i];
      assert Made(s.secret, s.cred, Device(w.secrets[s.secret].scope)) in w.made;
    }
  }

  // ---- keys ----

  /** Keys are numbers drawn in turn: no pending ceremony, and no call, has one that is still to be drawn. */
  predicate Numbered(s: Install) { forall k | k in s.registrations :: k < s.nextToken }

  predicate KeysDrawn(w: World) {
    && Numbered(w.install)
    && forall c | c in w.calls && w.calls[c].Checked? && w.calls[c].request.key.Some? :: w.calls[c].request.key.value < w.install.nextToken
  }

  /** No operation changes a pending registration, or begins one under a key already drawn. */
  predicate OnlyNewKeys(s: Install, t: Install) {
    && s.nextToken <= t.nextToken
    && forall k | k in t.registrations && k < s.nextToken :: k in s.registrations && t.registrations[k] == s.registrations[k]
  }

  lemma PresentDrawsNone(s: Install, now: int, pres: Presented, op: ProofOp, target: CredId, session: SessionId, admitted: bool)
    ensures var t := RequirePresent(s, now, pres, op, target, session, admitted).s;
      t.registrations == s.registrations && t.nextToken == s.nextToken
  {
  }

  lemma RegistrationDraws(s: Install, now: int, rpId: RpId, scope: Scope)
    requires Numbered(s)
    ensures var t := PutRegistration(s, now, rpId, scope).0; Numbered(t) && OnlyNewKeys(s, t)
  {
  }

  lemma FinishDrawsNone(s: Install, now: int, key: Token, rpId: RpId, scope: Scope, id: CredId)
    ensures var t := FinishRegistration(s, now, key, rpId, scope, id).0;
      t.registrations == s.registrations - {key} && t.nextToken == s.nextToken
  {
  }

  lemma RemovalDrawsNone(s: Install, now: int, op: Admin.Op)
    requires op.RemovePw? || op.RemoveKey? || op.ChangePw?
    ensures var t := Admin.Apply(s, now, op).0; t.registrations == s.registrations && t.nextToken == s.nextToken
  {
    hide RequirePresent, Accepts, Configured, PasskeyRemovalRefusal, PasswordRemovalRefusal, Without, EndSessions;
    match op {
      case RemovePw(pres, _, session, a) => PresentDrawsNone(s, now, pres, OpRemovePassword, "", session, a);
      case RemoveKey(pres, target, _, session, a) => PresentDrawsNone(s, now, pres, OpRemovePasskey, target, session, a);
      case ChangePw(pres, _, session, _, b) => PresentDrawsNone(s, now, pres, OpSetPassword, "", session, b);
    }
  }

  lemma OtherOpsDraw(s: Install, now: int, op: Admin.Op)
    requires Numbered(s) && (op.SetPw? || op.Begin? || op.Finish? || op.Login?)
    ensures Numbered(Admin.Apply(s, now, op).0) && OnlyNewKeys(s, Admin.Apply(s, now, op).0)
  {
    hide Provable, Configured, Asserts, ProversOf;
  }

  lemma ElsewhereDraws(s: Install, now: int, op: Admin.Op)
    requires Numbered(s)
    ensures Numbered(Admin.Apply(s, now, op).0) && OnlyNewKeys(s, Admin.Apply(s, now, op).0)
  {
    hide RequirePresent, Configured, PutRegistration, FinishRegistration, RemovePassword, RemovePasskey, ChangePassword,
         SetPassword, BeginReauth, FinishReauth;
    match op {
      case BeginAdd(pres, rpId, session, a) =>
        PresentDrawsNone(s, now, pres, OpAddPasskey, "", session, a);
        RegistrationDraws(RequirePresent(s, now, pres, OpAddPasskey, "", session, a).s, now, rpId, Scope.Admin);
      case BeginFirst(rpId, _) => RegistrationDraws(s, now, rpId, Scope.Admin);
      case BeginDevice(rpId, udid) => RegistrationDraws(s, now, rpId, Device(udid));
      case FinishFirst(key, rpId, id, _) => FinishDrawsNone(s, now, key, rpId, Scope.Admin, id);
      case Register(key, rpId, scope, id) => FinishDrawsNone(s, now, key, rpId, scope, id);
      case RemovePw(_, _, _, _) => RemovalDrawsNone(s, now, op);
      case RemoveKey(_, _, _, _, _) => RemovalDrawsNone(s, now, op);
      case ChangePw(_, _, _, _, _) => RemovalDrawsNone(s, now, op);
      case _ => OtherOpsDraw(s, now, op);
    }
  }

  // ---- one secret, one credential: exactly when ----

  predicate Entry(w: World, i: int, x: Id) { 0 <= i < |w.made| && w.made[i].secret == x }

  predicate Waiting(w: World, c: CallId, x: Id) { c in w.calls && w.calls[c].Checked? && w.calls[c].request.secret == x }

  /** The ceremony this request names is pending, unexpired, and for its address and device. */
  predicate Pending(s: Install, r: Request, now: int) {
    r.key.Some? && r.key.value in s.registrations
    && var g := s.registrations[r.key.value]; g.rpId == r.rpId && g.scope == Device(r.udid) && now <= g.expires
  }

  /** This call may still register. */
  predicate Able(w: World, c: CallId, x: Id, now: int) { Waiting(w, c, x) && Pending(w.install, w.calls[c].request, now) }

  /** At most one credential was made for this secret. */
  ghost predicate OneCredential(w: World, x: Id) { forall i, j | Entry(w, i, x) && Entry(w, j, x) :: i == j }

  /** The calls that may still register hold one ceremony between them, and none once a credential was made. */
  ghost predicate Uncontended(w: World, x: Id) {
    && OneCredential(w, x)
    && (forall c, d | Able(w, c, x, w.clock) && Able(w, d, x, w.clock) :: w.calls[c].request.key == w.calls[d].request.key)
    && (forall c, i | Able(w, c, x, w.clock) && Entry(w, i, x) :: false)
  }

  predicate ChecksIn(e: Event, x: Id) { e.CheckIn? && e.id == x }

  predicate NoCheckIn(events: seq<Event>, x: Id) { forall i | 0 <= i < |events| :: !ChecksIn(events[i], x) }

  lemma RegisterDraws(w: World, e: Event)
    requires Enabled(w, e) && e.RegisterCred?
    ensures e.call in w.calls && w.calls[e.call].Checked?
    ensures var v, c := Next(w, e), w.calls[e.call].request;
      && v.install.nextToken == w.install.nextToken
      && v.install.registrations == (if c.key.Some? then w.install.registrations - {c.key.value} else w.install.registrations)
      && (v.made != w.made ==> Pending(w.install, c, e.now))
      && w.clock <= e.now
  {
  }

  lemma NextDraws(w: World, e: Event)
    requires KeysDrawn(w) && Enabled(w, e)
    ensures KeysDrawn(Next(w, e)) && OnlyNewKeys(w.install, Next(w, e).install) && w.clock <= Next(w, e).clock
  {
    if e.Elsewhere? {
      ElsewhereDraws(w.install, e.now, e.op);
      hide Admin.Apply;
    } else if e.RegisterCred? {
      RegisterDraws(w, e);
      RegisterMakes(w, e);
      hide Next, Enabled;
    }
  }

  /** An event other than a check-in of this secret lets no call register that could not before. */
  lemma AbleBefore(w: World, e: Event, c: CallId, x: Id)
    requires KeysDrawn(w) && Enabled(w, e) && !ChecksIn(e, x) && Able(Next(w, e), c, x, Next(w, e).clock)
    ensures Able(w, c, x, w.clock) && Next(w, e).calls[c] == w.calls[c]
    ensures e.RegisterCred? ==> e.call in w.calls && w.calls[e.call].Checked? && w.calls[e.call].request.key != w.calls[c].request.key
  {
    NextDraws(w, e);
    WaitedBefore(w, e, c, x);
    if e.RegisterCred? {
      RegisterDraws(w, e);
    }
    hide Next, Enabled;
  }

  lemma WaitedBefore(w: World, e: Event, c: CallId, x: Id)
    requires Enabled(w, e) && !ChecksIn(e, x) && Waiting(Next(w, e), c, x)
    ensures Waiting(w, c, x) && Next(w, e).calls[c] == w.calls[c]
  {
    if e.RegisterCred? {
      RegisterMakes(w, e);
      hide Next, Enabled;
    }
  }

  lemma MadeBefore(w: World, e: Event)
    requires Enabled(w, e) && !e.RegisterCred?
    ensures Next(w, e).made == w.made
  {
  }

  lemma UncontendedStays(w: World, e: Event, x: Id)
    requires KeysDrawn(w) && Uncontended(w, x) && Enabled(w, e) && !ChecksIn(e, x)
    ensures Uncontended(Next(w, e), x)
  {
    hide Next, Enabled, KeysDrawn, Pending;
    var v := Next(w, e);
    forall c | Able(v, c, x, v.clock)
      ensures Able(w, c, x, w.clock) && v.calls[c] == w.calls[c]
      ensures e.RegisterCred? ==> e.call in w.calls && w.calls[e.call].Checked? && w.calls[e.call].request.key != w.calls[c].request.key
    {
      AbleBefore(w, e, c, x);
    }
    if e.RegisterCred? {
      RegisterMakes(w, e);
      forall i ensures i < |w.made| ==> (Entry(v, i, x) <==> Entry(w, i, x)) {
        assert 0 <= i < |w.made| ==> v.made[i] == w.made[i];
      }
      if v.made != w.made {
        RegisteredWasAble(w, e);
        assert Entry(v, |w.made|, x) <==> w.calls[e.call].request.secret == x;
        if w.calls[e.call].request.secret == x {
          assert forall c :: !Able(v, c, x, v.clock);
          assert forall i :: !Entry(w, i, x);
        }
      }
    } else {
      MadeBefore(w, e);
      forall i ensures Entry(v, i, x) <==> Entry(w, i, x) {}
    }
  }

  lemma RegisteredWasAble(w: World, e: Event)
    requires Enabled(w, e) && e.RegisterCred? && Next(w, e).made != w.made
    ensures e.call in w.calls && w.calls[e.call].Checked?
    ensures Able(w, e.call, w.calls[e.call].request.secret, w.clock)
  {
    RegisterDraws(w, e);
    hide Next, Enabled;
  }

  lemma {:induction false} UncontendedRuns(w: World, events: seq<Event>, x: Id)
    requires KeysDrawn(w) && Uncontended(w, x) && Runs(w, events) && NoCheckIn(events, x)
    ensures Uncontended(After(w, events), x)
    decreases |events|
  {
    hide Uncontended, Next, Enabled, KeysDrawn;
    if events != [] {
      NextDraws(w, events[0]);
      UncontendedStays(w, events[0], x);
      assert NoCheckIn(events[1..], x);
      UncontendedRuns(Next(w, events[0]), events[1..], x);
    }
  }

  lemma {:induction false} RunsOn(w: World, events: seq<Event>, e: Event)
    requires Runs(w, events) && Enabled(After(w, events), e)
    ensures Runs(w, events + [e]) && After(w, events + [e]) == Next(After(w, events), e)
    decreases |events|
  {
    hide Enabled, Next;
    if events == [] {
      assert events + [e] == [e] && [e][1..] == [];
    } else {
      RunsOn(Next(w, events[0]), events[1..], e);
      assert (events + [e])[1..] == events[1..] + [e];
    }
  }

  /** An id no stored passkey has. */
  function NewId(rows: seq<Passkey>): (id: CredId)
    ensures id != "" && forall i | 0 <= i < |rows| :: |rows[i].id| < |id|
  {
    if rows == [] then "c" else NewId(rows[..|rows| - 1]) + rows[|rows| - 1].id
  }

  /** A call that may register does, at once. */
  lemma AbleRegisters(w: World, c: CallId, x: Id)
    requires Able(w, c, x, w.clock)
    ensures var e := RegisterCred(c, NewId(w.install.passkeys), w.clock);
      && Enabled(w, e)
      && (var v, r := Next(w, e), w.calls[c].request;
          && v.made == w.made + [Made(x, e.cred, Device(r.udid))] && v.clock == w.clock
          && v.calls == w.calls[c := Registered(x, e.cred)]
          && v.install == w.install.(registrations := w.install.registrations - {r.key.value},
                                     passkeys := w.install.passkeys + [Passkey(e.cred, r.rpId, Device(r.udid))]))
  {
    var rows := w.install.passkeys;
    assert forall i | 0 <= i < |rows| :: rows[i].id != NewId(rows);
    hide NewId;
  }

  /** Two ceremonies contend, or one does with a credential already made: both credentials come about, each under
      an id of its own, and both are stored. */
  lemma ContendedMakesTwo(w: World, x: Id) returns (events: seq<Event>)
    requires !Uncontended(w, x)
    ensures Runs(w, events) && NoCheckIn(events, x) && !OneCredential(After(w, events), x)
    ensures w.install.passkeys <= After(w, events).install.passkeys && After(w, events).install.password == w.install.password
  {
    hide Pending, Next, Enabled;
    if !OneCredential(w, x) {
      events := [];
    } else if c, i :| Able(w, c, x, w.clock) && Entry(w, i, x) {
      AbleRegisters(w, c, x);
      var e := RegisterCred(c, NewId(w.install.passkeys), w.clock);
      events := [e];
      RunsOn(w, [], e);
      assert [] + [e] == events;
      assert Entry(Next(w, e), i, x) && Entry(Next(w, e), |w.made|, x);
    } else {
      var c, d :| Able(w, c, x, w.clock) && Able(w, d, x, w.clock) && w.calls[c].request.key != w.calls[d].request.key;
      AbleRegisters(w, c, x);
      var e := RegisterCred(c, NewId(w.install.passkeys), w.clock);
      var v := Next(w, e);
      OtherKeyPending(w.install, v.install, w.calls[c].request, w.calls[d].request, w.clock);
      AbleRegisters(v, d, x);
      var f := RegisterCred(d, NewId(v.install.passkeys), v.clock);
      events := [e, f];
      RunsOn(w, [], e);
      assert [] + [e] == [e];
      RunsOn(w, [e], f);
      assert [e] + [f] == events;
      assert Entry(Next(v, f), |w.made|, x) && Entry(Next(v, f), |v.made|, x);
    }
  }

  lemma OtherKeyPending(s: Install, t: Install, r: Request, q: Request, now: int)
    requires Pending(s, r, now) && Pending(s, q, now) && r.key != q.key && t.registrations == s.registrations - {r.key.value}
    ensures Pending(t, q, now)
  {
  }

  /** However the calls already checked in go on, and whatever else the service does, a secret yields at most one
      credential exactly when the calls that may still register hold at most one ceremony, and none once a credential
      was made. */
  lemma OneCredentialExactly(w: World, x: Id)
    requires KeysDrawn(w)
    ensures Uncontended(w, x) <==> forall events | Runs(w, events) && NoCheckIn(events, x) :: OneCredential(After(w, events), x)
  {
    if Uncontended(w, x) {
      forall events | Runs(w, events) && NoCheckIn(events, x) ensures OneCredential(After(w, events), x) {
        UncontendedRuns(w, events, x);
      }
    } else {
      var events := ContendedMakesTwo(w, x);
    }
  }

  /** The ceremony a check-in names is pending, so that it may go on to register. */
  predicate Opens(w: World, e: Event)
    requires e.CheckIn? && Enabled(w, e)
  {
    Pending(w.install, Request(e.id, w.secrets[e.id].scope, e.key, e.rpId), e.now)
  }

  /** Nothing was made for this secret, and no other ceremony of it is pending. */
  ghost predicate ItsTurn(w: World, e: Event)
    requires e.CheckIn?
  {
    && (forall i :: !Entry(w, i, e.id))
    && (forall c | Able(w, c, e.id, e.now) :: w.calls[c].request.key == e.key)
  }

  lemma CheckInLeaves(w: World, e: Event)
    requires Enabled(w, e) && e.CheckIn?
    ensures var v := Next(w, e);
      && v.made == w.made && v.install == w.install && v.clock == e.now && w.clock <= e.now && e.call !in w.calls && e.id in w.secrets
      && v.calls == w.calls[e.call := Checked(Request(e.id, w.secrets[e.id].scope, e.key, e.rpId))]
  {
  }

  /** The guard that would do: a check-in keeps the promise exactly when the ceremony it names is over, or nothing was
      made for the secret and no call of it holds another pending ceremony. */
  lemma CheckInSafeExactly(w: World, e: Event, x: Id)
    requires Uncontended(w, x) && Enabled(w, e) && ChecksIn(e, x)
    ensures Uncontended(Next(w, e), x) <==> (Opens(w, e) ==> ItsTurn(w, e))
  {
    CheckInLeaves(w, e);
    var v := Next(w, e);
    AbleAfterCheckIn(w, e, x);
    hide Next, Enabled, Pending, Waiting, Able;
    assert forall i :: Entry(v, i, x) <==> Entry(w, i, x);
    if Opens(w, e) && !ItsTurn(w, e) {
      if i :| Entry(w, i, x) {
        assert Able(v, e.call, x, v.clock) && Entry(v, i, x);
      } else {
        var c :| Able(w, c, x, e.now) && w.calls[c].request.key != e.key;
        assert Able(v, c, x, v.clock) && Able(v, e.call, x, v.clock);
      }
    }
  }

  lemma AbleAfterCheckIn(w: World, e: Event, x: Id)
    requires Enabled(w, e) && ChecksIn(e, x)
    ensures var v := Next(w, e);
      && e.call in v.calls && v.calls[e.call].Checked? && v.calls[e.call].request.key == e.key
      && (Able(v, e.call, x, v.clock) <==> Opens(w, e))
      && (forall c | c != e.call :: Able(v, c, x, v.clock) <==> Able(w, c, x, e.now))
      && (forall c | Able(w, c, x, e.now) :: c != e.call && Able(w, c, x, w.clock) && v.calls[c] == w.calls[c])
  {
    CheckInLeaves(w, e);
  }

  /** Every check-in of this secret that could register came in its turn. */
  ghost predicate OneAtATime(w: World, events: seq<Event>, x: Id)
    requires Runs(w, events)
    decreases |events|
  {
    events == []
    || ((ChecksIn(events[0], x) && Opens(w, events[0]) ==> ItsTurn(w, events[0])) && OneAtATime(Next(w, events[0]), events[1..], x))
  }

  lemma {:induction false} OneAtATimeRuns(w: World, events: seq<Event>, x: Id)
    requires KeysDrawn(w) && Uncontended(w, x) && Runs(w, events) && OneAtATime(w, events, x)
    ensures KeysDrawn(After(w, events)) && Uncontended(After(w, events), x)
    decreases |events|
  {
    hide Uncontended, Next, Enabled, KeysDrawn, ItsTurn, Opens;
    if events != [] {
      NextDraws(w, events[0]);
      if ChecksIn(events[0], x) {
        CheckInSafeExactly(w, events[0], x);
      } else {
        UncontendedStays(w, events[0], x);
      }
      OneAtATimeRuns(Next(w, events[0]), events[1..], x);
    }
  }

  ghost predicate TwoMayCome(w: World, x: Id) { exists more :: Runs(w, more) && NoCheckIn(more, x) && !OneCredential(After(w, more), x) }

  /** From an empty table, over every run: a secret whose check-ins came one at a time yields at most one
      credential; and of the next check-in two may come exactly when it does not wait its turn. */
  lemma OneSecretOneCredential(install: Install, clock: int, events: seq<Event>, e: Event, x: Id)
    requires Numbered(install) && Runs(Empty(install, clock), events) && OneAtATime(Empty(install, clock), events, x)
    requires Enabled(After(Empty(install, clock), events), e) && ChecksIn(e, x)
    ensures var w := After(Empty(install, clock), events);
      OneCredential(w, x) && (TwoMayCome(Next(w, e), x) <==> Opens(w, e) && !ItsTurn(w, e))
  {
    OneAtATimeRuns(Empty(install, clock), events, x);
    hide After, Runs, Next, Enabled, ItsTurn, Opens, KeysDrawn;
    var w := After(Empty(install, clock), events);
    NextDraws(w, e);
    CheckInSafeExactly(w, e, x);
    OneCredentialExactly(Next(w, e), x);
  }

  // ---- an instance ----

  function Home(): Install { Install(Some("p"), [Passkey("k", "h", Scope.Admin)], map[], map[], map[], map[], 0) }

  function Given(): Secret { Secret("t", "d", 0, TTL, Live, None) }

  function Asked(key: Token): Request { Request(7, "d", Some(key), "h") }

  /** Two calls hold the same secret, each with a ceremony of its own, both past their check. */
  lemma BothCheckIn() returns (events: seq<Event>)
    ensures Runs(Empty(Home(), 0), events)
    ensures var g := Registration("h", Device("d"), CHALLENGE_TTL);
      After(Empty(Home(), 0), events) == World(Home().(registrations := map[0 := g, 1 := g], nextToken := 2), map[7 := Given()],
        map[0 := Checked(Asked(0)), 1 := Checked(Asked(1))], [], [], 0)
  {
    hide Runs, After;
    var w := Empty(Home(), 0);
    Nowhere(w);
    events := Step(w, [], MintSecret(7, Given()));
    events := Step(w, events, Elsewhere(0, Admin.BeginDevice("h", "d")));
    events := Step(w, events, Elsewhere(0, Admin.BeginDevice("h", "d")));
    events := Step(w, events, CheckIn(0, 7, Some(0), "h", 0));
    events := Step(w, events, CheckIn(1, 7, Some(1), "h", 0));
  }

  lemma BothRegister() returns (events: seq<Event>)
    ensures Runs(Empty(Home(), 0), events)
    ensures var w := After(Empty(Home(), 0), events);
      && w.install.passkeys == Home().passkeys + [Passkey("a", "h", Device("d")), Passkey("b", "h", Device("d"))]
      && w.made == [Made(7, "a", Device("d")), Made(7, "b", Device("d"))] && w.minted == []
      && w.secrets == map[7 := Given()] && w.clock == 0
      && w.calls == map[0 := Registered(7, "a"), 1 := Registered(7, "b")]
  {
    hide Runs, After;
    events := BothCheckIn();
    events := Step(Empty(Home(), 0), events, RegisterCred(0, "a", 0));
    events := Step(Empty(Home(), 0), events, RegisterCred(1, "b", 0));
  }

  /** What does not hold: one secret, one credential.  Two calls that both checked before either spent both
      register; the second's spend fails and its credential stays, without a session. */
  lemma RacingCallsLeaveTwoCredentials() returns (events: seq<Event>)
    ensures Runs(Empty(Home(), 0), events)
    ensures var w := After(Empty(Home(), 0), events);
      && |w.install.passkeys| == 3 && w.install.passkeys[1].id != w.install.passkeys[2].id
      && |w.made| == 2 && w.made[0].secret == w.made[1].secret
      && |w.minted| == 1 && w.calls == map[0 := Over, 1 := Over]
  {
    hide Runs, After;
    var w := Empty(Home(), 0);
    events := BothRegister();
    events := Step(w, events, SpendSecret(0, 0));
    events := Step(w, events, SpendSecret(1, 0));
    events := Step(w, events, MintSession(0));
  }

  lemma Nowhere(w: World)
    ensures Runs(w, []) && After(w, []) == w
  {
  }

  lemma Step(w: World, events: seq<Event>, e: Event) returns (more: seq<Event>)
    requires Runs(w, events) && Enabled(After(w, events), e)
    ensures Runs(w, more) && After(w, more) == Next(After(w, events), e)
  {
    RunsOn(w, events, e);
    more := events + [e];
  }
}
