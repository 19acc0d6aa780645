/** Every change made on the strength of a proof traces to one ceremony and one assertion. */
module AuthTrace {
  import opened Wrappers
  import opened AuthCredentials
  import opened AuthSafety

  // ---- the invariant, part by part ----

  /** A ceremony still open is the one that was begun, on the ceremony clock, and nobody has finished it. */
  predicate CeremonyOk(t: Trace, k: Token) {
    && k in t.s.ceremonies && k in t.began
    && (var c, b := t.s.ceremonies[k], t.began[k];
        && c.session == b.session && c.op == b.op && c.target == b.target && c.rpId == b.rpId
        && c.expires == b.at + CHALLENGE_TTL && c.allowed == b.admins
        && (c.op.OpRemovePasskey? ==> c.allowed != {} && c.target !in c.allowed))
    && (forall f | f in t.finished :: t.finished[f].key != k)
  }

  /** A finished assertion came from the same session within the ceremony's clock, and for a removal from another of
      the admin's credentials at this address. */
  predicate FinishedOk(t: Trace, f: Token) {
    && f in t.finished && t.finished[f].key in t.began
    && (var b := t.began[t.finished[f].key];
        && t.finished[f].at <= b.at + CHALLENGE_TTL && t.finished[f].session == b.session
        && t.finished[f].signer in t.finished[f].stored && (b.admins != {} ==> t.finished[f].signer in b.admins)
        && (b.op.OpRemovePasskey? ==> t.finished[f].signer in b.admins && b.target !in b.admins))
  }

  /** A proof still unspent is the one its assertion minted, on the proof clock. */
  predicate ProofOk(t: Trace, p: Token) {
    && p in t.s.proofs && p in t.finished && t.finished[p].key in t.began
    && (var proof, b := t.s.proofs[p], t.began[t.finished[p].key];
        && proof.op == b.op && proof.target == b.target && proof.session == b.session
        && proof.subject == Credential(t.finished[p].signer)
        && proof.expires == t.finished[p].at + PROOF_TTL)
    && (forall i | 0 <= i < |t.changes| :: t.changes[i].token != p)
  }

  predicate ChangeOk(t: Trace, c: Change) {
    && c.token in t.finished && t.finished[c.token].key in t.began
    && (var f := t.finished[c.token];
        var b := t.began[f.key];
        && b.op == c.op && b.target == c.target && b.session == c.session
        && c.at <= f.at + PROOF_TTL)
  }

  predicate NumbersOk(t: Trace) {
    && (forall k | k in t.began :: k < t.s.nextToken)
    && (forall f | f in t.finished :: f < t.s.nextToken)
    && (forall f, g | f in t.finished && g in t.finished && f != g :: t.finished[f].key != t.finished[g].key)
    && (forall i, j | 0 <= i < j < |t.changes| :: t.changes[i].token != t.changes[j].token)
  }

  predicate Traceable(t: Trace) {
    && (forall k | k in t.s.ceremonies :: CeremonyOk(t, k))
    && (forall p | p in t.s.proofs :: ProofOk(t, p))
    && (forall f | f in t.finished :: FinishedOk(t, f))
    && (forall i | 0 <= i < |t.changes| :: ChangeOk(t, t.changes[i]))
    && NumbersOk(t)
  }

  // ---- what an op leaves of the pending ones ----

  /** The op only takes proofs and ceremonies away. */
  predicate OnlyFewer(a: Install, b: Install) {
    && (forall p | p in b.proofs :: p in a.proofs && b.proofs[p] == a.proofs[p])
    && (forall k | k in b.ceremonies :: k in a.ceremonies && b.ceremonies[k] == a.ceremonies[k])
    && a.nextToken <= b.nextToken
  }

  lemma PresentTakes(s: Install, now: int, pres: Presented, op: ProofOp, target: CredId, session: SessionId, admitted: bool)
    ensures var t := RequirePresent(s, now, pres, op, target, session, admitted).s;
      OnlyFewer(s, t) && t.ceremonies == s.ceremonies && t.nextToken == s.nextToken
  {
  }

  lemma FinishTakes(s: Install, now: int, op: Op)
    requires op.Finish? && !Apply(s, now, op).1.Minted?
    ensures OnlyFewer(s, Apply(s, now, op).0)
  {
  }

  lemma RemoveKeyTakes(s: Install, now: int, op: Op)
    requires op.RemoveKey?
    ensures OnlyFewer(s, Apply(s, now, op).0)
  {
    hide RequirePresent, Accepts, Configured, PasskeyRemovalRefusal, EndSessions, Without;
    PresentTakes(s, now, op.pres, OpRemovePasskey, op.target, op.session, op.admitted);
  }

  lemma OthersOnlyTake(s: Install, now: int, op: Op)
    requires !((op.Begin? || op.Finish?) && Apply(s, now, op).1.Minted?)
    ensures OnlyFewer(s, Apply(s, now, op).0)
  {
    hide RequirePresent, Accepts, Provable, Configured, PasskeyRemovalRefusal, PasswordRemovalRefusal, EndSessions, Without,
         FinishReauth, Asserts, RemovePasskey, BeginReauth, FinishRegistration;
    match op {
      case ChangePw(pres, _, session, _, again) => PresentTakes(s, now, pres, OpSetPassword, "", session, again);
      case RemovePw(pres, _, session, a) => PresentTakes(s, now, pres, OpRemovePassword, "", session, a);
      case RemoveKey(_, _, _, _, _) => RemoveKeyTakes(s, now, op);
      case BeginAdd(pres, _, session, a) => PresentTakes(s, now, pres, OpAddPasskey, "", session, a);
      case Finish(_, _, _, _, _) => FinishTakes(s, now, op);
      case _ => QuietTakes(s, now, op);
    }
  }

  lemma QuietTakes(s: Install, now: int, op: Op)
    requires op.SetPw? || op.BeginFirst? || op.FinishFirst? || op.Register? || op.BeginDevice? || op.Login?
             || (op.Begin? && !Apply(s, now, op).1.Minted?)
    ensures OnlyFewer(s, Apply(s, now, op).0)
  {
    hide Accepts, Provable, Configured;
  }

  /** A change on the strength of a proof takes that very proof, which was good for it. */
  lemma SpendsItsProof(s: Install, now: int, op: Op)
    requires Offer(op).Some? && Configured(s) && Succeeded(Apply(s, now, op).1)
    ensures var o := Offer(op).value;
      && o.0 in s.proofs && o.0 !in Apply(s, now, op).0.proofs
      && s.proofs[o.0].op == o.1 && s.proofs[o.0].target == o.2 && s.proofs[o.0].session == o.3
      && now <= s.proofs[o.0].expires
  {
  }

  lemma FewerTraceable(t: Trace, s: Install, clock: int)
    requires Traceable(t) && OnlyFewer(t.s, s)
    ensures Traceable(t.(s := s, clock := clock))
  {
    var u := t.(s := s, clock := clock);
    forall k | k in s.ceremonies ensures CeremonyOk(u, k) {
      assert CeremonyOk(t, k);
    }
    forall p | p in s.proofs ensures ProofOk(u, p) {
      assert ProofOk(t, p);
    }
    forall f | f in t.finished ensures FinishedOk(u, f) {
      assert FinishedOk(t, f);
    }
    forall i | 0 <= i < |t.changes| ensures ChangeOk(u, t.changes[i]) {
      assert ChangeOk(t, t.changes[i]);
    }
  }

  lemma ChangeTraceable(t: Trace, s: Install, clock: int, c: Change)
    requires Traceable(t) && OnlyFewer(t.s, s) && c.token in t.s.proofs && c.token !in s.proofs
    requires var p := t.s.proofs[c.token];
      p.op == c.op && p.target == c.target && p.session == c.session && c.at <= p.expires
    ensures Traceable(t.(s := s, clock := clock, changes := t.changes + [c]))
  {
    hide OnlyFewer, Traceable;
    FewerTraceable(t, s, clock);
    SpentProof(t, c);
    ChangeAdds(t.(s := s, clock := clock), c);
  }

  lemma SpentProof(t: Trace, c: Change)
    requires Traceable(t) && c.token in t.s.proofs
    requires var p := t.s.proofs[c.token];
      p.op == c.op && p.target == c.target && p.session == c.session && c.at <= p.expires
    ensures ChangeOk(t, c) && forall i | 0 <= i < |t.changes| :: t.changes[i].token != c.token
  {
    assert ProofOk(t, c.token);
    hide CeremonyOk, NumbersOk, FinishedOk, Traceable;
  }

  lemma ChangeAdds(v: Trace, c: Change)
    requires Traceable(v) && c.token !in v.s.proofs
    requires ChangeOk(v, c) && forall i | 0 <= i < |v.changes| :: v.changes[i].token != c.token
    ensures Traceable(v.(changes := v.changes + [c]))
  {
    var u := v.(changes := v.changes + [c]);
    assert NumbersOk(u);
    hide NumbersOk;
    forall p | p in u.s.proofs ensures ProofOk(u, p) {
      assert ProofOk(v, p);
    }
    forall k | k in u.s.ceremonies ensures CeremonyOk(u, k) {
      assert CeremonyOk(v, k);
    }
    forall f | f in u.finished ensures FinishedOk(u, f) {
      assert FinishedOk(v, f);
    }
    forall i | 0 <= i < |u.changes| ensures ChangeOk(u, u.changes[i]) {
      if i < |v.changes| {
        assert ChangeOk(v, v.changes[i]);
      }
    }
  }

  // ---- beginning and finishing ----

  lemma BeginMade(s: Install, now: int, op: Op)
    requires op.Begin? && Apply(s, now, op).1.Minted?
    ensures var (u, answer) := Apply(s, now, op);
      && answer.token == s.nextToken && u.nextToken == s.nextToken + 1 && u.proofs == s.proofs
      && (forall k | k in u.ceremonies && k != s.nextToken :: k in s.ceremonies && u.ceremonies[k] == s.ceremonies[k])
      && s.nextToken in u.ceremonies
      && (var c := u.ceremonies[s.nextToken];
          && c.session == op.session && c.op == op.op && c.target == op.target && c.rpId == op.rpId
          && c.expires == now + CHALLENGE_TTL && c.allowed == ProversOf(s, op.op, op.rpId, op.target)
          && (c.op.OpRemovePasskey? ==> c.allowed != {} && c.target !in c.allowed))
  {
    RemovalProvableExactly(s, op.target, op.rpId);
  }

  lemma BeginNumbers(t: Trace, u: Trace, b: Began)
    requires NumbersOk(t) && u.began == t.began[t.s.nextToken := b] && u.s.nextToken == t.s.nextToken + 1
    requires u.finished == t.finished && u.changes == t.changes
    ensures NumbersOk(u) && t.s.nextToken !in t.began && t.s.nextToken !in t.finished
  {
  }

  /** A new beginning leaves what was begun before as it was. */
  lemma BeginKeeps(t: Trace, u: Trace, b: Began)
    requires Traceable(t) && u.began == t.began[t.s.nextToken := b] && t.s.nextToken !in t.began
    requires u.finished == t.finished && u.changes == t.changes && u.s.proofs == t.s.proofs
    ensures forall p | p in u.s.proofs :: ProofOk(u, p)
    ensures forall f | f in u.finished :: FinishedOk(u, f) && u.finished[f].key != t.s.nextToken
    ensures forall i | 0 <= i < |u.changes| :: ChangeOk(u, u.changes[i])
  {
    hide NumbersOk, CeremonyOk;
    forall p | p in u.s.proofs ensures ProofOk(u, p) {
      assert ProofOk(t, p);
    }
    forall f | f in u.finished ensures FinishedOk(u, f) && u.finished[f].key != t.s.nextToken {
      assert FinishedOk(t, f);
    }
    forall i | 0 <= i < |u.changes| ensures ChangeOk(u, u.changes[i]) {
      assert ChangeOk(t, t.changes[i]);
    }
  }

  lemma BeginTraceable(t: Trace, now: int, op: Op)
    requires Traceable(t) && op.Begin? && Apply(t.s, now, op).1.Minted?
    ensures Traceable(Record(t, now, op))
  {
    hide Apply, NumbersOk, FinishedOk, ProofOk, ChangeOk, ProversOf;
    BeginMade(t.s, now, op);
    var u := Record(t, now, op);
    var b := Began(op.session, op.op, op.target, op.rpId, ProversOf(t.s, op.op, op.rpId, op.target), now);
    BeginNumbers(t, u, b);
    BeginKeeps(t, u, b);
    forall k | k in u.s.ceremonies ensures CeremonyOk(u, k) {
      if k != t.s.nextToken {
        assert CeremonyOk(t, k);
      }
    }
  }

  lemma FinishMade(s: Install, now: int, op: Op)
    requires op.Finish? && Apply(s, now, op).1.Minted?
    ensures var (u, answer) := Apply(s, now, op);
      && answer.token == s.nextToken && u.nextToken == s.nextToken + 1
      && u.ceremonies == s.ceremonies - {op.key} && op.key in s.ceremonies && now <= s.ceremonies[op.key].expires
      && (forall p | p in u.proofs && p != s.nextToken :: p in s.proofs && u.proofs[p] == s.proofs[p])
      && (var c := s.ceremonies[op.key];
          && s.nextToken in u.proofs
          && u.proofs[s.nextToken] == Proof(c.op, c.target, Credential(op.signer), c.session, now + PROOF_TTL)
          && c.session == op.session && c.rpId == op.rpId && op.signer in StoredAt(s.passkeys, op.rpId)
          && (c.allowed != {} ==> op.signer in c.allowed))
  {
  }

  lemma FinishedOnceMore(t: Trace, u: Trace, key: Token, done: Finished)
    requires Traceable(t) && CeremonyOk(t, key)
    requires u.began == t.began && u.changes == t.changes && u.s.nextToken == t.s.nextToken + 1
    requires u.finished == t.finished[t.s.nextToken := done] && done.key == key
    requires done.at <= t.s.ceremonies[key].expires && done.session == t.s.ceremonies[key].session
    requires done.signer in done.stored
    requires t.s.ceremonies[key].allowed != {} ==> done.signer in t.s.ceremonies[key].allowed
    ensures NumbersOk(u) && forall f | f in u.finished :: FinishedOk(u, f)
  {
    forall f | f in u.finished ensures FinishedOk(u, f) {
      if f != t.s.nextToken {
        assert FinishedOk(t, f);
      }
    }
  }

  lemma FinishTraceable(t: Trace, now: int, op: Op)
    requires Traceable(t) && op.Finish? && Apply(t.s, now, op).1.Minted?
    ensures Traceable(Record(t, now, op))
  {
    FinishMade(t.s, now, op);
    hide Apply, NumbersOk, FinishedOk;
    var u := Record(t, now, op);
    var token := t.s.nextToken;
    assert CeremonyOk(t, op.key);
    FinishedOnceMore(t, u, op.key, Finished(op.key, op.signer, op.session, StoredAt(t.s.passkeys, op.rpId), now));
    NewNumber(t);
    FinishLeavesCeremonies(t, u, op.key, op.signer, op.session, StoredAt(t.s.passkeys, op.rpId), now);
    forall i | 0 <= i < |u.changes| ensures ChangeOk(u, u.changes[i]) && u.changes[i].token != token {
      assert ChangeOk(t, t.changes[i]);
    }
    hide CeremonyOk, Traceable;
    FinishAddsAProof(t, u, op.key, op.signer, op.session, StoredAt(t.s.passkeys, op.rpId), now);
    TraceableParts(u);
  }

  lemma TraceableParts(t: Trace)
    requires forall k | k in t.s.ceremonies :: CeremonyOk(t, k)
    requires forall p | p in t.s.proofs :: ProofOk(t, p)
    requires forall f | f in t.finished :: FinishedOk(t, f)
    requires forall i | 0 <= i < |t.changes| :: ChangeOk(t, t.changes[i])
    requires NumbersOk(t)
    ensures Traceable(t)
  {
    hide CeremonyOk, ProofOk, FinishedOk, ChangeOk, NumbersOk;
  }

  lemma FinishLeavesCeremonies(t: Trace, u: Trace, key: Token, signer: CredId, session: SessionId, stored: set<CredId>, now: int)
    requires Traceable(t) && u.began == t.began && u.s.ceremonies == t.s.ceremonies - {key}
    requires u.finished == t.finished[t.s.nextToken := Finished(key, signer, session, stored, now)]
    ensures forall k | k in u.s.ceremonies :: CeremonyOk(u, k)
  {
    hide NumbersOk, FinishedOk;
    forall k | k in u.s.ceremonies ensures CeremonyOk(u, k) {
      assert CeremonyOk(t, k);
    }
  }

  lemma FinishAddsAProof(t: Trace, u: Trace, key: Token, signer: CredId, session: SessionId, stored: set<CredId>, now: int)
    requires Traceable(t) && CeremonyOk(t, key) && u.began == t.began && u.changes == t.changes
    requires u.finished == t.finished[t.s.nextToken := Finished(key, signer, session, stored, now)]
    requires forall p | p in u.s.proofs && p != t.s.nextToken :: p in t.s.proofs && u.s.proofs[p] == t.s.proofs[p]
    requires var c := t.s.ceremonies[key];
      t.s.nextToken in u.s.proofs
      && u.s.proofs[t.s.nextToken] == Proof(c.op, c.target, Credential(signer), c.session, now + PROOF_TTL)
    requires forall i | 0 <= i < |t.changes| :: t.changes[i].token != t.s.nextToken
    ensures forall p | p in u.s.proofs :: ProofOk(u, p)
  {
    hide NumbersOk, FinishedOk;
    forall p | p in u.s.proofs ensures ProofOk(u, p) {
      if p != t.s.nextToken {
        assert ProofOk(t, p);
      }
    }
  }

  lemma NewNumber(t: Trace)
    requires NumbersOk(t)
    ensures t.s.nextToken !in t.finished && t.s.nextToken !in t.began
  {
  }

  // ---- every step, every run ----

  lemma RecordTraceable(t: Trace, now: int, op: Op)
    requires Traceable(t)
    ensures Traceable(Record(t, now, op))
  {
    hide Traceable, Apply, Configured;
    var (s, answer) := Apply(t.s, now, op);
    if op.Begin? && answer.Minted? {
      BeginTraceable(t, now, op);
    } else if op.Finish? && answer.Minted? {
      FinishTraceable(t, now, op);
    } else {
      OthersOnlyTake(t.s, now, op);
      if Offer(op).Some? && Configured(t.s) && Succeeded(answer) {
        SpendsItsProof(t.s, now, op);
        var o := Offer(op).value;
        ChangeTraceable(t, s, now, Change(o.0, o.1, o.2, o.3, now));
      } else {
        FewerTraceable(t, s, now);
      }
    }
  }

  lemma {:induction false} RunsAreTraceable(t: Trace, calls: seq<Call>)
    requires Traceable(t)
    ensures Traceable(Run(t, calls))
  {
    hide Traceable;
    if calls != [] {
      var last := |calls| - 1;
      RunsAreTraceable(t, calls[..last]);
      RecordTraceable(Run(t, calls[..last]), calls[last].now, calls[last].op);
    }
  }

  /** An install whose history starts here: nothing pending. */
  function Started(s: Install, clock: int): Trace {
    Trace(s.(ceremonies := map[], proofs := map[]), clock, map[], map[], [])
  }

  /** Over any run, from any install, every passkey removed by proof was removed on one assertion: begun and
      finished by the same session for that removal of that passkey, made by another passkey of the admin's at
      that address, and spent within the two clocks of the beginning.  No two changes of any kind share a proof or
      a ceremony. */
  lemma {:induction false} EveryRemovalTraces(s: Install, clock: int, calls: seq<Call>, i: nat)
    requires i < |Run(Started(s, clock), calls).changes|
    requires Run(Started(s, clock), calls).changes[i].op.OpRemovePasskey?
    ensures var t := Run(Started(s, clock), calls);
      var c := t.changes[i];
      && c.token in t.finished && t.finished[c.token].key in t.began
      && (var f, b := t.finished[c.token], t.began[t.finished[c.token].key];
          && b.session == c.session && f.session == c.session && b.op.OpRemovePasskey? && b.target == c.target
          && f.signer in b.admins && f.signer != c.target
          && c.at <= f.at + PROOF_TTL && f.at <= b.at + CHALLENGE_TTL
          && c.at - b.at <= CHALLENGE_TTL + PROOF_TTL)
      && (forall j | 0 <= j < |t.changes| && j != i ::
            t.changes[j].token != c.token
            && t.changes[j].token in t.finished && t.finished[t.changes[j].token].key != t.finished[c.token].key)
  {
    RunsAreTraceable(Started(s, clock), calls);
    var t := Run(Started(s, clock), calls);
    assert ChangeOk(t, t.changes[i]);
    assert FinishedOk(t, t.changes[i].token);
    forall j | 0 <= j < |t.changes| && j != i
      ensures t.changes[j].token != t.changes[i].token
      ensures t.changes[j].token in t.finished && t.finished[t.changes[j].token].key != t.finished[t.changes[i].token].key
    {
      assert ChangeOk(t, t.changes[j]);
      assert t.changes[if i < j then i else j].token != t.changes[if i < j then j else i].token;
    }
  }

  /** Over any run, from any install, every change of any kind made on the strength of a proof was made on one assertion:
      begun and finished by the session that made it, for that operation and target, within the two clocks, by a
      passkey that was stored at that address when it signed, and an admin's where the address had any. */
  lemma {:induction false} EveryChangeTraces(s: Install, clock: int, calls: seq<Call>, i: nat)
    requires i < |Run(Started(s, clock), calls).changes|
    ensures var t := Run(Started(s, clock), calls);
      var c := t.changes[i];
      && c.token in t.finished && t.finished[c.token].key in t.began
      && (var f, b := t.finished[c.token], t.began[t.finished[c.token].key];
          && b.session == c.session && f.session == c.session && b.op == c.op && b.target == c.target
          && f.signer in f.stored && (b.admins != {} ==> f.signer in b.admins)
          && c.at <= f.at + PROOF_TTL && f.at <= b.at + CHALLENGE_TTL)
  {
    RunsAreTraceable(Started(s, clock), calls);
    var t := Run(Started(s, clock), calls);
    assert ChangeOk(t, t.changes[i]);
    assert FinishedOk(t, t.changes[i].token);
  }

  // ---- who may sign ----

  /** Could this scoped passkey's assertion finish the ceremony? */
  predicate ScopedMaySign(s: Install, c: Ceremony) {
    exists i :: 0 <= i < |s.passkeys| && s.passkeys[i].scope.Device? && Asserts(s, c, s.passkeys[i].id)
  }

  /** Registered ids are distinct and not empty, which registration sees to. */
  predicate Rows(rows: seq<Passkey>) {
    (forall i | 0 <= i < |rows| :: rows[i].id != "") && (forall i, j | 0 <= i < j < |rows| :: rows[i].id != rows[j].id)
  }

  /** Every ceremony is meant to admit the admin's passkeys only.  It does exactly when one of those works at this
      address, other than the target of a removal, or no scoped passkey has this address: an empty list admits
      everybody.  The two removals always have one. */
  lemma AdminsAloneSignExactly(s: Install, now: int, rpId: RpId, op: ProofOp, target: CredId, session: SessionId, admitted: bool)
    requires Rows(s.passkeys) && BeginReauth(s, now, rpId, op, target, session, admitted).1.Minted?
    ensures var (t, answer) := BeginReauth(s, now, rpId, op, target, session, admitted);
      && answer.token in t.ceremonies
      && (!ScopedMaySign(t, t.ceremonies[answer.token]) <==>
            ProversOf(s, op, rpId, target) != {} || forall p | p in s.passkeys && p.rpId == rpId :: p.scope.Admin?)
      && (op == OpRemovePasskey || op == OpRemovePassword ==> !ScopedMaySign(t, t.ceremonies[answer.token]))
  {
    var (t, answer) := BeginReauth(s, now, rpId, op, target, session, admitted);
    var c := t.ceremonies[answer.token];
    if op == OpRemovePasskey || op == OpRemovePassword {
      RemovalsAreProvable(s, op, rpId, target);
    }
    if ProversOf(s, op, rpId, target) != {} {
      ListedAreAdmins(s, c, op, target);
    } else if i :| 0 <= i < |s.passkeys| && s.passkeys[i].rpId == rpId && s.passkeys[i].scope.Device? {
      assert Asserts(t, c, s.passkeys[i].id);
    }
  }

  lemma RemovalsAreProvable(s: Install, op: ProofOp, rpId: RpId, target: CredId)
    requires Rows(s.passkeys) && (op == OpRemovePasskey || op == OpRemovePassword)
    requires Provable(s, op, rpId, target) == Fine
    ensures ProversOf(s, op, rpId, target) != {}
  {
    RemovalProvableExactly(s, target, rpId);
    AdminIdsMember(s.passkeys, rpId, "");
    if op == OpRemovePassword {
      var admin := AdminRows(s.passkeys);
      AnyAtMember(admin, rpId);
      var p :| p in admin && p.rpId == rpId;
      AdminRowsExactly(s.passkeys, p);
    }
  }

  lemma ListedAreAdmins(s: Install, c: Ceremony, op: ProofOp, target: CredId)
    requires Rows(s.passkeys) && c.allowed == ProversOf(s, op, c.rpId, target) && c.allowed != {}
    ensures !ScopedMaySign(s, c)
  {
  }

  /** An install with a password and one scoped passkey at this address: that passkey's holder proves a change of
      the admin's password. */
  lemma ScopedPasskeyChangesThePassword(now: int)
    ensures var s := Install(Some("old"), [Passkey("k", "home", Device("d"))], map["x" := Some("k")], map[], map[], map[], 0);
      var (a, one) := BeginReauth(s, now, "home", OpSetPassword, "", "x", true);
      var (b, two) := FinishReauth(a, now, 0, "home", "x", true, "k");
      var (c, three) := ChangePassword(b, now, Presented("", Some(1)), "new", "x", true, true);
      && one == Minted(0) && two == Minted(1) && three == Done && c.password == Some("new")
  {
    var s := Install(Some("old"), [Passkey("k", "home", Device("d"))], map["x" := Some("k")], map[], map[], map[], 0);
    assert ProversOf(s, OpSetPassword, "home", "") == {};
    var (a, one) := BeginReauth(s, now, "home", OpSetPassword, "", "x", true);
    assert a.passkeys[0].id == "k" && a.passkeys[0].rpId == "home";
    assert Asserts(a, a.ceremonies[0], "k");
  }

  // ---- one presentation ----

  /** Presenting a proof spends it, whether it was good or not. */
  lemma PresentingSpends(s: Install, now: int, pres: Presented, op: ProofOp, target: CredId, session: SessionId, admitted: bool)
    requires Configured(s) && pres.proof.Some?
    ensures var shown := RequirePresent(s, now, pres, op, target, session, admitted);
      && pres.proof.value !in shown.s.proofs
      && RequirePresent(shown.s, now, pres, op, target, session, admitted).answer == NoProof
  {
  }

  /** On a configured install a passkey removal that succeeds was authorised by the password or by another
      passkey's assertion, and leaves no session the removed passkey minted but the one that asked. */
  lemma RemovalIsAuthorised(s: Install, now: int, pres: Presented, target: CredId, rpId: RpId, session: SessionId, admitted: bool)
    requires Configured(s) && target != "" && RemovePasskey(s, now, pres, target, rpId, session, admitted).1 == Done
    ensures var t := RemovePasskey(s, now, pres, target, rpId, session, admitted).0;
      && (if pres.proof.Some? then
            && pres.proof.value in s.proofs
            && s.proofs[pres.proof.value].op == OpRemovePasskey && s.proofs[pres.proof.value].target == target
            && s.proofs[pres.proof.value].session == session && now <= s.proofs[pres.proof.value].expires
            && s.proofs[pres.proof.value].subject != Credential(target)
          else s.password == Some(pres.password) && admitted)
      && (forall p :: p in t.passkeys <==> p in s.passkeys && p.id != target)
      && (forall x | x in t.sessions && t.sessions[x] == Some(target) :: x == session)
      && (forall x | x in s.sessions && s.sessions[x] != Some(target) :: x in t.sessions && t.sessions[x] == s.sessions[x])
  {
    forall p ensures p in Without(s.passkeys, target) <==> p in s.passkeys && p.id != target {
      WithoutExactly(s.passkeys, target, p);
    }
  }

  /** A password removal that succeeds on a configured install was authorised by a proof, not by the password,
      and an admin passkey that works at this address is still there. */
  lemma PasswordRemovalIsAuthorised(s: Install, now: int, pres: Presented, rpId: RpId, session: SessionId, admitted: bool)
    requires Configured(s) && RemovePassword(s, now, pres, rpId, session, admitted).1 == Done
    ensures var t := RemovePassword(s, now, pres, rpId, session, admitted).0;
      && t.password.None? && t.passkeys == s.passkeys
      && pres.proof.Some? && pres.proof.value in s.proofs
      && (var p := s.proofs[pres.proof.value];
          p.op == OpRemovePassword && p.session == session && now <= p.expires && p.subject != ThePassword)
      && (exists k :: k in t.passkeys && k.scope.Admin? && k.rpId == rpId)
      && (forall x | x in t.sessions && t.sessions[x].None? :: x == session)
  {
    AdminIdsMember(s.passkeys, rpId, "");
  }

  /** A password change that succeeds on a configured install was authorised by the old password or by a proof
      for it, and ends every other session the password had minted. */
  lemma PasswordChangeIsAuthorised(s: Install, now: int, pres: Presented, next: string, session: SessionId, admitted: bool, again: bool)
    requires Configured(s) && ChangePassword(s, now, pres, next, session, admitted, again).1 == Done
    ensures var t := ChangePassword(s, now, pres, next, session, admitted, again).0;
      && t.password == Some(next) && t.passkeys == s.passkeys
      && (if pres.proof.Some? then
            && pres.proof.value in s.proofs
            && s.proofs[pres.proof.value].op == OpSetPassword && s.proofs[pres.proof.value].session == session
            && now <= s.proofs[pres.proof.value].expires
          else s.password == Some(pres.password) && again)
      && (forall x | x in t.sessions && t.sessions[x].None? :: x == session)
      && (forall x | x in s.sessions && s.sessions[x].Some? :: x in t.sessions && t.sessions[x] == s.sessions[x])
  {
  }

  /** First-run setup: the steps that can claim an install. */
  predicate Claims(op: Op) { op.SetPw? || op.FinishFirst? }

  lemma ClaimConfigures(s: Install, now: int, op: Op)
    requires Claims(op) && Apply(s, now, op).1 == Done
    ensures Configured(Apply(s, now, op).0)
  {
  }

  lemma ConfiguredRefusesClaims(s: Install, now: int, op: Op)
    requires Claims(op) && Configured(s)
    ensures Apply(s, now, op).0 == s && Apply(s, now, op).1 != Done
  {
  }

  lemma {:induction false} StaysConfigured(t: Trace, calls: seq<Call>, i: nat, j: nat)
    requires i <= j <= |calls| && Configured(Run(t, calls[..i]).s)
    ensures Configured(Run(t, calls[..j]).s)
  {
    hide Configured, Apply;
    if i < j {
      StaysConfigured(t, calls, i, j - 1);
      assert calls[..j][..j - 1] == calls[..j - 1];
      var before := Run(t, calls[..j - 1]);
      StepKeepsTheOwner(before.s, calls[j - 1].now, calls[j - 1].op);
      RecordedState(before, calls[j - 1].now, calls[j - 1].op);
    }
  }

  /** An install is claimed once: over any run, once a first-run setup has succeeded, every later one, of either
      kind, is refused and changes nothing. */
  lemma ClaimedOnce(t: Trace, calls: seq<Call>, i: nat, j: nat)
    requires i < j < |calls| && Claims(calls[i].op) && Claims(calls[j].op)
    requires Apply(Run(t, calls[..i]).s, calls[i].now, calls[i].op).1 == Done
    ensures var s := Run(t, calls[..j]).s;
      Apply(s, calls[j].now, calls[j].op).0 == s && Apply(s, calls[j].now, calls[j].op).1 != Done
  {
    hide Configured, Apply;
    var before := Run(t, calls[..i]);
    ClaimConfigures(before.s, calls[i].now, calls[i].op);
    RecordedState(before, calls[i].now, calls[i].op);
    assert calls[..i + 1][..i] == calls[..i];
    StaysConfigured(t, calls, i + 1, j);
    ConfiguredRefusesClaims(Run(t, calls[..j]).s, calls[j].now, calls[j].op);
  }

  /** Two passkeys, each with a proof for the other's removal: the first removal goes through, and the second
      is refused before its proof is even looked at. */
  lemma MutualRemovalStops(s: Install, now: int, a: CredId, b: CredId, rpId: RpId, session: SessionId, first: Token, second: Token)
    requires s.password.None? && a != b && a != "" && b != ""
    requires s.passkeys == [Passkey(a, rpId, Admin), Passkey(b, rpId, Admin)]
    requires first in s.proofs && s.proofs[first] == Proof(OpRemovePasskey, a, Credential(b), session, now)
    requires second in s.proofs && s.proofs[second] == Proof(OpRemovePasskey, b, Credential(a), session, now) && first != second
    ensures var (t, one) := RemovePasskey(s, now, Presented("", Some(first)), a, rpId, session, true);
      var (u, two) := RemovePasskey(t, now, Presented("", Some(second)), b, rpId, session, true);
      one == Done && t.passkeys == [Passkey(b, rpId, Admin)] && two.Refused? && u == t && second in u.proofs
  {
    AdminIdsMember(s.passkeys, rpId, a);
    assert s.passkeys[1] in s.passkeys;
    var (t, one) := RemovePasskey(s, now, Presented("", Some(first)), a, rpId, session, true);
    assert s.passkeys[1..] == [Passkey(b, rpId, Admin)] && s.passkeys[1..][1..] == [];
    assert Without(s.passkeys[1..], a) == [Passkey(b, rpId, Admin)] + Without([], a);
    RemovalProvableExactly(t, b, rpId);
    AdminIdsMember(t.passkeys, rpId, b);
  }
}
