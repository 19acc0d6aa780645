/** Whole-run safety of the credential set: nobody is locked out by any run of removals, and every removal by
    proof traces to one assertion by a different credential, made for that removal, minutes before. */
module AuthSafety {
  import opened Wrappers
  import opened AuthCredentials

  // ---- refusals and what is accepted agree ----

  lemma {:induction false} AdminRowsExactly(rows: seq<Passkey>, p: Passkey)
    ensures p in AdminRows(rows) <==> p in rows && p.scope.Admin?
  {
    if rows != [] {
      AdminRowsExactly(rows[1..], p);
      assert rows == [rows[0]] + rows[1..];
    }
  }

  lemma {:induction false} OthersExactly(rows: seq<Passkey>, id: CredId, p: Passkey)
    ensures p in Others(rows, id) <==> p in rows && p.id != id
  {
    if rows != [] {
      OthersExactly(rows[..|rows| - 1], id, p);
      assert rows == rows[..|rows| - 1] + [rows[|rows| - 1]];
    }
  }

  lemma AnyAtMember(rows: seq<Passkey>, rpId: RpId)
    ensures AnyAt(rows, rpId) <==> exists p :: p in rows && p.rpId == rpId
  {
    if p :| p in rows && p.rpId == rpId {
      var i :| 0 <= i < |rows| && rows[i] == p;
    }
  }

  lemma AdminIdsMember(rows: seq<Passkey>, rpId: RpId, except: CredId)
    ensures AdminIds(rows, rpId, except) != {} <==> exists p :: p in rows && p.scope.Admin? && p.rpId == rpId && p.id != except
  {
    if p :| p in rows && p.scope.Admin? && p.rpId == rpId && p.id != except {
      var i :| 0 <= i < |rows| && rows[i] == p;
      assert rows[i].id in AdminIds(rows, rpId, except);
    }
    if AdminIds(rows, rpId, except) != {} {
      var id :| id in AdminIds(rows, rpId, except);
    }
  }

  /** A passkey's removal is provable here exactly when another admin passkey could sign here: the refusal,
      the accepted factors and the ceremony's list never disagree. */
  lemma RemovalProvableExactly(s: Install, target: CredId, rpId: RpId)
    ensures PasskeyRemovalRefusal(s, target, rpId) == Fine <==> AdminIds(s.passkeys, rpId, target) != {}
    ensures Accepts(s, OpRemovePasskey, rpId, target).1 <==> Provable(s, OpRemovePasskey, rpId, target) == Fine
  {
    var others := Others(AdminRows(s.passkeys), target);
    AnyAtMember(others, rpId);
    AdminIdsMember(s.passkeys, rpId, target);
    forall p ensures p in others <==> p in s.passkeys && p.scope.Admin? && p.id != target {
      AdminRowsExactly(s.passkeys, p);
      OthersExactly(AdminRows(s.passkeys), target, p);
    }
  }

  lemma {:induction false} AddressesExactly(rows: seq<Passkey>)
    ensures forall a :: a in Addresses(rows) <==> exists p :: p in rows && p.rpId == a
    ensures forall i, j | 0 <= i < j < |Addresses(rows)| :: Addresses(rows)[i] != Addresses(rows)[j]
  {
    if rows != [] {
      var rest, last := rows[..|rows| - 1], rows[|rows| - 1];
      AddressesExactly(rest);
      assert rows == rest + [last];
      forall a ensures a in Addresses(rows) <==> exists p :: p in rows && p.rpId == a {
        if a in Addresses(rest) {
          var p :| p in rest && p.rpId == a;
          assert p in rows;
        }
        if a == last.rpId {
          assert last in rows;
        }
      }
    }
  }

  /** What a refused passkey removal tells: the addresses of the admin passkeys that would remain, each once,
      none of them this one, and whether there is a password. */
  lemma RefusalNamesTheRest(s: Install, target: CredId, rpId: RpId)
    requires PasskeyRemovalRefusal(s, target, rpId) != Fine
    ensures var r := PasskeyRemovalRefusal(s, target, rpId);
      && r.LastPasskey? && r.hasPassword == s.password.Some? && rpId !in r.elsewhere
      && (forall a :: a in r.elsewhere <==> exists p :: p in s.passkeys && p.scope.Admin? && p.id != target && p.rpId == a)
      && (forall i, j | 0 <= i < j < |r.elsewhere| :: r.elsewhere[i] != r.elsewhere[j])
  {
    var others := Others(AdminRows(s.passkeys), target);
    AddressesExactly(others);
    AnyAtMember(others, rpId);
    forall p ensures p in others <==> p in s.passkeys && p.scope.Admin? && p.id != target {
      AdminRowsExactly(s.passkeys, p);
      OthersExactly(AdminRows(s.passkeys), target, p);
    }
  }

  // ---- steps ----

  datatype Op =
    | SetPw(next: string, admitted: bool)
    | ChangePw(pres: Presented, next: string, session: SessionId, admitted: bool, admittedAgain: bool)
    | RemovePw(pres: Presented, rpId: RpId, session: SessionId, admitted: bool)
    | RemoveKey(pres: Presented, target: CredId, rpId: RpId, session: SessionId, admitted: bool)
    | Begin(rpId: RpId, op: ProofOp, target: CredId, session: SessionId, admitted: bool)
    | Finish(key: Token, rpId: RpId, session: SessionId, admitted: bool, signer: CredId)
    | BeginAdd(pres: Presented, rpId: RpId, session: SessionId, admitted: bool)
    | BeginFirst(rpId: RpId, admitted: bool)
    | FinishFirst(key: Token, rpId: RpId, id: CredId, session: SessionId)
    | Register(key: Token, rpId: RpId, scope: Scope, id: CredId)
    | BeginDevice(rpId: RpId, udid: string)
    | Login(session: SessionId, minter: Option<CredId>)

  function Apply(s: Install, now: int, op: Op): (Install, Answer) {
    match op
    case SetPw(next, admitted) => SetPassword(s, next, admitted)
    case ChangePw(pres, next, session, a, b) => ChangePassword(s, now, pres, next, session, a, b)
    case RemovePw(pres, rpId, session, a) => RemovePassword(s, now, pres, rpId, session, a)
    case RemoveKey(pres, target, rpId, session, a) => RemovePasskey(s, now, pres, target, rpId, session, a)
    case Begin(rpId, o, target, session, a) => BeginReauth(s, now, rpId, o, target, session, a)
    case Finish(key, rpId, session, a, signer) => FinishReauth(s, now, key, rpId, session, a, signer)
    case BeginAdd(pres, rpId, session, a) => BeginAddPasskey(s, now, pres, rpId, session, a)
    case BeginFirst(rpId, a) => BeginSetup(s, now, rpId, a)
    case FinishFirst(key, rpId, id, session) => FinishSetup(s, now, key, rpId, id, session)
    case Register(key, rpId, scope, id) => FinishRegistration(s, now, key, rpId, scope, id)
    case BeginDevice(rpId, udid) => PutRegistration(s, now, rpId, Device(udid))
    case Login(session, minter) => (s.(sessions := s.sessions[session := minter]), Done)
  }

  // ---- nobody is locked out ----

  lemma {:induction false} WithoutExactly(rows: seq<Passkey>, id: CredId, p: Passkey)
    ensures p in Without(rows, id) <==> p in rows && p.id != id
  {
    if rows != [] {
      WithoutExactly(rows[1..], id, p);
      assert rows == [rows[0]] + rows[1..];
    }
  }

  lemma HasAdminMember(s: Install)
    ensures HasAdmin(s) <==> s.password.Some? || exists p :: p in s.passkeys && p.scope.Admin?
  {
    if p :| p in s.passkeys && p.scope.Admin? {
      var i :| 0 <= i < |s.passkeys| && s.passkeys[i] == p;
    }
  }

  lemma PresentKeeps(s: Install, now: int, pres: Presented, op: ProofOp, target: CredId, session: SessionId, admitted: bool)
    ensures var t := RequirePresent(s, now, pres, op, target, session, admitted).s;
      t.passkeys == s.passkeys && t.password == s.password
  {
  }

  /** A removal takes that passkey's rows and no password, and only where something else could prove it. */
  lemma RemovePasskeyTakes(s: Install, now: int, pres: Presented, target: CredId, rpId: RpId, session: SessionId, admitted: bool)
    ensures var (t, answer) := RemovePasskey(s, now, pres, target, rpId, session, admitted);
      && t.password == s.password
      && (t.passkeys == s.passkeys || t.passkeys == Without(s.passkeys, target))
      && (t.passkeys != s.passkeys && Configured(s) ==> s.password.Some? || ProversOf(s, OpRemovePasskey, rpId, target) != {}
                                                        || PasskeyRemovalRefusal(s, target, rpId) == Fine)
  {
    hide RequirePresent, ProversOf, PasskeyRemovalRefusal, Without, EndSessions;
    PresentKeeps(s, now, pres, OpRemovePasskey, target, session, admitted);
  }

  lemma RemovePasskeyKeeps(s: Install, now: int, pres: Presented, target: CredId, rpId: RpId, session: SessionId, admitted: bool)
    ensures var t := RemovePasskey(s, now, pres, target, rpId, session, admitted).0;
      (HasAdmin(s) ==> HasAdmin(t)) && (Configured(s) ==> Configured(t))
  {
    hide RemovePasskey, PasskeyRemovalRefusal, Accepts, Provable, Without;
    var t := RemovePasskey(s, now, pres, target, rpId, session, admitted).0;
    RemovePasskeyTakes(s, now, pres, target, rpId, session, admitted);
    if t.passkeys != s.passkeys && Configured(s) && s.password.None? {
      RemovalProvableExactly(s, target, rpId);
      AdminIdsMember(s.passkeys, rpId, target);
      var p :| p in s.passkeys && p.scope.Admin? && p.rpId == rpId && p.id != target;
      WithoutExactly(s.passkeys, target, p);
      HasAdminMember(t);
    }
  }

  lemma RemovePasswordKeeps(s: Install, now: int, pres: Presented, rpId: RpId, session: SessionId, admitted: bool)
    ensures var t := RemovePassword(s, now, pres, rpId, session, admitted).0;
      (HasAdmin(s) ==> HasAdmin(t)) && (Configured(s) ==> Configured(t))
  {
    var (t, answer) := RemovePassword(s, now, pres, rpId, session, admitted);
    if answer == Done && Configured(s) {
      AdminIdsMember(s.passkeys, rpId, "");
      HasAdminMember(t);
    }
  }

  lemma RegistrationKeeps(s: Install, now: int, key: Token, rpId: RpId, scope: Scope, id: CredId)
    ensures var t := FinishRegistration(s, now, key, rpId, scope, id).0;
      t.password == s.password && s.passkeys <= t.passkeys && (HasAdmin(s) ==> HasAdmin(t)) && (Configured(s) ==> Configured(t))
  {
    var t := FinishRegistration(s, now, key, rpId, scope, id).0;
    if s.password.None? && HasAdmin(s) {
      var i :| 0 <= i < |s.passkeys| && s.passkeys[i].scope.Admin?;
      assert t.passkeys[i] == s.passkeys[i];
    }
  }

  /** No step takes an install from a password or an admin passkey to neither, nor from configured to not. */
  lemma StepKeepsTheOwner(s: Install, now: int, op: Op)
    ensures HasAdmin(s) ==> HasAdmin(Apply(s, now, op).0)
    ensures Configured(s) ==> Configured(Apply(s, now, op).0)
  {
    match op {
      case RemoveKey(pres, target, rpId, session, a) => RemovePasskeyKeeps(s, now, pres, target, rpId, session, a);
      case RemovePw(pres, rpId, session, a) => RemovePasswordKeeps(s, now, pres, rpId, session, a);
      case Register(key, rpId, scope, id) => RegistrationKeeps(s, now, key, rpId, scope, id);
      case FinishFirst(key, rpId, id, _) => RegistrationKeeps(s, now, key, rpId, Admin, id);
      case _ => KeepsPasskeys(s, now, op);
    }
  }

  lemma KeepsPasskeys(s: Install, now: int, op: Op)
    requires !op.RemoveKey? && !op.RemovePw? && !op.Register? && !op.FinishFirst?
    ensures Apply(s, now, op).0.passkeys == s.passkeys && (s.password.Some? ==> Apply(s, now, op).0.password.Some?)
  {
  }

  // ---- runs, with what happened written down ----

  /** `admins` are the admin passkeys of the address when the ceremony began, without the target of a removal. */
  datatype Began = Began(session: SessionId, op: ProofOp, target: CredId, rpId: RpId, admins: set<CredId>, at: int)

  /** `stored` are the passkeys of the address when the assertion was checked. */
  datatype Finished = Finished(key: Token, signer: CredId, session: SessionId, stored: set<CredId>, at: int)

  function StoredAt(rows: seq<Passkey>, rpId: RpId): set<CredId> {
    set i | 0 <= i < |rows| && rows[i].rpId == rpId :: rows[i].id
  }

  /** A change made on the strength of a proof. */
  datatype Change = Change(token: Token, op: ProofOp, target: CredId, session: SessionId, at: int)

  datatype Trace = Trace(s: Install, clock: int, began: map<Token, Began>, finished: map<Token, Finished>, changes: seq<Change>)

  /** The proof, operation and target an op presents, when it presents one. */
  function Offer(op: Op): Option<(Token, ProofOp, CredId, SessionId)> {
    match op
    case ChangePw(pres, _, session, _, _) => if pres.proof.Some? then Some((pres.proof.value, OpSetPassword, "", session)) else None
    case RemovePw(pres, _, session, _) => if pres.proof.Some? then Some((pres.proof.value, OpRemovePassword, "", session)) else None
    case RemoveKey(pres, target, _, session, _) => if pres.proof.Some? then Some((pres.proof.value, OpRemovePasskey, target, session)) else None
    case BeginAdd(pres, _, session, _) => if pres.proof.Some? then Some((pres.proof.value, OpAddPasskey, "", session)) else None
    case _ => None
  }

  predicate Succeeded(answer: Answer) { answer.Done? || answer.Minted? }

  function Record(t: Trace, now: int, op: Op): Trace {
    var (s, answer) := Apply(t.s, now, op);
    var u := t.(s := s, clock := now);
    if op.Begin? && answer.Minted? then
      u.(began := t.began[answer.token := Began(op.session, op.op, op.target, op.rpId, ProversOf(t.s, op.op, op.rpId, op.target), now)])
    else if op.Finish? && answer.Minted? then
      u.(finished := t.finished[answer.token := Finished(op.key, op.signer, op.session, StoredAt(t.s.passkeys, op.rpId), now)])
    else if Offer(op).Some? && Configured(t.s) && Succeeded(answer) then
      var o := Offer(op).value;
      u.(changes := t.changes + [Change(o.0, o.1, o.2, o.3, now)])
    else u
  }

  datatype Call = Call(now: int, op: Op)

  function Run(t: Trace, calls: seq<Call>): Trace {
    if calls == [] then t else Record(Run(t, calls[..|calls| - 1]), calls[|calls| - 1].now, calls[|calls| - 1].op)
  }

  lemma {:induction false} RunsKeepTheOwner(t: Trace, calls: seq<Call>)
    ensures HasAdmin(t.s) ==> HasAdmin(Run(t, calls).s)
    ensures Configured(t.s) ==> Configured(Run(t, calls).s)
  {
    if calls != [] {
      var last := |calls| - 1;
      RunsKeepTheOwner(t, calls[..last]);
      StepKeepsTheOwner(Run(t, calls[..last]).s, calls[last].now, calls[last].op);
      RecordedState(Run(t, calls[..last]), calls[last].now, calls[last].op);
    }
  }

  lemma RecordedState(t: Trace, now: int, op: Op)
    ensures Record(t, now, op).s == Apply(t.s, now, op).0 && Record(t, now, op).clock == now
  {
    hide Apply, Configured;
  }
}
