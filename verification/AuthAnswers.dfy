/** What each operation on the credential set answers and leaves, in the fields of the install: exactly when it goes
    through, and what is then changed and what is not. */
module AuthAnswers {
  import opened Wrappers
  import opened AuthCredentials
  import opened AuthSafety

  // ---- showing who one is ----

  /** Something good enough is presented for this operation: on an unclaimed install nothing is asked; a proof must be
      pending, unexpired, and made for this operation, target and session; without one the password must be right and the
      attempt admitted. */
  ghost predicate Shows(s: Install, now: int, pres: Presented, op: ProofOp, target: CredId, session: SessionId, admitted: bool) {
    if s.password.None? && s.passkeys == [] then true
    else if pres.proof.Some? then
      exists expires, subject :: pres.proof.value in s.proofs && now <= expires
        && s.proofs[pres.proof.value] == Proof(op, target, subject, session, expires)
    else pres.password != "" && s.password == Some(pres.password) && admitted
  }

  /** Whose showing it was. */
  function ShownBy(s: Install, pres: Presented): Subject {
    if s.password.None? && s.passkeys == [] then Nobody
    else if pres.proof.Some? then if pres.proof.value in s.proofs then s.proofs[pres.proof.value].subject else Nobody
    else ThePassword
  }

  /** The install without the proof that was shown, whether it was good or not. */
  function Spent(s: Install, pres: Presented): Install {
    if pres.proof.Some? && (s.password.Some? || s.passkeys != []) then s.(proofs := s.proofs - {pres.proof.value}) else s
  }

  lemma PresentsExactly(s: Install, now: int, pres: Presented, op: ProofOp, target: CredId, session: SessionId, admitted: bool)
    ensures var shown := RequirePresent(s, now, pres, op, target, session, admitted);
      && (shown.answer == Done <==> Shows(s, now, pres, op, target, session, admitted))
      && (shown.answer == Done ==> shown.subject == ShownBy(s, pres))
      && shown.s == Spent(s, pres)
      && !shown.answer.Minted?
  {
    if pres.proof.Some? && pres.proof.value in s.proofs {
      var p := s.proofs[pres.proof.value];
      assert p == Proof(p.op, p.target, p.subject, p.session, p.expires);
    }
  }

  /** Why a showing is not good enough: a proof is unknown, expired or another session's, or for something else; nothing
      was shown; the attempt is not admitted; or the password is wrong. */
  lemma WhyNotShown(s: Install, now: int, pres: Presented, op: ProofOp, target: CredId, session: SessionId, admitted: bool)
    requires Configured(s)
    ensures var answer := RequirePresent(s, now, pres, op, target, session, admitted).answer;
      if pres.proof.Some? then
        var k := pres.proof.value;
        if k !in s.proofs || now > s.proofs[k].expires then answer == NoProof
        else if s.proofs[k].op != op || s.proofs[k].target != target then answer == ProofNotForThis
        else s.proofs[k].session != session ==> answer == NoProof
      else
        && (pres.password == "" || s.password.None? ==> answer == NoProof)
        && (pres.password != "" && s.password.Some? && !admitted ==> answer == RateLimited)
        && (pres.password != "" && s.password.Some? && admitted && s.password.value != pres.password ==> answer == BadPassword)
  {
  }

  // ---- sessions ----

  /** The sessions this credential minted are over, the one that asked excepted; every other goes on as it was. */
  lemma SessionsEnd(sessions: map<SessionId, Option<CredId>>, minter: Option<CredId>, except: SessionId, x: SessionId)
    ensures var left := EndSessions(sessions, minter, except);
      && (x in left <==> x in sessions && (sessions[x] != minter || x == except))
      && (x in left ==> left[x] == sessions[x])
  {
  }

  // ---- passwords ----

  /** The first password is set exactly on an unclaimed install, to a text that is not empty, by an admitted attempt. */
  lemma SetPasswordExactly(s: Install, next: string, admitted: bool)
    ensures var (t, answer) := SetPassword(s, next, admitted);
      && (answer == Done <==> admitted && next != "" && s.password.None? && s.passkeys == [])
      && t == (if answer == Done then s.(password := Some(next)) else s)
  {
  }

  /** A password is changed exactly when the new one is not empty and something good enough is shown; it is then the text
      given, and the other password sessions are over. */
  lemma ChangePasswordExactly(s: Install, now: int, pres: Presented, next: string, session: SessionId, admitted: bool, again: bool)
    ensures var (t, answer) := ChangePassword(s, now, pres, next, session, admitted, again);
      && (answer == Done <==> admitted && next != "" && Shows(s, now, pres, OpSetPassword, "", session, again))
      && (answer == Done ==> t == Spent(s, pres).(password := Some(next), sessions := EndSessions(s.sessions, None, session)))
      && (answer != Done ==> t == (if admitted && next != "" then Spent(s, pres) else s))
  {
    PresentsExactly(s, now, pres, OpSetPassword, "", session, again);
    hide RequirePresent, Shows, Spent;
  }

  /** An admin passkey of this address, other than `except`, is stored. */
  predicate AnotherAdminHere(s: Install, rpId: RpId, except: CredId) {
    exists i :: 0 <= i < |s.passkeys| && s.passkeys[i].scope.Admin? && s.passkeys[i].rpId == rpId && s.passkeys[i].id != except
  }

  lemma ProversExactly(s: Install, op: ProofOp, rpId: RpId, target: CredId)
    ensures ProversOf(s, op, rpId, target) != {} <==> AnotherAdminHere(s, rpId, if op == OpRemovePasskey then target else "")
  {
    var except := if op == OpRemovePasskey then target else "";
    AdminIdsMember(s.passkeys, rpId, except);
    if AnotherAdminHere(s, rpId, except) {
      var i :| 0 <= i < |s.passkeys| && s.passkeys[i].scope.Admin? && s.passkeys[i].rpId == rpId && s.passkeys[i].id != except;
      assert s.passkeys[i] in s.passkeys;
    }
  }

  /** The password of a claimed install is removed exactly where an admin passkey works at this address, on a proof shown
      for that; the password does not remove itself. */
  lemma RemovePasswordExactly(s: Install, now: int, pres: Presented, rpId: RpId, session: SessionId, admitted: bool)
    requires Configured(s)
    ensures var (t, answer) := RemovePassword(s, now, pres, rpId, session, admitted);
      && (answer == Done <==>
            AnotherAdminHere(s, rpId, "") && Shows(s, now, pres, OpRemovePassword, "", session, admitted) && ShownBy(s, pres) != ThePassword)
      && (answer == Done ==> t == Spent(s, pres).(password := None, sessions := EndSessions(s.sessions, None, session)))
      && (answer != Done ==> t == (if AnotherAdminHere(s, rpId, "") then Spent(s, pres) else s))
  {
    ProversExactly(s, OpRemovePassword, rpId, "");
    PresentsExactly(s, now, pres, OpRemovePassword, "", session, admitted);
    hide RequirePresent, Shows, Spent, ProversOf, AnotherAdminHere, ShownBy, PasswordRemovalRefusal;
  }

  /** Why a password stays as it is, beyond what was shown: an empty text, an attempt not admitted, an install that has an
      owner; and for a removal, that it would leave no way in here, or was asked on the strength of the password. */
  lemma WhyNotChanged(s: Install, now: int, pres: Presented, next: string, rpId: RpId, session: SessionId, admitted: bool, again: bool)
    ensures !admitted ==> SetPassword(s, next, admitted).1 == RateLimited && ChangePassword(s, now, pres, next, session, admitted, again).1 == RateLimited
    ensures admitted && next == "" ==>
      SetPassword(s, next, admitted).1 == Weak && ChangePassword(s, now, pres, next, session, admitted, again).1 == Weak
    ensures admitted && next != "" && Configured(s) ==> SetPassword(s, next, admitted).1 == AlreadyConfigured
    ensures Configured(s) && !AnotherAdminHere(s, rpId, "") ==>
      RemovePassword(s, now, pres, rpId, session, admitted).1 == Refused(PasswordRemovalRefusal(s, rpId))
    ensures Configured(s) && AnotherAdminHere(s, rpId, "") && ShownBy(s, pres) == ThePassword
              && Shows(s, now, pres, OpRemovePassword, "", session, admitted) ==>
      RemovePassword(s, now, pres, rpId, session, admitted).1 == Refused(PasswordRemovalRefusal(s, rpId))
  {
    ProversExactly(s, OpRemovePassword, rpId, "");
    PresentsExactly(s, now, pres, OpRemovePassword, "", session, admitted);
    hide RequirePresent, Shows, Spent, ProversOf, AnotherAdminHere, ShownBy, PasswordRemovalRefusal;
  }

  // ---- passkeys ----

  /** A passkey of a claimed install is removed exactly when it is stored, something could prove that here, and something
      good enough other than itself is shown; then it alone goes, and the other sessions it minted are over. */
  lemma RemovePasskeyExactly(s: Install, now: int, pres: Presented, target: CredId, rpId: RpId, session: SessionId, admitted: bool)
    requires Configured(s) && target != ""
    ensures var (t, answer) := RemovePasskey(s, now, pres, target, rpId, session, admitted);
      var provable := s.password.Some? || AnotherAdminHere(s, rpId, target);
      && (answer == Done <==>
            && provable && Shows(s, now, pres, OpRemovePasskey, target, session, admitted) && ShownBy(s, pres) != Credential(target)
            && exists i :: 0 <= i < |s.passkeys| && s.passkeys[i].id == target)
      && (answer == Done ==>
            t == Spent(s, pres).(passkeys := Without(s.passkeys, target), sessions := EndSessions(s.sessions, Some(target), session)))
      && (answer != Done ==> t == (if provable then Spent(s, pres) else s))
  {
    ProversExactly(s, OpRemovePasskey, rpId, target);
    RemovalProvableExactly(s, target, rpId);
    PresentsExactly(s, now, pres, OpRemovePasskey, target, session, admitted);
    hide RequirePresent, Shows, Spent, ProversOf, AnotherAdminHere, ShownBy, PasskeyRemovalRefusal, AdminIds;
  }

  /** What is left of the rows, in the order they were in. */
  lemma {:induction false} WithoutInOrder(rows: seq<Passkey>, id: CredId)
    ensures forall p :: p in Without(rows, id) <==> p in rows && p.id != id
    ensures forall p: Passkey | p.id != id :: Without(rows + [p], id) == Without(rows, id) + [p]
    ensures forall p: Passkey | p.id == id :: Without(rows + [p], id) == Without(rows, id)
  {
    forall p ensures p in Without(rows, id) <==> p in rows && p.id != id {
      WithoutExactly(rows, id, p);
    }
    forall p: Passkey ensures Without(rows + [p], id) == Without(rows, id) + if p.id == id then [] else [p] {
      WithoutAppends(rows, id, p);
    }
  }

  lemma {:induction false} WithoutAppends(rows: seq<Passkey>, id: CredId, p: Passkey)
    ensures Without(rows + [p], id) == Without(rows, id) + if p.id == id then [] else [p]
  {
    if rows == [] {
      assert rows + [p] == [p] && [p][1..] == [];
    } else {
      assert (rows + [p])[1..] == rows[1..] + [p];
      WithoutAppends(rows[1..], id, p);
    }
  }

  // ---- reauthentication ----

  /** A ceremony begins exactly for an operation with the target it takes, by a session, where something could prove it
      (for the two removals an admin passkey of this address, other than a removal's target), when admitted.  It is
      remembered under a new token for two minutes, with the list of those passkeys; the expired ones are dropped. */
  lemma BeginExactly(s: Install, now: int, rpId: RpId, op: ProofOp, target: CredId, session: SessionId, admitted: bool)
    requires forall i | 0 <= i < |s.passkeys| :: s.passkeys[i].id != ""
    ensures var (t, answer) := BeginReauth(s, now, rpId, op, target, session, admitted);
      && (answer.Minted? <==>
            && (op == OpRemovePasskey <==> target != "") && session != "" && admitted
            && (op == OpRemovePasskey ==> AnotherAdminHere(s, rpId, target)) && (op == OpRemovePassword ==> AnotherAdminHere(s, rpId, "")))
      && (!answer.Minted? ==> t == s)
      && (answer.Minted? ==>
            && answer.token == s.nextToken && t == s.(ceremonies := t.ceremonies, nextToken := s.nextToken + 1)
            && answer.token in t.ceremonies
            && t.ceremonies[answer.token] == Ceremony(rpId, op, target, session, now + 120, t.ceremonies[answer.token].allowed)
            && (forall i :: i in t.ceremonies[answer.token].allowed <==>
                  exists j :: 0 <= j < |s.passkeys| && s.passkeys[j] == Passkey(i, rpId, Admin) && !(op == OpRemovePasskey && i == target))
            && (forall k | k != answer.token :: k in t.ceremonies <==> k in s.ceremonies && now <= s.ceremonies[k].expires)
            && (forall k | k != answer.token && k in t.ceremonies :: t.ceremonies[k] == s.ceremonies[k]))
  {
    ProvableExactly(s, op, rpId, target);
    ListExactly(s, op, rpId, target);
    hide Provable, ProversOf, AnotherAdminHere;
  }

  lemma ProvableExactly(s: Install, op: ProofOp, rpId: RpId, target: CredId)
    requires forall i | 0 <= i < |s.passkeys| :: s.passkeys[i].id != ""
    ensures Provable(s, op, rpId, target) == Fine <==>
      (op == OpRemovePasskey ==> AnotherAdminHere(s, rpId, target)) && (op == OpRemovePassword ==> AnotherAdminHere(s, rpId, ""))
  {
    ProversExactly(s, op, rpId, target);
    RemovalProvableExactly(s, target, rpId);
    if op == OpRemovePassword {
      var admin := AdminRows(s.passkeys);
      AnyAtMember(admin, rpId);
      AdminIdsMember(s.passkeys, rpId, "");
      forall p ensures p in admin <==> p in s.passkeys && p.scope.Admin? {
        AdminRowsExactly(s.passkeys, p);
      }
    }
  }

  lemma ListExactly(s: Install, op: ProofOp, rpId: RpId, target: CredId)
    requires forall i | 0 <= i < |s.passkeys| :: s.passkeys[i].id != ""
    ensures forall i :: i in ProversOf(s, op, rpId, target) <==>
      exists j :: 0 <= j < |s.passkeys| && s.passkeys[j] == Passkey(i, rpId, Admin) && !(op == OpRemovePasskey && i == target)
  {
    forall i ensures i in ProversOf(s, op, rpId, target) <==>
      exists j :: 0 <= j < |s.passkeys| && s.passkeys[j] == Passkey(i, rpId, Admin) && !(op == OpRemovePasskey && i == target)
    {
    }
  }

  /** An assertion mints a proof exactly when the attempt is admitted, its ceremony is pending and unexpired, it comes from
      the session and the address the ceremony began at, a passkey of that id is stored at that address, and the
      ceremony's list, when it has one, names it.  The proof is for that operation and target, by that passkey, for two
      minutes; the ceremony is over however it went, and expired proofs are dropped. */
  lemma FinishExactly(s: Install, now: int, key: Token, rpId: RpId, session: SessionId, admitted: bool, signer: CredId)
    ensures var (t, answer) := FinishReauth(s, now, key, rpId, session, admitted, signer);
      && (answer.Minted? <==>
            && admitted && key in s.ceremonies && now <= s.ceremonies[key].expires
            && s.ceremonies[key].session == session && s.ceremonies[key].rpId == rpId && signer != ""
            && (exists i :: 0 <= i < |s.passkeys| && s.passkeys[i].id == signer && s.passkeys[i].rpId == rpId)
            && (s.ceremonies[key].allowed == {} || signer in s.ceremonies[key].allowed))
      && (!admitted ==> t == s)
      && (admitted && !answer.Minted? ==> t == s.(ceremonies := s.ceremonies - {key}))
      && (answer.Minted? ==>
            && answer.token == s.nextToken
            && t == s.(ceremonies := s.ceremonies - {key}, proofs := t.proofs, nextToken := s.nextToken + 1)
            && answer.token in t.proofs
            && t.proofs[answer.token]
               == Proof(s.ceremonies[key].op, s.ceremonies[key].target, Credential(signer), session, now + 120)
            && (forall k | k != answer.token :: k in t.proofs <==> k in s.proofs && now <= s.proofs[k].expires)
            && (forall k | k != answer.token && k in t.proofs :: t.proofs[k] == s.proofs[k]))
  {
  }

  /** Why an assertion mints nothing. */
  lemma WhyNotMinted(s: Install, now: int, key: Token, rpId: RpId, session: SessionId, admitted: bool, signer: CredId)
    ensures var answer := FinishReauth(s, now, key, rpId, session, admitted, signer).1;
      && (!admitted ==> answer == RateLimited)
      && (admitted && (key !in s.ceremonies || now > s.ceremonies[key].expires || s.ceremonies[key].session != session) ==> answer == NoChallenge)
      && (admitted && key in s.ceremonies && now <= s.ceremonies[key].expires && s.ceremonies[key].session == session ==>
            && (s.ceremonies[key].rpId != rpId ==> answer == AddressMismatch)
            && (s.ceremonies[key].rpId == rpId && !answer.Minted? ==> answer == Denied))
  {
  }

  // ---- registration ----

  /** A registration is remembered for its address and scope under a new token, for two minutes. */
  lemma RegistrationBegins(s: Install, now: int, rpId: RpId, scope: Scope)
    ensures var (t, answer) := PutRegistration(s, now, rpId, scope);
      && answer == Minted(s.nextToken) && t == s.(registrations := t.registrations, nextToken := s.nextToken + 1)
      && s.nextToken in t.registrations && t.registrations[s.nextToken] == Registration(rpId, scope, now + 120)
      && (forall k | k != s.nextToken :: k in t.registrations <==> k in s.registrations && now <= s.registrations[k].expires)
      && (forall k | k != s.nextToken && k in t.registrations :: t.registrations[k] == s.registrations[k])
  {
  }

  /** A passkey is stored exactly when its ceremony is pending, unexpired, and for this address and scope, and its id is
      new; the ceremony is over however it went. */
  lemma RegistrationFinishesExactly(s: Install, now: int, key: Token, rpId: RpId, scope: Scope, id: CredId)
    ensures var (t, answer) := FinishRegistration(s, now, key, rpId, scope, id);
      && (answer == Done <==>
            && key in s.registrations && now <= s.registrations[key].expires
            && s.registrations[key].rpId == rpId && s.registrations[key].scope == scope
            && id != "" && forall i | 0 <= i < |s.passkeys| :: s.passkeys[i].id != id)
      && t == s.(registrations := s.registrations - {key},
                 passkeys := if answer == Done then s.passkeys + [Passkey(id, rpId, scope)] else s.passkeys)
  {
  }

  /** Adding a passkey asks for something good enough, a proof for that or the password, and begins an admin registration
      here; first-run setup asks for an unclaimed install instead. */
  lemma RegistrationsAskedExactly(s: Install, now: int, pres: Presented, rpId: RpId, session: SessionId, admitted: bool)
    ensures var (t, answer) := BeginAddPasskey(s, now, pres, rpId, session, admitted);
      && (answer.Minted? <==> Shows(s, now, pres, OpAddPasskey, "", session, admitted))
      && (if answer.Minted? then (t, answer) == PutRegistration(Spent(s, pres), now, rpId, Admin) else t == Spent(s, pres))
    ensures var (t, answer) := BeginSetup(s, now, rpId, admitted);
      && (answer.Minted? <==> admitted && s.password.None? && s.passkeys == [])
      && (if answer.Minted? then (t, answer) == PutRegistration(s, now, rpId, Admin) else t == s)
  {
    PresentsExactly(s, now, pres, OpAddPasskey, "", session, admitted);
    hide RequirePresent, Shows, Spent;
  }

  /** The finish of first-run setup claims an unclaimed install with the passkey registered, and mints its session. */
  lemma SetupFinishesExactly(s: Install, now: int, key: Token, rpId: RpId, id: CredId, session: SessionId)
    ensures var (t, answer) := FinishSetup(s, now, key, rpId, id, session);
      var (u, stored) := FinishRegistration(s, now, key, rpId, Admin, id);
      && (answer == Done <==> s.password.None? && s.passkeys == [] && stored == Done)
      && t == (if s.password.Some? || s.passkeys != [] then s
               else if stored == Done then u.(sessions := s.sessions[session := Some(id)]) else u)
  {
    hide FinishRegistration;
    RegistrationFinishesExactly(s, now, key, rpId, Admin, id);
  }
}
