/** The auth service as it runs: the store read and written in sequence, the refusals built in loops, the
    pending ceremonies and proofs kept in maps.  Each method takes the step its specification describes. */
module AuthLive {
  import opened Wrappers
  import opened AuthCredentials

  class Service {
    var password: Option<string>
    var passkeys: seq<Passkey>
    var sessions: map<SessionId, Option<CredId>>
    var ceremonies: map<Token, Ceremony>
    var proofs: map<Token, Proof>
    var registrations: map<Token, Registration>
    var nextToken: Token

    ghost function Now(): Install
      reads this
    {
      Install(password, passkeys, sessions, ceremonies, proofs, registrations, nextToken)
    }

    constructor ()
      ensures Now() == Install(None, [], map[], map[], map[], map[], 0)
    {
      password, passkeys, sessions, ceremonies, proofs, registrations, nextToken := None, [], map[], map[], map[], map[], 0;
    }

    // ---- reads ----

    method ListAdminPasskeys() returns (rows: seq<Passkey>)
      ensures rows == AdminRows(passkeys)
    {
      rows := [];
      for i := |passkeys| downto 0
        invariant rows == AdminRows(passkeys[i..])
      {
        rows := (if passkeys[i].scope.Admin? then [passkeys[i]] else []) + rows;
        assert passkeys[i..][0] == passkeys[i] && passkeys[i..][1..] == passkeys[i + 1..];
      }
      assert passkeys[0..] == passkeys;
    }

    static lemma NextOther(rows: seq<Passkey>, i: nat, except: CredId)
      requires i < |rows|
      ensures Others(rows[..i + 1], except)
           == if rows[i].id == except then Others(rows[..i], except) else Others(rows[..i], except) + [rows[i]]
    {
      assert rows[..i + 1][..i] == rows[..i];
    }

    static lemma NextAddress(rows: seq<Passkey>, p: Passkey)
      ensures Addresses(rows + [p]) == if p.rpId in Addresses(rows) then Addresses(rows) else Addresses(rows) + [p.rpId]
    {
      assert (rows + [p])[..|rows|] == rows;
    }

    static lemma NextAt(rows: seq<Passkey>, p: Passkey, here: RpId)
      ensures AnyAt(rows + [p], here) <==> AnyAt(rows, here) || p.rpId == here
    {
      var more := rows + [p];
      assert more[|rows|] == p;
      if AnyAt(rows, here) {
        var j :| 0 <= j < |rows| && rows[j].rpId == here;
        assert more[j] == rows[j];
      }
    }

    /** The addresses of the rows other than `except`, each once; or that one of them is `here`. */
    static method Survey(rows: seq<Passkey>, except: CredId, here: RpId) returns (found: bool, elsewhere: seq<RpId>)
      ensures found == AnyAt(Others(rows, except), here)
      ensures !found ==> elsewhere == Addresses(Others(rows, except))
    {
      hide Others, Addresses, AnyAt;
      found, elsewhere := false, [];
      var seen: set<RpId> := {};
      NobodyYet(rows, except, here);
      for i := 0 to |rows|
        invariant elsewhere == Addresses(Others(rows[..i], except))
        invariant forall a :: a in seen <==> a in elsewhere
        invariant !AnyAt(Others(rows[..i], except), here)
      {
        NextOther(rows, i, except);
        NextAddress(Others(rows[..i], except), rows[i]);
        NextAt(Others(rows[..i], except), rows[i], here);
        if rows[i].id == except {
          continue;
        }
        if rows[i].rpId == here {
          OthersGrow(rows, i + 1, except, here);
          return true, elsewhere;
        }
        if rows[i].rpId !in seen {
          seen := seen + {rows[i].rpId};
          elsewhere := elsewhere + [rows[i].rpId];
        }
      }
    }

    static lemma NobodyYet(rows: seq<Passkey>, except: CredId, here: RpId)
      ensures Addresses(Others(rows[..0], except)) == [] && !AnyAt(Others(rows[..0], except), here)
      ensures rows[..|rows|] == rows
    {
    }

    static lemma {:induction false} OthersGrow(rows: seq<Passkey>, n: nat, except: CredId, here: RpId)
      requires n <= |rows| && AnyAt(Others(rows[..n], except), here)
      ensures AnyAt(Others(rows, except), here)
      decreases |rows|
    {
      if n == |rows| {
        assert rows[..n] == rows;
      } else {
        var rest := rows[..|rows| - 1];
        assert rest[..n] == rows[..n];
        OthersGrow(rest, n, except, here);
        var i :| 0 <= i < |Others(rest, except)| && Others(rest, except)[i].rpId == here;
        assert Others(rows, except)[i] == Others(rest, except)[i];
      }
    }

    /** No stored credential has the empty id, so nothing is left out. */
    static lemma {:induction false} NobodyIsNameless(rows: seq<Passkey>)
      requires forall i | 0 <= i < |rows| :: rows[i].id != ""
      ensures Others(rows, "") == rows
    {
      if rows != [] {
        NobodyIsNameless(rows[..|rows| - 1]);
      }
    }

    ghost predicate Valid()
      reads this
    {
      forall i | 0 <= i < |passkeys| :: passkeys[i].id != ""
    }

    static lemma {:induction false} AdminRowsNamed(rows: seq<Passkey>)
      requires forall i | 0 <= i < |rows| :: rows[i].id != ""
      ensures forall i | 0 <= i < |AdminRows(rows)| :: AdminRows(rows)[i].id != ""
    {
      if rows != [] {
        AdminRowsNamed(rows[1..]);
      }
    }

    method PasswordRefusal(rpId: RpId) returns (r: Refusal)
      requires Valid()
      ensures r == PasswordRemovalRefusal(Now(), rpId)
    {
      var rows := ListAdminPasskeys();
      AdminRowsNamed(passkeys);
      NobodyIsNameless(rows);
      var found, elsewhere := Survey(rows, "", rpId);
      r := if found then SelfRemoval else LastCredential(elsewhere);
    }

    method PasskeyRefusal(target: CredId, rpId: RpId) returns (r: Refusal)
      ensures r == PasskeyRemovalRefusal(Now(), target, rpId)
    {
      var rows := ListAdminPasskeys();
      var found, elsewhere := Survey(rows, target, rpId);
      r := if found then Fine else LastPasskey(elsewhere, password.Some?);
    }

    method IsProvable(op: ProofOp, rpId: RpId, target: CredId) returns (r: Refusal)
      requires Valid()
      ensures r == Provable(Now(), op, rpId, target)
    {
      match op {
        case OpRemovePasskey => r := PasskeyRefusal(target, rpId);
        case OpRemovePassword =>
          var rows := ListAdminPasskeys();
          AdminRowsNamed(passkeys);
          NobodyIsNameless(rows);
          var found, elsewhere := Survey(rows, "", rpId);
          r := if found then Fine else LastCredential(elsewhere);
        case _ => r := Fine;
      }
    }

    /** The ceremony's list: admin credentials of this address, without the one on its way out. */
    method Allowed(rpId: RpId, except: CredId) returns (ids: set<CredId>)
      ensures ids == AdminIds(passkeys, rpId, except)
    {
      ids := {};
      for i := 0 to |passkeys|
        invariant ids == AdminIds(passkeys[..i], rpId, except)
      {
        var p := passkeys[i];
        ghost var was := ids;
        if p.scope.Admin? && p.rpId == rpId && p.id != except {
          ids := ids + {p.id};
        }
        forall id ensures id in AdminIds(passkeys[..i + 1], rpId, except) <==> id in ids {
          if id in was {
            var j :| 0 <= j < i && passkeys[..i][j].scope.Admin? && passkeys[..i][j].rpId == rpId
                     && passkeys[..i][j].id != except && passkeys[..i][j].id == id;
            assert passkeys[..i + 1][j] == passkeys[..i][j];
          }
          if id == p.id && p.scope.Admin? && p.rpId == rpId && p.id != except {
            assert passkeys[..i + 1][i] == p;
          }
          if id in AdminIds(passkeys[..i + 1], rpId, except) {
            var j :| 0 <= j < i + 1 && passkeys[..i + 1][j].scope.Admin? && passkeys[..i + 1][j].rpId == rpId
                     && passkeys[..i + 1][j].id != except && passkeys[..i + 1][j].id == id;
            if j < i {
              assert passkeys[..i][j] == passkeys[..i + 1][j];
            }
          }
        }
      }
      assert passkeys[..|passkeys|] == passkeys;
    }

    // ---- proofs ----

    method Mint(now: int, p: Proof) returns (token: Token)
      modifies this`proofs, this`nextToken
      ensures (Now(), token) == MintProof(old(Now()), now, p)
    {
      token := nextToken;
      nextToken := nextToken + 1;
      var todo := proofs.Keys;
      ghost var was := proofs;
      while todo != {}
        invariant todo <= was.Keys && nextToken == token + 1
        invariant proofs == map t | t in was && (t in todo || now <= was[t].expires) :: was[t]
      {
        var t :| t in todo;
        todo := todo - {t};
        if now > proofs[t].expires {
          proofs := proofs - {t};
        }
      }
      assert proofs == Unexpired(was, now);
      proofs := proofs[token := p.(expires := now + PROOF_TTL)];
    }

    method Spend(now: int, token: Token, op: ProofOp, target: CredId, session: SessionId) returns (subject: Subject, answer: Answer)
      modifies this`proofs
      ensures Shown(Now(), subject, answer) == Consume(old(Now()), now, token, op, target, session)
    {
      var found := if token in proofs then Some(proofs[token]) else None;
      proofs := proofs - {token};
      if found.None? || now > found.value.expires {
        return Nobody, NoProof;
      }
      if found.value.op != op || found.value.target != target {
        return Nobody, ProofNotForThis;
      }
      if found.value.session != session {
        return Nobody, NoProof;
      }
      return found.value.subject, Done;
    }

    method Present(now: int, pres: Presented, op: ProofOp, target: CredId, session: SessionId, admitted: bool)
      returns (subject: Subject, answer: Answer)
      modifies this`proofs
      ensures Shown(Now(), subject, answer) == RequirePresent(old(Now()), now, pres, op, target, session, admitted)
    {
      if password.None? && passkeys == [] {
        return Nobody, Done;
      }
      if pres.proof.Some? {
        subject, answer := Spend(now, pres.proof.value, op, target, session);
        return;
      }
      if pres.password == "" || password.None? {
        return Nobody, NoProof;
      }
      if !admitted {
        return Nobody, RateLimited;
      }
      if pres.password != password.value {
        return Nobody, BadPassword;
      }
      return ThePassword, Done;
    }

    // ---- reauthentication ----

    method Begin(now: int, rpId: RpId, op: ProofOp, target: CredId, session: SessionId, admitted: bool) returns (answer: Answer)
      requires Valid()
      modifies this`ceremonies, this`nextToken
      ensures Valid() && (Now(), answer) == BeginReauth(old(Now()), now, rpId, op, target, session, admitted)
    {
      if !TargetOk(op, target) {
        return BadTarget;
      }
      if session == "" {
        return NoSession;
      }
      var refusal := IsProvable(op, rpId, target);
      if refusal != Fine {
        return Refused(refusal);
      }
      if !admitted {
        return RateLimited;
      }
      var allowed := Allowed(rpId, if op == OpRemovePasskey then target else "");
      var c := Ceremony(rpId, op, target, session, now + CHALLENGE_TTL, allowed);
      ceremonies := UnexpiredCeremonies(ceremonies, now)[nextToken := c];
      nextToken := nextToken + 1;
      return Minted(nextToken - 1);
    }

    method Finish(now: int, key: Token, rpId: RpId, session: SessionId, admitted: bool, signer: CredId) returns (answer: Answer)
      requires Valid()
      modifies this`ceremonies, this`proofs, this`nextToken
      ensures Valid() && (Now(), answer) == FinishReauth(old(Now()), now, key, rpId, session, admitted, signer)
    {
      if !admitted {
        return RateLimited;
      }
      var pending := if key in ceremonies then Some(ceremonies[key]) else None;
      ceremonies := ceremonies - {key};
      if pending.None? || now > pending.value.expires {
        return NoChallenge;
      }
      var c := pending.value;
      if c.session != session {
        return NoChallenge;
      }
      if c.rpId != rpId {
        return AddressMismatch;
      }
      var resolved := false;
      for i := 0 to |passkeys|
        invariant resolved <==> exists j :: 0 <= j < i && passkeys[j].id == signer && passkeys[j].rpId == c.rpId
      {
        if passkeys[i].id == signer && passkeys[i].rpId == c.rpId {
          resolved := true;
        }
      }
      if signer == "" || !resolved || (c.allowed != {} && signer !in c.allowed) {
        return Denied;
      }
      var token := Mint(now, Proof(c.op, c.target, Credential(signer), c.session, now + PROOF_TTL));
      return Minted(token);
    }

    // ---- the credential set ----

    method ClaimWithPassword(next: string, admitted: bool) returns (answer: Answer)
      requires Valid()
      modifies this`password
      ensures Valid() && (Now(), answer) == SetPassword(old(Now()), next, admitted)
    {
      if !admitted {
        return RateLimited;
      }
      if next == "" {
        return Weak;
      }
      if password.Some? || passkeys != [] {
        return AlreadyConfigured;
      }
      password := Some(next);
      return Done;
    }

    method ReplacePassword(now: int, pres: Presented, next: string, session: SessionId, admitted: bool, again: bool) returns (answer: Answer)
      requires Valid()
      modifies this`password, this`sessions, this`proofs
      ensures Valid() && (Now(), answer) == ChangePassword(old(Now()), now, pres, next, session, admitted, again)
    {
      if !admitted {
        return RateLimited;
      }
      if next == "" {
        return Weak;
      }
      var subject, shown := Present(now, pres, OpSetPassword, "", session, again);
      if shown != Done {
        return shown;
      }
      password := Some(next);
      sessions := EndSessions(sessions, None, session);
      return Done;
    }

    method DropPassword(now: int, pres: Presented, rpId: RpId, session: SessionId, admitted: bool) returns (answer: Answer)
      requires Valid()
      modifies this`password, this`sessions, this`proofs
      ensures Valid() && (Now(), answer) == RemovePassword(old(Now()), now, pres, rpId, session, admitted)
    {
      if password.Some? || passkeys != [] {
        var allowed := Allowed(rpId, "");
        if allowed == {} {
          var refusal := PasswordRefusal(rpId);
          return Refused(refusal);
        }
      }
      var subject, shown := Present(now, pres, OpRemovePassword, "", session, admitted);
      if shown != Done {
        return shown;
      }
      if subject == ThePassword {
        var refusal := PasswordRefusal(rpId);
        return Refused(refusal);
      }
      password := None;
      sessions := EndSessions(sessions, None, session);
      return Done;
    }

    static lemma {:induction false} WithoutNamed(rows: seq<Passkey>, id: CredId)
      requires forall i | 0 <= i < |rows| :: rows[i].id != ""
      ensures forall i | 0 <= i < |Without(rows, id)| :: Without(rows, id)[i].id != ""
    {
      if rows != [] {
        WithoutNamed(rows[1..], id);
      }
    }

    static method Delete(rows: seq<Passkey>, target: CredId) returns (kept: seq<Passkey>, deleted: bool)
      ensures kept == Without(rows, target)
      ensures deleted <==> exists j :: 0 <= j < |rows| && rows[j].id == target
    {
      kept, deleted := [], false;
      for i := |rows| downto 0
        invariant kept == Without(rows[i..], target)
        invariant deleted <==> exists j :: i <= j < |rows| && rows[j].id == target
      {
        if rows[i].id == target {
          deleted := true;
        } else {
          kept := [rows[i]] + kept;
        }
        assert rows[i..][0] == rows[i] && rows[i..][1..] == rows[i + 1..];
      }
      assert rows[0..] == rows;
    }

    method DropPasskey(now: int, pres: Presented, target: CredId, rpId: RpId, session: SessionId, admitted: bool) returns (answer: Answer)
      requires Valid()
      modifies this`passkeys, this`sessions, this`proofs
      ensures Valid() && (Now(), answer) == RemovePasskey(old(Now()), now, pres, target, rpId, session, admitted)
    {
      hide PasskeyRemovalRefusal, RequirePresent, AdminIds, EndSessions;
      if password.Some? || passkeys != [] {
        var allowed := Allowed(rpId, target);
        if password.None? && allowed == {} {
          var refusal := PasskeyRefusal(target, rpId);
          if refusal != Fine {
            return Refused(refusal);
          }
        }
      }
      var subject, shown := Present(now, pres, OpRemovePasskey, target, session, admitted);
      if shown != Done {
        return shown;
      }
      if target != "" && subject == Credential(target) {
        return Refused(SelfRemoval);
      }
      var kept, deleted := Delete(passkeys, target);
      if !deleted {
        return NoCredential;
      }
      WithoutNamed(passkeys, target);
      passkeys := kept;
      sessions := EndSessions(sessions, Some(target), session);
      return Done;
    }

    // ---- registration ----

    method Expect(now: int, rpId: RpId, scope: Scope) returns (answer: Answer)
      requires Valid()
      modifies this`registrations, this`nextToken
      ensures Valid() && (Now(), answer) == PutRegistration(old(Now()), now, rpId, scope)
    {
      var key := nextToken;
      var was := registrations;
      var todo := registrations.Keys;
      while todo != {}
        invariant todo <= was.Keys && nextToken == key
        invariant registrations == map k | k in was && (k in todo || now <= was[k].expires) :: was[k]
      {
        var k :| k in todo;
        todo := todo - {k};
        if now > registrations[k].expires {
          registrations := registrations - {k};
        }
      }
      assert registrations == map k | k in was && now <= was[k].expires :: was[k];
      registrations := registrations[key := Registration(rpId, scope, now + CHALLENGE_TTL)];
      nextToken := key + 1;
      return Minted(key);
    }

    method Enrol(now: int, key: Token, rpId: RpId, scope: Scope, id: CredId) returns (answer: Answer)
      requires Valid()
      modifies this`registrations, this`passkeys
      ensures Valid() && (Now(), answer) == FinishRegistration(old(Now()), now, key, rpId, scope, id)
    {
      var pending := if key in registrations then Some(registrations[key]) else None;
      registrations := registrations - {key};
      if pending.None? || now > pending.value.expires {
        return NoChallenge;
      }
      if pending.value.rpId != rpId {
        return AddressMismatch;
      }
      if pending.value.scope != scope {
        return Denied;
      }
      if id == "" || exists i :: 0 <= i < |passkeys| && passkeys[i].id == id {
        return Denied;
      }
      passkeys := passkeys + [Passkey(id, rpId, scope)];
      return Done;
    }

    /** The first run's finish: checked, registered, signed in. */
    method ClaimWithPasskey(now: int, key: Token, rpId: RpId, id: CredId, session: SessionId) returns (answer: Answer)
      requires Valid()
      modifies this`registrations, this`passkeys, this`sessions
      ensures Valid() && (Now(), answer) == FinishSetup(old(Now()), now, key, rpId, id, session)
    {
      if password.Some? || passkeys != [] {
        return AlreadyConfigured;
      }
      answer := Enrol(now, key, rpId, Admin, id);
      if answer == Done {
        sessions := sessions[session := Some(id)];
      }
    }
  }
}
