/** Changes to the admin's credential set: the password, admin and device passkeys, reauthentication
    ceremonies, and the single-use proofs they mint.

    Each service call is one step; the store's answers are taken to succeed.  The clock reading and the login
    limiter's answer come with the call, and an assertion comes as the id of the credential that made it. */
module AuthCredentials {
  import opened Wrappers

  type CredId = string
  type RpId = string
  type SessionId = string
  type Token = nat

  // Minutes of the two clocks, in seconds.
  const CHALLENGE_TTL := 120
  const PROOF_TTL := 120

  datatype Scope = Admin | Device(udid: string)

  datatype Passkey = Passkey(id: CredId, rpId: RpId, scope: Scope)

  datatype ProofOp = OpAddPasskey | OpRemovePasskey | OpRemovePassword | OpSetPassword

  datatype Subject = Nobody | ThePassword | Credential(id: CredId)

  datatype Proof = Proof(op: ProofOp, target: CredId, subject: Subject, session: SessionId, expires: int)

  /** `allowed` is the list the browser and the assertion check are held to; empty means no restriction. */
  datatype Ceremony = Ceremony(
    rpId: RpId, op: ProofOp, target: CredId, session: SessionId, expires: int, allowed: set<CredId>)

  datatype Registration = Registration(rpId: RpId, scope: Scope, expires: int)

  /** `passkeys` are the store's rows in order; a session names the credential that minted it, if any. */
  datatype Install = Install(
    password: Option<string>, passkeys: seq<Passkey>, sessions: map<SessionId, Option<CredId>>,
    ceremonies: map<Token, Ceremony>, proofs: map<Token, Proof>, registrations: map<Token, Registration>, nextToken: Token)

  // ---- what is there ----

  function AdminRows(rows: seq<Passkey>): seq<Passkey> {
    if rows == [] then [] else (if rows[0].scope.Admin? then [rows[0]] else []) + AdminRows(rows[1..])
  }

  predicate Configured(s: Install) { s.password.Some? || s.passkeys != [] }

  /** What `Configured` is about on an install that has an owner: a password, or a passkey of the admin's. */
  predicate HasAdmin(s: Install) { s.password.Some? || exists i :: 0 <= i < |s.passkeys| && s.passkeys[i].scope.Admin? }

  /** Admin credentials that could sign at this address, without `except`. */
  function AdminIds(rows: seq<Passkey>, rpId: RpId, except: CredId): set<CredId> {
    set i | 0 <= i < |rows| && rows[i].scope.Admin? && rows[i].rpId == rpId && rows[i].id != except :: rows[i].id
  }

  // ---- refusals ----

  datatype Refusal =
    | Fine
    | SelfRemoval
    | LastCredential(elsewhere: seq<RpId>)
    | LastPasskey(elsewhere: seq<RpId>, hasPassword: bool)

  /** The distinct addresses of these rows, in first-seen order. */
  function Addresses(rows: seq<Passkey>): seq<RpId> {
    if rows == [] then []
    else
      var earlier := Addresses(rows[..|rows| - 1]);
      if rows[|rows| - 1].rpId in earlier then earlier else earlier + [rows[|rows| - 1].rpId]
  }

  function Others(rows: seq<Passkey>, id: CredId): seq<Passkey> {
    if rows == [] then []
    else Others(rows[..|rows| - 1], id) + if rows[|rows| - 1].id == id then [] else [rows[|rows| - 1]]
  }

  predicate AnyAt(rows: seq<Passkey>, rpId: RpId) { exists i :: 0 <= i < |rows| && rows[i].rpId == rpId }

  function PasswordRemovalRefusal(s: Install, rpId: RpId): Refusal {
    var admin := AdminRows(s.passkeys);
    if AnyAt(admin, rpId) then SelfRemoval else LastCredential(Addresses(admin))
  }

  function PasskeyRemovalRefusal(s: Install, target: CredId, rpId: RpId): Refusal {
    var others := Others(AdminRows(s.passkeys), target);
    if AnyAt(others, rpId) then Fine else LastPasskey(Addresses(others), s.password.Some?)
  }

  function Provable(s: Install, op: ProofOp, rpId: RpId, target: CredId): Refusal {
    match op
    case OpRemovePasskey => PasskeyRemovalRefusal(s, target, rpId)
    case OpRemovePassword =>
      var admin := AdminRows(s.passkeys);
      if AnyAt(admin, rpId) then Fine else LastCredential(Addresses(admin))
    case _ => Fine
  }

  /** The admin passkeys that may prove this operation here. */
  function ProversOf(s: Install, op: ProofOp, rpId: RpId, target: CredId): set<CredId> {
    AdminIds(s.passkeys, rpId, if op == OpRemovePasskey then target else "")
  }

  /** Which factors could satisfy an operation, asked here. */
  function Accepts(s: Install, op: ProofOp, rpId: RpId, target: CredId): (bool, bool) {
    (op != OpRemovePassword && s.password.Some?, ProversOf(s, op, rpId, target) != {})
  }

  // ---- proofs ----

  datatype Answer =
    | Done | Minted(token: Token) | Denied | RateLimited | Weak | AlreadyConfigured | NoProof | ProofNotForThis
    | BadPassword | NoSession | NoChallenge | AddressMismatch | BadTarget | NoCredential | Refused(refusal: Refusal)

  datatype Presented = Presented(password: string, proof: Option<Token>)

  datatype Shown = Shown(s: Install, subject: Subject, answer: Answer)

  /** The lookup and the removal are one: whatever the outcome, the token is gone. */
  function Consume(s: Install, now: int, token: Token, op: ProofOp, target: CredId, session: SessionId): Shown {
    var t := s.(proofs := s.proofs - {token});
    if token !in s.proofs || now > s.proofs[token].expires then Shown(t, Nobody, NoProof)
    else
      var p := s.proofs[token];
      if p.op != op || p.target != target then Shown(t, Nobody, ProofNotForThis)
      else if p.session != session then Shown(t, Nobody, NoProof)
      else Shown(t, p.subject, Done)
  }

  function RequirePresent(s: Install, now: int, pres: Presented, op: ProofOp, target: CredId, session: SessionId,
                          admitted: bool): Shown
  {
    if !Configured(s) then Shown(s, Nobody, Done)
    else if pres.proof.Some? then Consume(s, now, pres.proof.value, op, target, session)
    else if pres.password == "" || s.password.None? then Shown(s, Nobody, NoProof)
    else if !admitted then Shown(s, Nobody, RateLimited)
    else if pres.password != s.password.value then Shown(s, Nobody, BadPassword)
    else Shown(s, ThePassword, Done)
  }

  function Unexpired(proofs: map<Token, Proof>, now: int): map<Token, Proof> {
    map t | t in proofs && now <= proofs[t].expires :: proofs[t]
  }

  function UnexpiredCeremonies(cs: map<Token, Ceremony>, now: int): map<Token, Ceremony> {
    map k | k in cs && now <= cs[k].expires :: cs[k]
  }

  predicate TargetOk(op: ProofOp, target: CredId) { op == OpRemovePasskey <==> target != "" }

  function MintProof(s: Install, now: int, p: Proof): (Install, Token) {
    (s.(proofs := Unexpired(s.proofs, now)[s.nextToken := p.(expires := now + PROOF_TTL)], nextToken := s.nextToken + 1), s.nextToken)
  }

  // ---- reauthentication ----

  function BeginReauth(s: Install, now: int, rpId: RpId, op: ProofOp, target: CredId, session: SessionId, admitted: bool): (Install, Answer)
  {
    if !TargetOk(op, target) then (s, BadTarget)
    else if session == "" then (s, NoSession)
    else if Provable(s, op, rpId, target) != Fine then (s, Refused(Provable(s, op, rpId, target)))
    else if !admitted then (s, RateLimited)
    else
      var c := Ceremony(rpId, op, target, session, now + CHALLENGE_TTL, ProversOf(s, op, rpId, target));
      (s.(ceremonies := UnexpiredCeremonies(s.ceremonies, now)[s.nextToken := c], nextToken := s.nextToken + 1), Minted(s.nextToken))
  }

  /** The assertion checks out: a registered credential of this address, on the ceremony's list. */
  predicate Asserts(s: Install, c: Ceremony, signer: CredId) {
    && (exists i :: 0 <= i < |s.passkeys| && s.passkeys[i].id == signer && s.passkeys[i].rpId == c.rpId)
    && (c.allowed == {} || signer in c.allowed)
  }

  function FinishReauth(s: Install, now: int, key: Token, rpId: RpId, session: SessionId, admitted: bool, signer: CredId): (Install, Answer)
  {
    if !admitted then (s, RateLimited)
    else
      var t := s.(ceremonies := s.ceremonies - {key});
      if key !in s.ceremonies || now > s.ceremonies[key].expires then (t, NoChallenge)
      else
        var c := s.ceremonies[key];
        if c.session != session then (t, NoChallenge)
        else if c.rpId != rpId then (t, AddressMismatch)
        else if signer == "" || !Asserts(t, c, signer) then (t, Denied)
        else
          var (u, token) := MintProof(t, now, Proof(c.op, c.target, Credential(signer), c.session, now + PROOF_TTL));
          (u, Minted(token))
  }

  // ---- the credential set ----

  function SetPassword(s: Install, next: string, admitted: bool): (Install, Answer) {
    if !admitted then (s, RateLimited)
    else if next == "" then (s, Weak)
    else if Configured(s) then (s, AlreadyConfigured)
    else (s.(password := Some(next)), Done)
  }

  /** Every session minted by this credential, or by the password for none, except the one that asked. */
  function EndSessions(sessions: map<SessionId, Option<CredId>>, minter: Option<CredId>, except: SessionId): map<SessionId, Option<CredId>> {
    map x | x in sessions && (sessions[x] != minter || x == except) :: sessions[x]
  }

  function ChangePassword(s: Install, now: int, pres: Presented, next: string, session: SessionId,
                          admitted: bool, admittedAgain: bool): (Install, Answer)
  {
    if !admitted then (s, RateLimited)
    else if next == "" then (s, Weak)
    else
      var shown := RequirePresent(s, now, pres, OpSetPassword, "", session, admittedAgain);
      if shown.answer != Done then (shown.s, shown.answer)
      else (shown.s.(password := Some(next), sessions := EndSessions(s.sessions, None, session)), Done)
  }

  function RemovePassword(s: Install, now: int, pres: Presented, rpId: RpId, session: SessionId, admitted: bool): (Install, Answer)
  {
    if Configured(s) && Accepts(s, OpRemovePassword, rpId, "") == (false, false) then (s, Refused(PasswordRemovalRefusal(s, rpId)))
    else
      var shown := RequirePresent(s, now, pres, OpRemovePassword, "", session, admitted);
      if shown.answer != Done then (shown.s, shown.answer)
      else if shown.subject == ThePassword then (shown.s, Refused(PasswordRemovalRefusal(s, rpId)))
      else (shown.s.(password := None, sessions := EndSessions(s.sessions, None, session)), Done)
  }

  function Without(rows: seq<Passkey>, id: CredId): seq<Passkey> {
    if rows == [] then [] else (if rows[0].id == id then [] else [rows[0]]) + Without(rows[1..], id)
  }

  function RemovePasskey(s: Install, now: int, pres: Presented, target: CredId, rpId: RpId, session: SessionId, admitted: bool): (Install, Answer)
  {
    if Configured(s) && Accepts(s, OpRemovePasskey, rpId, target) == (false, false)
       && PasskeyRemovalRefusal(s, target, rpId) != Fine
    then (s, Refused(PasskeyRemovalRefusal(s, target, rpId)))
    else
      var shown := RequirePresent(s, now, pres, OpRemovePasskey, target, session, admitted);
      if shown.answer != Done then (shown.s, shown.answer)
      else if target != "" && shown.subject == Credential(target) then (shown.s, Refused(SelfRemoval))
      else if forall i | 0 <= i < |s.passkeys| :: s.passkeys[i].id != target then (shown.s, NoCredential)
      else (shown.s.(passkeys := Without(s.passkeys, target), sessions := EndSessions(s.sessions, Some(target), session)), Done)
  }

  // ---- registration ----

  function PutRegistration(s: Install, now: int, rpId: RpId, scope: Scope): (Install, Answer) {
    var kept := map k | k in s.registrations && now <= s.registrations[k].expires :: s.registrations[k];
    (s.(registrations := kept[s.nextToken := Registration(rpId, scope, now + CHALLENGE_TTL)], nextToken := s.nextToken + 1), Minted(s.nextToken))
  }

  /** Take the ceremony, check it is for this address and this scope, store the new credential. */
  function FinishRegistration(s: Install, now: int, key: Token, rpId: RpId, scope: Scope, id: CredId): (Install, Answer) {
    var t := s.(registrations := s.registrations - {key});
    if key !in s.registrations || now > s.registrations[key].expires then (t, NoChallenge)
    else
      var r := s.registrations[key];
      if r.rpId != rpId then (t, AddressMismatch)
      else if r.scope != scope then (t, Denied)
      else if id == "" || exists i :: 0 <= i < |s.passkeys| && s.passkeys[i].id == id then (t, Denied)
      else (t.(passkeys := s.passkeys + [Passkey(id, rpId, scope)]), Done)
  }

  function BeginAddPasskey(s: Install, now: int, pres: Presented, rpId: RpId, session: SessionId, admitted: bool): (Install, Answer)
  {
    var shown := RequirePresent(s, now, pres, OpAddPasskey, "", session, admitted);
    if shown.answer != Done then (shown.s, shown.answer) else PutRegistration(shown.s, now, rpId, Admin)
  }

  function BeginSetup(s: Install, now: int, rpId: RpId, admitted: bool): (Install, Answer) {
    if !admitted then (s, RateLimited)
    else if Configured(s) then (s, AlreadyConfigured)
    else PutRegistration(s, now, rpId, Admin)
  }

  /** First-run registration: checked again at the finish, since it is the finish that claims the install. */
  function FinishSetup(s: Install, now: int, key: Token, rpId: RpId, id: CredId, session: SessionId): (Install, Answer) {
    if Configured(s) then (s, AlreadyConfigured)
    else
      var (t, answer) := FinishRegistration(s, now, key, rpId, Admin, id);
      if answer != Done then (t, answer) else (t.(sessions := t.sessions[session := Some(id)]), Done)
  }
}
