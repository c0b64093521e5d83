/**
 The MFA lifecycle as a sequence of requests against one user row. A request
 that fails leaves the row as it was; one that succeeds leaves the row its
 endpoint stored. Requests are handled one after another. The TOTP check
 reads the clock, so each request that consults it carries the check in
 force when it arrives: requests at different times may face different checks.
 */
module MfaLifecycle {
  import opened Results
  import opened UserMfa
  import opened MfaController

  /** One request to the controller, with the inputs its endpoint takes. */
  datatype Request =
    | GetQr(entropy: Entropy)
    | Activate(token: string, totp: TotpCheck)
    | Disable
    | Verify(token: string, totp: TotpCheck)

  /** The row as stored after an endpoint's outcome: untouched on an error. */
  function Persisted<O>(u: User, r: Result<Reply<O>, MfaError>): User {
    if r.Ok? then r.value.user else u
  }

  /** The row after handling one request. */
  function Handle(u: User, req: Request): (u': User)
    ensures u'.id == u.id && u'.email == u.email
    ensures Consistent(u) ==> Consistent(u')
  {
    match req
    case GetQr(entropy) => Persisted(u, GetQrCode(u, entropy))
    case Activate(token, totp) => Persisted(u, ActivateMfa(u, token, totp))
    case Disable => Persisted(u, DisableMfa(u))
    case Verify(token, totp) => Persisted(u, VerifyMfa(u, token, totp))
  }

  /** The row after handling a sequence of requests in order. */
  function Run(u: User, reqs: seq<Request>): User
    decreases |reqs|
  {
    if |reqs| == 0 then u else Run(Handle(u, reqs[0]), reqs[1..])
  }

  /** Every sequence of requests keeps the row consistent. */
  lemma {:induction false} RunPreservesConsistent(u: User, reqs: seq<Request>)
    requires Consistent(u)
    ensures Consistent(Run(u, reqs))
    decreases |reqs|
  {
    if |reqs| > 0 {
      RunPreservesConsistent(Handle(u, reqs[0]), reqs[1..]);
    }
  }

  /** Starting from a newly created account, no sequence of requests reaches an enabled account without a secret and codes. */
  lemma NewAccountStaysConsistent(id: string, email: string, reqs: seq<Request>)
    ensures Consistent(Run(NewUser(id, email), reqs))
  {
    RunPreservesConsistent(NewUser(id, email), reqs);
  }

  /** Only a successful activation of a pending account turns MFA on. */
  lemma OnlyActivationEnables(u: User, req: Request)
    requires !u.mfaEnabled && Handle(u, req).mfaEnabled
    ensures req.Activate? && PhaseOf(u) == Pending && req.totp(u.mfaSecret.value, req.token)
  {
  }

  /** Only disabling turns MFA off. */
  lemma OnlyDisablingDisables(u: User, req: Request)
    requires u.mfaEnabled && !Handle(u, req).mfaEnabled
    ensures req.Disable?
  {
  }

  /** The secret is only ever written with a new value by provisioning, and only while MFA is off. */
  lemma SecretWrittenOnlyByProvisioning(u: User, req: Request)
    requires Handle(u, req).mfaSecret.Some?
    requires Handle(u, req).mfaSecret != u.mfaSecret
    ensures req.GetQr? && !u.mfaEnabled
    ensures Handle(u, req).mfaSecret == Some(req.entropy.base32)
  {
  }

  /** An enabled account is frozen: every request but a disable leaves the row exactly as it was. */
  lemma EnabledFrozenUntilDisable(u: User, req: Request)
    requires u.mfaEnabled && !req.Disable?
    ensures Handle(u, req) == u
  {
  }

  /** Hence no sequence of requests without a disable changes an enabled account at all. */
  lemma {:induction false} EnabledFrozenAlongRun(u: User, reqs: seq<Request>)
    requires u.mfaEnabled
    requires forall i :: 0 <= i < |reqs| ==> !reqs[i].Disable?
    ensures Run(u, reqs) == u
    decreases |reqs|
  {
    if |reqs| > 0 {
      EnabledFrozenUntilDisable(u, reqs[0]);
      EnabledFrozenAlongRun(u, reqs[1..]);
    }
  }

  /**
   The phase machine: provisioning moves an unprovisioned account to pending
   (given a non-empty secret) and keeps a pending one where it is; activation
   enters enabled exactly from pending with an accepted token, and otherwise
   changes nothing; disabling goes to unprovisioned from anywhere;
   verification never moves.
   */
  lemma PhaseTransitions(u: User, req: Request)
    ensures req.GetQr? && PhaseOf(u) == Unprovisioned && req.entropy.base32 != "" ==>
      PhaseOf(Handle(u, req)) == Pending
    ensures req.GetQr? && PhaseOf(u) == Pending ==> Handle(u, req) == u
    ensures req.Activate? && PhaseOf(u) != Enabled ==>
      (PhaseOf(Handle(u, req)) == Enabled <==> PhaseOf(u) == Pending && req.totp(u.mfaSecret.value, req.token))
    ensures req.Activate? && PhaseOf(Handle(u, req)) != Enabled ==> Handle(u, req) == u
    ensures req.Disable? ==> PhaseOf(Handle(u, req)) == Unprovisioned
    ensures req.Verify? ==> Handle(u, req) == u
  {
  }
}
