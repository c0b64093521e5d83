/**
 The four endpoints of the MFA controller as pure transitions on one user
 row. Each endpoint takes the row as read for the request and returns either
 an error (nothing is written) or the row as stored afterwards together with
 the response body.
 */
module MfaController {
  import opened Results
  import opened UserMfa

  /** The issuer name placed in freshly generated provisioning URLs. */
  const Issuer: string := "n8n"

  /** How many recovery codes a fresh provisioning creates. */
  const RecoveryCodeCount: nat := 10

  /** The distinct rejections; each is a bad-request response in the controller. */
  datatype MfaError =
    | AlreadyEnabled   // MFA is on; it must be disabled first
    | NotProvisioned   // no secret (or, for activation, no recovery codes) stored yet
    | NotVerified      // the TOTP check rejected the token

  /**
   The TOTP check of a token against a base32 secret. The algorithm lives in
   a library this model does not see, so it is left uninterpreted: callers
   pass whichever check they like.
   */
  type TotpCheck = (string, string) -> bool

  /** The random inputs of one fresh provisioning: the new base32 secret and the i-th uuid drawn. */
  datatype Entropy = Entropy(base32: string, uuid: nat -> string)

  /** An otpauth provisioning URL, kept as the components it is rendered from. */
  datatype OtpauthUrl = OtpauthUrl(secret: string, account: string, issuer: Option<string>)

  /** The body of a provisioning response. */
  datatype QrCode = QrCode(secret: string, recoveryCodes: seq<string>, qrCode: OtpauthUrl)

  /** A successful response: the row as stored afterwards, and the body returned. */
  datatype Reply<+O> = Reply(user: User, body: O)

  /** The first n uuids drawn, in order: building an n-element array and mapping each slot to a new uuid. */
  function DrawUuids(uuid: nat -> string, n: nat): (codes: seq<string>)
    ensures |codes| == n
    ensures forall i :: 0 <= i < n ==> codes[i] == uuid(i)
  {
    if n == 0 then [] else DrawUuids(uuid, n - 1) + [uuid(n - 1)]
  }

  /**
   Provisioning. Refused while MFA is on. A row that already holds a truthy
   secret and a non-empty code list gets those back unchanged, with a URL
   rendered without an issuer. Otherwise ten new codes and the new secret are
   stored (the enabled flag is not touched) and returned with a URL that
   names the issuer.
   */
  function GetQrCode(u: User, entropy: Entropy): (r: Result<Reply<QrCode>, MfaError>)
    ensures r.Err? <==> u.mfaEnabled
    ensures r.Err? ==> r.error == AlreadyEnabled
    ensures r.Ok? ==>
      && r.value.user.id == u.id && r.value.user.email == u.email
      && r.value.user.mfaEnabled == u.mfaEnabled
      && r.value.user.mfaSecret == Some(r.value.body.secret)
      && r.value.user.mfaRecoveryCodes == r.value.body.recoveryCodes
      && r.value.body.qrCode.secret == r.value.body.secret
      && r.value.body.qrCode.account == u.email
    ensures r.Ok? && Provisioned(u) ==>
      && r.value.user == u
      && r.value.body.qrCode.issuer == None
    ensures r.Ok? && !Provisioned(u) ==>
      && r.value.body.secret == entropy.base32
      && |r.value.body.recoveryCodes| == RecoveryCodeCount
      && (forall i :: 0 <= i < RecoveryCodeCount ==> r.value.body.recoveryCodes[i] == entropy.uuid(i))
      && r.value.body.qrCode.issuer == Some(Issuer)
  {
    if u.mfaEnabled then
      Err(AlreadyEnabled)
    else if Provisioned(u) then
      var secret := u.mfaSecret.value;
      Ok(Reply(u, QrCode(secret, u.mfaRecoveryCodes, OtpauthUrl(secret, u.email, None))))
    else
      var codes := DrawUuids(entropy.uuid, RecoveryCodeCount);
      var stored := Update(u, Patch(Write(Some(entropy.base32)), Write(codes), Keep));
      Ok(Reply(stored, QrCode(entropy.base32, codes, OtpauthUrl(entropy.base32, u.email, Some(Issuer)))))
  }

  /**
   Activation. The guards run in order: already enabled, then not
   provisioned, then the TOTP check. Success writes only the enabled flag.
   */
  function ActivateMfa(u: User, token: string, totp: TotpCheck): (r: Result<Reply<()>, MfaError>)
    ensures u.mfaEnabled ==> r == Err(AlreadyEnabled)
    ensures !u.mfaEnabled && !Provisioned(u) ==> r == Err(NotProvisioned)
    ensures !u.mfaEnabled && Provisioned(u) && !totp(u.mfaSecret.value, token) ==> r == Err(NotVerified)
    ensures r.Ok? <==> !u.mfaEnabled && Provisioned(u) && totp(u.mfaSecret.value, token)
    ensures r.Ok? ==> r.value.user == u.(mfaEnabled := true)
  {
    if u.mfaEnabled then
      Err(AlreadyEnabled)
    else if !HasSecret(u) || |u.mfaRecoveryCodes| == 0 then
      Err(NotProvisioned)
    else if !totp(u.mfaSecret.value, token) then
      Err(NotVerified)
    else
      Ok(Reply(Update(u, Patch(Keep, Keep, Write(true))), ()))
  }

  /** Disabling. Always succeeds and clears all three MFA columns, whatever the phase. */
  function DisableMfa(u: User): (r: Result<Reply<()>, MfaError>)
    ensures r.Ok?
    ensures r.value.user == NewUser(u.id, u.email)
    ensures PhaseOf(r.value.user) == Unprovisioned
  {
    Ok(Reply(Update(u, Patch(Write(None), Write([]), Write(false))), ()))
  }

  /**
   Step-up verification. Needs a truthy secret and a token the TOTP check
   accepts; the enabled flag and the recovery codes are not consulted, and
   nothing is written.
   */
  function VerifyMfa(u: User, token: string, totp: TotpCheck): (r: Result<Reply<()>, MfaError>)
    ensures !HasSecret(u) ==> r == Err(NotProvisioned)
    ensures HasSecret(u) && !totp(u.mfaSecret.value, token) ==> r == Err(NotVerified)
    ensures r.Ok? <==> HasSecret(u) && totp(u.mfaSecret.value, token)
    ensures r.Ok? ==> r.value.user == u
  {
    if !HasSecret(u) then
      Err(NotProvisioned)
    else if !totp(u.mfaSecret.value, token) then
      Err(NotVerified)
    else
      Ok(Reply(u, ()))
  }
}
