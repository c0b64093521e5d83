/** Properties that relate several calls to the MFA endpoints. */
module MfaProperties {
  import opened Results
  import opened UserMfa
  import opened MfaController
  import opened MfaLifecycle

  /** Provisioning an enabled account is refused and writes nothing, whatever the random inputs. */
  lemma ProvisioningRefusedWhenEnabled(u: User, entropy: Entropy)
    requires u.mfaEnabled
    ensures GetQrCode(u, entropy) == Err(AlreadyEnabled)
    ensures Persisted(u, GetQrCode(u, entropy)) == u
  {
  }

  /**
   Provisioning twice: the second call, whatever its random inputs, returns
   the secret and codes the first one left stored and writes nothing; so does
   every further call. The first call's secret must be truthy, which a
   generated base32 secret always is.
   */
  lemma ProvisioningIdempotent(u: User, e1: Entropy, e2: Entropy)
    requires !u.mfaEnabled
    requires Provisioned(u) || e1.base32 != ""
    ensures GetQrCode(u, e1).Ok?
    ensures
      var first := GetQrCode(u, e1).value;
      GetQrCode(first.user, e2) ==
        Ok(Reply(first.user,
                 QrCode(first.body.secret, first.body.recoveryCodes,
                        OtpauthUrl(first.body.secret, u.email, None))))
  {
  }

  /**
   A first, fresh provisioning names the issuer in its URL; re-serving the
   same secret renders a URL without it, so the two URLs differ although
   secret and codes agree.
   */
  lemma ReservedUrlDropsIssuer(u: User, e1: Entropy, e2: Entropy)
    requires !u.mfaEnabled && !Provisioned(u) && e1.base32 != ""
    ensures
      var first := GetQrCode(u, e1).value;
      var again := GetQrCode(first.user, e2).value;
      && first.body.qrCode.issuer == Some(Issuer)
      && again.body.qrCode.issuer == None
      && again.body.secret == first.body.secret
      && again.body.recoveryCodes == first.body.recoveryCodes
      && again.body.qrCode != first.body.qrCode
  {
  }

  /** A secret paired with an empty code list is not re-served: a new secret and ten new codes replace it. */
  lemma SecretWithoutCodesRegenerated(u: User, entropy: Entropy)
    requires !u.mfaEnabled && HasSecret(u) && u.mfaRecoveryCodes == []
    ensures
      var r := GetQrCode(u, entropy);
      && r.Ok?
      && r.value.user.mfaSecret == Some(entropy.base32)
      && |r.value.user.mfaRecoveryCodes| == RecoveryCodeCount
      && !r.value.user.mfaEnabled
  {
  }

  /** Activating an enabled account fails for every token, and nothing is written. */
  lemma ActivationRefusedWhenEnabled(u: User, token: string, totp: TotpCheck)
    requires u.mfaEnabled
    ensures ActivateMfa(u, token, totp) == Err(AlreadyEnabled)
    ensures Persisted(u, ActivateMfa(u, token, totp)) == u
  {
  }

  /**
   Activation fails exactly when one of its three guards does, and the error
   names the first guard that fails.
   */
  lemma ActivationFailureCases(u: User, token: string, totp: TotpCheck)
    ensures ActivateMfa(u, token, totp).Err? <==>
      u.mfaEnabled || !Provisioned(u) || !totp(u.mfaSecret.value, token)
    ensures ActivateMfa(u, token, totp).Err? ==>
      && (ActivateMfa(u, token, totp).error == AlreadyEnabled <==> u.mfaEnabled)
      && (ActivateMfa(u, token, totp).error == NotProvisioned <==> !u.mfaEnabled && !Provisioned(u))
  {
  }

  /**
   The enrollment flow: after provisioning, a token the TOTP check accepts
   for the returned secret activates MFA, and the enabled row keeps exactly
   the secret and codes the user was shown.
   */
  lemma ProvisionThenActivate(u: User, entropy: Entropy, token: string, totp: TotpCheck)
    requires !u.mfaEnabled
    requires Provisioned(u) || entropy.base32 != ""
    requires totp(GetQrCode(u, entropy).value.body.secret, token)
    ensures
      var shown := GetQrCode(u, entropy).value;
      var r := ActivateMfa(shown.user, token, totp);
      && r.Ok?
      && r.value.user.mfaEnabled
      && r.value.user.mfaSecret == Some(shown.body.secret)
      && r.value.user.mfaRecoveryCodes == shown.body.recoveryCodes
  {
  }

  /**
   After a successful activation the same token verifies under the same TOTP
   check (that is, within the same time step); at a later time it verifies
   exactly the tokens the check then in force accepts for the stored secret.
   A second activation is refused under any check.
   */
  lemma ActivateThenVerify(u: User, token: string, token2: string, totp: TotpCheck, later: TotpCheck)
    requires ActivateMfa(u, token, totp).Ok?
    ensures
      var enabled := ActivateMfa(u, token, totp).value.user;
      && VerifyMfa(enabled, token, totp).Ok?
      && (VerifyMfa(enabled, token2, later).Ok? <==> later(enabled.mfaSecret.value, token2))
      && ActivateMfa(enabled, token2, later) == Err(AlreadyEnabled)
  {
  }

  /** Disabling twice leaves the same row as disabling once, with no error either time. */
  lemma DisableIdempotent(u: User)
    ensures
      var once := DisableMfa(u).value.user;
      DisableMfa(once) == DisableMfa(u) && once.mfaSecret == None && once.mfaRecoveryCodes == []
  {
  }

  /**
   Verification ignores the enabled flag: flipping it never changes the
   outcome, so a pending account with an accepted token verifies.
   */
  lemma VerifyIgnoresEnabled(u: User, token: string, totp: TotpCheck, flag: bool)
    ensures VerifyMfa(u.(mfaEnabled := flag), token, totp).Ok? == VerifyMfa(u, token, totp).Ok?
    ensures PhaseOf(u) == Pending && totp(u.mfaSecret.value, token) ==> VerifyMfa(u, token, totp).Ok?
  {
  }
}
