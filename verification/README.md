# MFA enrollment controller, modelled in Dafny

This project models the multi-factor authentication controller of the n8n
command-line server (`MFAController`). The controller acts on one user row,
through three columns: `mfaSecret` (a nullable base32 TOTP secret),
`mfaRecoveryCodes` (a list of recovery codes) and `mfaEnabled` (a flag). It has
four endpoints:

- **getQRCode** hands out a secret. It refuses while MFA is on. It re-serves a
  pending secret together with its codes. Otherwise it stores a fresh secret
  and ten fresh codes.
- **activateMFA** turns MFA on. The account must be provisioned, and the TOTP
  check must accept the submitted token.
- **disableMFA** clears all three columns.
- **verifyMFA** checks a token against the stored secret and writes nothing.

Each endpoint is a pure function from the row read for the request to either
an error or the row as stored afterwards plus the response body. A stored
row is the input row with the partial update's columns overlaid
(`UserMfa.Update`). An error carries no row, so a failed call writes nothing.
The guards test the secret the way the code does: with JavaScript
truthiness, so an empty-string secret counts as absent (`UserMfa.HasSecret`).

These things are parameters of the model rather than computed by it:

- The TOTP check (`speakeasy.totp.verify`) is an uninterpreted parameter
  `totp: (string, string) -> bool`.
- The newly generated base32 secret and the uuids are inputs. `Entropy.uuid(i)`
  is the i-th uuid drawn.
- A provisioning URL is represented by the components it is rendered from:
  secret, account label and optional issuer.

Modules:

- `Results`: `Option` and `Result`.
- `UserMfa`: the row, partial updates, the guard predicates, the three
  lifecycle phases and the invariant `Consistent`.
- `MfaController`: the four endpoints, the `Issuer` constant and the
  recovery-code generation.
- `MfaLifecycle`: requests handled one after another, and the invariants
  that hold along any sequence of requests.
- `MfaProperties`: properties that relate several calls.

Facts about the code that the model keeps as written:

- Only the fresh path passes `issuer` when it builds the provisioning URL
  (`mfa.controller.ts:39-43`). The re-serve path renders the URL from secret
  and email alone (`mfa.controller.ts:25-29`).
  `MfaProperties.ReservedUrlDropsIssuer` states the difference.
- A stored secret is re-served only together with a non-empty code list
  (`mfa.controller.ts:24`). A secret with an empty code list is regenerated
  (`MfaProperties.SecretWithoutCodesRegenerated`).
- The issuer is the constant `'n8n'` (`mfa.controller.ts:9`).
- Every rejection is a bad-request error. The model gives one constructor per
  condition:
  - `AlreadyEnabled`: lines 20-21 and 62, with different messages.
  - `NotProvisioned`: lines 65 and 89, with different messages.
  - `NotVerified`: lines 69 and 91, with the same message.
- `speakeasy.totp.verify` takes no time argument (`mfa.controller.ts:68,90`),
  so it reads the clock. In `MfaLifecycle`, each activation and verification
  request therefore carries the TOTP check in force when it arrives. A
  sequence of requests may span several time steps.

## Model

| member | source | states |
|---|---|---|
| MfaController.DrawUuids | packages/cli/src/controllers/mfa.controller.ts:37 | the recovery-code list holds exactly n codes, the i-th being the i-th uuid drawn |
| MfaController.GetQrCode | packages/cli/src/controllers/mfa.controller.ts:16-55 | refused (AlreadyEnabled) exactly when MFA is on; on success the stored secret and codes are the returned ones and the enabled flag, id and email are kept; a provisioned row is returned unchanged with an issuer-less URL; otherwise the fresh secret and exactly 10 codes (the first ten uuids) are stored, with a URL naming the issuer |
| MfaController.ActivateMfa | packages/cli/src/controllers/mfa.controller.ts:58-72 | fails with AlreadyEnabled when on (any token), else NotProvisioned without a truthy secret and codes, else NotVerified when the TOTP check rejects; succeeds exactly when all guards pass, and then only the enabled flag changes, to true |
| MfaController.DisableMfa | packages/cli/src/controllers/mfa.controller.ts:75-82 | never fails; the stored row has no secret, no codes and MFA off, with id and email kept |
| MfaController.VerifyMfa | packages/cli/src/controllers/mfa.controller.ts:85-92 | fails with NotProvisioned without a truthy secret, NotVerified when the TOTP check rejects; succeeds exactly otherwise and never changes the row |
| UserMfa.Update | packages/cli/src/controllers/mfa.controller.ts:45-48 | a partial update writes each named column's given value; id, email and every unnamed column are kept |
| MfaLifecycle.Handle | packages/cli/src/controllers/mfa.controller.ts:16-92 | handling any request, under whatever TOTP check it carries, keeps id and email and preserves the invariant that an enabled account has a truthy secret and non-empty codes |
| MfaLifecycle.RunPreservesConsistent | packages/cli/src/controllers/mfa.controller.ts:19-81 | every sequence of requests from a consistent row ends in a consistent row, each request facing its own TOTP check (any number of time steps) |
| MfaLifecycle.NewAccountStaysConsistent | packages/cli/src/controllers/mfa.controller.ts:19-81 | from a newly created account, no sequence of requests, each with its own TOTP check, reaches an enabled account without secret and codes |
| MfaLifecycle.OnlyActivationEnables | packages/cli/src/controllers/mfa.controller.ts:62-71 | MFA goes from off to on only by an activation of a pending account whose token the TOTP check accepts |
| MfaLifecycle.OnlyDisablingDisables | packages/cli/src/controllers/mfa.controller.ts:77-81 | MFA goes from on to off only by disabling |
| MfaLifecycle.SecretWrittenOnlyByProvisioning | packages/cli/src/controllers/mfa.controller.ts:19-48 | a new non-null secret is written only by provisioning, only while MFA is off, and it is the generated secret |
| MfaLifecycle.EnabledFrozenUntilDisable | packages/cli/src/controllers/mfa.controller.ts:16-92 | on an enabled account every request except disabling leaves the row exactly as it was |
| MfaLifecycle.EnabledFrozenAlongRun | packages/cli/src/controllers/mfa.controller.ts:16-92 | any sequence of requests without a disable, each with its own TOTP check, leaves an enabled account unchanged |
| MfaLifecycle.PhaseTransitions | packages/cli/src/controllers/mfa.controller.ts:16-92 | provisioning moves unprovisioned to pending and keeps pending fixed; activation enters enabled exactly from pending with an accepted token and otherwise writes nothing; disabling reaches unprovisioned from any phase; verification never moves |
| MfaProperties.ProvisioningRefusedWhenEnabled | packages/cli/src/controllers/mfa.controller.ts:19-22 | provisioning an enabled account fails with AlreadyEnabled and the row is unchanged |
| MfaProperties.ProvisioningIdempotent | packages/cli/src/controllers/mfa.controller.ts:24-54 | after a successful provisioning, a second call with any random inputs returns the stored secret and codes and writes nothing |
| MfaProperties.ReservedUrlDropsIssuer | packages/cli/src/controllers/mfa.controller.ts:24-43 | the re-served URL has the same secret and codes as the fresh one but no issuer, so the two URLs differ |
| MfaProperties.SecretWithoutCodesRegenerated | packages/cli/src/controllers/mfa.controller.ts:24-48 | a truthy secret with an empty code list is replaced by the new secret and 10 new codes, MFA staying off |
| MfaProperties.ActivationRefusedWhenEnabled | packages/cli/src/controllers/mfa.controller.ts:62 | activating an enabled account fails with AlreadyEnabled for every token and writes nothing |
| MfaProperties.ActivationFailureCases | packages/cli/src/controllers/mfa.controller.ts:62-69 | activation fails exactly when MFA is on, the row is not provisioned, or the TOTP check rejects the token; the error names the first failing guard |
| MfaProperties.ProvisionThenActivate | packages/cli/src/controllers/mfa.controller.ts:37-71 | after provisioning, a token accepted for the returned secret activates MFA, and the enabled row keeps exactly the secret and codes shown |
| MfaProperties.ActivateThenVerify | packages/cli/src/controllers/mfa.controller.ts:58-91 | after a successful activation the same token verifies under the same TOTP check (same time step); under a later check exactly the tokens it accepts for the stored secret verify; any further activation fails with AlreadyEnabled |
| MfaProperties.DisableIdempotent | packages/cli/src/controllers/mfa.controller.ts:77-81 | disabling twice equals disabling once, and leaves no secret and no codes |
| MfaProperties.VerifyIgnoresEnabled | packages/cli/src/controllers/mfa.controller.ts:86-91 | the enabled flag never changes the outcome of verification, so a pending account with an accepted token verifies |

## Left out

- The TOTP algorithm is left out: RFC 6238 codes, the drift window and base32 decoding of the secret. It lives in the `speakeasy` library, which is not part of this model, so it is an uninterpreted parameter.
- The clock is left out. Its reading is folded into the TOTP check that each request carries, so the model does not relate the checks of different time steps to each other.
- Random generation of the secret and of uuid v4 codes is left out. Entropy and uniqueness cannot be stated about values the model takes as inputs.
- DrawUuids: states which uuids the codes are, not that they are distinct or never repeat. Distinctness rests on the randomness of uuid v4.
- The exact `otpauth://` string produced by `speakeasy.otpauthURL` and `generateSecret` is left out. Only its components are modelled.
- HTTP routing, request authentication and the wording of the bad-request messages are left out.
- TypeORM persistence beyond partial-update semantics is left out, and so is the user lookup that yields `req.user`.
- Concurrent requests on the same user are left out. `req.user` is a snapshot and the code has no atomicity. The model handles requests one at a time.
- Recovery-code redemption and rate limiting are left out. The controller does neither.
