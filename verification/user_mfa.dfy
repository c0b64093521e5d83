/**
 The MFA columns of a user row, how a partial repository update overwrites
 them, and the predicates the controller's guards are built from.
 */
module UserMfa {
  import opened Results

  /** The user fields the MFA controller reads or writes. */
  datatype User = User(
    id: string,
    email: string,
    mfaSecret: Option<string>,
    mfaRecoveryCodes: seq<string>,
    mfaEnabled: bool)

  /** One column of a partial update: left as stored, or overwritten. */
  datatype Field<T> = Keep | Write(value: T)

  /** The partial field set given to a repository update of one user. */
  datatype Patch = Patch(
    mfaSecret: Field<Option<string>>,
    mfaRecoveryCodes: Field<seq<string>>,
    mfaEnabled: Field<bool>)

  function Overlay<T>(current: T, f: Field<T>): T {
    match f
    case Keep => current
    case Write(v) => v
  }

  /** The row as stored after a partial update: named columns overwritten, every other column kept. */
  function Update(u: User, p: Patch): (u': User)
    ensures u'.id == u.id && u'.email == u.email
    ensures p.mfaSecret.Keep? ==> u'.mfaSecret == u.mfaSecret
    ensures p.mfaRecoveryCodes.Keep? ==> u'.mfaRecoveryCodes == u.mfaRecoveryCodes
    ensures p.mfaEnabled.Keep? ==> u'.mfaEnabled == u.mfaEnabled
    ensures p.mfaSecret.Write? ==> u'.mfaSecret == p.mfaSecret.value
    ensures p.mfaRecoveryCodes.Write? ==> u'.mfaRecoveryCodes == p.mfaRecoveryCodes.value
    ensures p.mfaEnabled.Write? ==> u'.mfaEnabled == p.mfaEnabled.value
    ensures p == Patch(Keep, Keep, Keep) ==> u' == u
  {
    u.(mfaSecret := Overlay(u.mfaSecret, p.mfaSecret),
       mfaRecoveryCodes := Overlay(u.mfaRecoveryCodes, p.mfaRecoveryCodes),
       mfaEnabled := Overlay(u.mfaEnabled, p.mfaEnabled))
  }

  /** JavaScript truthiness of `mfaSecret`: neither null nor the empty string. */
  predicate HasSecret(u: User) {
    u.mfaSecret.Some? && u.mfaSecret.value != ""
  }

  /** A truthy secret together with a non-empty recovery-code list. */
  predicate Provisioned(u: User) {
    HasSecret(u) && |u.mfaRecoveryCodes| > 0
  }

  /** The invariant the lifecycle keeps: an enabled account always has material to verify against. */
  predicate Consistent(u: User) {
    u.mfaEnabled ==> Provisioned(u)
  }

  /** The three lifecycle phases of an account, read off its columns. */
  datatype Phase = Unprovisioned | Pending | Enabled

  /** On a consistent row the phase tells whether secret and codes are there: every phase but the first has them. */
  function PhaseOf(u: User): (ph: Phase)
    ensures Consistent(u) ==> (ph == Unprovisioned <==> !Provisioned(u))
  {
    if u.mfaEnabled then Enabled
    else if Provisioned(u) then Pending
    else Unprovisioned
  }

  /** A freshly created account: no secret, no codes, MFA off. */
  function NewUser(id: string, email: string): (u: User)
    ensures Consistent(u) && PhaseOf(u) == Unprovisioned
    ensures u.id == id && u.email == email
  {
    User(id, email, None, [], false)
  }
}
