/** `hashPassword` / `comparePassword` (utils/password.ts), an idealised bcrypt.
    The random salt is an explicit parameter; the digest is symbolic: the model never
    inspects it except through `ComparePassword`, which succeeds exactly for the text
    bcrypt actually reads, the first 72 bytes of the password (one character stands for
    one byte here). */
module Password {

  /** Work factor the source configures for `bcrypt.genSalt`. */
  const ROUNDS: nat := 12

  /** bcrypt ignores every byte of the password after the 72nd. */
  const MAX_PASSWORD_BYTES: nat := 72

  datatype PasswordHash = Bcrypt(rounds: nat, salt: nat, digest: string)

  /** The part of a password bcrypt reads. */
  function BcryptInput(plain: string): (r: string)
    ensures |r| <= MAX_PASSWORD_BYTES
    ensures r <= plain
    ensures |plain| <= MAX_PASSWORD_BYTES ==> r == plain
    ensures |plain| > MAX_PASSWORD_BYTES ==> r == plain[..MAX_PASSWORD_BYTES]
  {
    if |plain| <= MAX_PASSWORD_BYTES then plain else plain[..MAX_PASSWORD_BYTES]
  }

  function HashPassword(plain: string, salt: nat): (h: PasswordHash)
    ensures h.rounds == ROUNDS && h.salt == salt
    ensures ComparePassword(plain, h)
  {
    Bcrypt(ROUNDS, salt, BcryptInput(plain))
  }

  /** bcrypt's check: the candidate is hashed again with the stored salt and the digests
      are compared, so only the candidate's first 72 bytes matter. */
  predicate ComparePassword(plain: string, h: PasswordHash): (b: bool)
    ensures b ==> |h.digest| <= MAX_PASSWORD_BYTES
    ensures |plain| <= MAX_PASSWORD_BYTES ==> (b <==> h.digest == plain)
    ensures |plain| > MAX_PASSWORD_BYTES ==> (b <==> h.digest == plain[..MAX_PASSWORD_BYTES])
  {
    h.digest == BcryptInput(plain)
  }

  /** A hash accepts exactly the passwords that agree with the hashed one on what bcrypt
      reads, whatever the salt; for passwords of at most 72 bytes, only that password. */
  lemma CompareHashed(plain: string, other: string, salt: nat)
    ensures ComparePassword(other, HashPassword(plain, salt)) <==> BcryptInput(other) == BcryptInput(plain)
    ensures |plain| <= MAX_PASSWORD_BYTES && |other| <= MAX_PASSWORD_BYTES ==>
              (ComparePassword(other, HashPassword(plain, salt)) <==> other == plain)
  {
  }

  /** Past 72 bytes, any tail is accepted: a password and any extension of its first 72
      bytes unlock the same hash. */
  lemma LongPasswordTailIgnored(plain: string, tail: string, salt: nat)
    requires |plain| >= MAX_PASSWORD_BYTES
    ensures ComparePassword(plain[..MAX_PASSWORD_BYTES] + tail, HashPassword(plain, salt))
  {
    assert (plain[..MAX_PASSWORD_BYTES] + tail)[..MAX_PASSWORD_BYTES] == plain[..MAX_PASSWORD_BYTES];
  }
}
