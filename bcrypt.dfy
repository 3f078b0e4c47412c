/** The password-hashing library as the user store sees it: a salted
    `Hash` and a `Verify` check. The key derivation is an injective
    stand-in (`salt + password`), not a one-way function; the model relies
    only on no two passwords colliding under one salt. */
module Bcrypt {

  /** The random salt bcrypt draws for every hash; supplied by the caller. */
  type Salt = string

  /** The cost factor the user store passes to `bcrypt.hash`. */
  const SaltRounds: nat := 12

  /** What the `password` field of a user document can hold: a bcrypt hash
      string (cost, salt, digest), or any other text written there
      unhashed. */
  datatype StoredPassword =
    | BcryptHash(cost: nat, salt: Salt, digest: string)
    | Raw(text: string)

  /** Stands for bcrypt's key derivation of `password` under `salt`. */
  function Digest(salt: Salt, password: string): string {
    salt + password
  }

  lemma DigestInjective(salt: Salt, p: string, q: string)
    requires Digest(salt, p) == Digest(salt, q)
    ensures p == q
  {
    assert p == Digest(salt, p)[|salt|..];
    assert q == Digest(salt, q)[|salt|..];
  }

  /** `bcrypt.hash(password, SaltRounds)` with the salt it drew. */
  function Hash(password: string, salt: Salt): (h: StoredPassword)
    ensures h.BcryptHash? && h.cost == SaltRounds && h.salt == salt
  {
    BcryptHash(SaltRounds, salt, Digest(salt, password))
  }

  /** `bcrypt.compare(password, stored)`: re-derives the digest under the
      stored salt. Text that is not a bcrypt hash never matches. */
  predicate Verify(password: string, stored: StoredPassword) {
    stored.BcryptHash? && stored.digest == Digest(stored.salt, password)
  }

  /** A hash verifies exactly the password it was made from. */
  lemma VerifyHash(p: string, q: string, salt: Salt)
    ensures Verify(p, Hash(q, salt)) <==> p == q
  {
    if Verify(p, Hash(q, salt)) {
      DigestInjective(salt, p, q);
    }
  }

  /** Raw text in the password field locks the account: no password
      verifies against it. */
  lemma RawNeverVerifies(p: string, text: string)
    ensures !Verify(p, Raw(text))
  {
  }
}
