/**
 * The password hasher of the auth service, modelled abstractly.
 *
 * bcrypt is a foreign library: its salt generation, key stretching and
 * encoding are not modelled. What the handlers rely on is that a digest
 * produced by hashing a password with some salt is accepted by the
 * comparison for that password and rejected for every other password.
 * The digest is therefore modelled as an uninterpreted pair of the salt
 * and the hashed secret: two digests are equal only when both parts are,
 * which is the idealised collision resistance of the real hash.
 */
module Passwords {

  /** The salt bcrypt.genSalt produces, supplied by the caller. */
  type Salt = string

  /** An opaque bcrypt output: never compared with a plaintext directly. */
  datatype Digest = Digest(salt: Salt, secret: string)

  /** bcrypt.compare(password, digest): re-hash the candidate with the salt
      embedded in the stored digest and accept exactly when that reproduces
      the stored digest. */
  function Compare(password: string, digest: Digest): (accepted: bool)
    ensures accepted <==> Digest(digest.salt, password) == digest
  {
    password == digest.secret
  }

  /** bcrypt.hash(password, salt): the digest embeds its own salt and is
      accepted by Compare for exactly the password it was made from. */
  function Hash(password: string, salt: Salt): (d: Digest)
    ensures d.salt == salt
    ensures Compare(password, d)
    ensures forall other :: Compare(other, d) ==> other == password
  {
    Digest(salt, password)
  }

}
