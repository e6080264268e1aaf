/**
 * bcrypt, as an ideal one-way function. A digest is a symbolic term: the
 * model can compare a candidate password against it, and no response body
 * of the service has a field of this type, so a digest never leaves the store.
 * bcrypt reads only the first 72 bytes of a password; characters stand for
 * bytes here.
 */
module Bcrypt {

  /** The cost factor every handler passes to `bcrypt.hash`. */
  const SaltRounds: nat := 10

  /** The number of leading bytes of a password that bcrypt uses. */
  const MaxKeyLength: nat := 72

  datatype Digest = Digest(rounds: nat, preimage: string)

  /** The part of a password that bcrypt looks at. */
  function Significant(password: string): (key: string)
    ensures |key| <= MaxKeyLength && |key| <= |password| && key == password[..|key|]
    ensures |password| <= MaxKeyLength ==> key == password
    ensures |password| >= MaxKeyLength ==> key == password[..MaxKeyLength]
  {
    if |password| <= MaxKeyLength then password else password[..MaxKeyLength]
  }

  /** `bcrypt.hash(password, 10)` (the random salt is not modelled). */
  function Hash(password: string): (d: Digest)
    ensures d.rounds == SaltRounds
    ensures Compare(password, d)
  {
    Digest(SaltRounds, Significant(password))
  }

  /** `bcrypt.compare(candidate, digest)`. */
  function Compare(candidate: string, digest: Digest): (matches: bool) {
    Significant(candidate) == digest.preimage
  }

  /** A candidate matches a password's hash iff the two agree on their first 72 characters. */
  lemma CompareHash(candidate: string, password: string)
    ensures Compare(candidate, Hash(password)) <==> Significant(candidate) == Significant(password)
    ensures |candidate| <= MaxKeyLength && |password| <= MaxKeyLength ==>
              (Compare(candidate, Hash(password)) <==> candidate == password)
  {
  }

  /** Past 72 characters nothing counts: any candidate that extends a long password matches its hash. */
  lemma {:induction false} LongPasswordsCollide(password: string, extra: string)
    requires |password| >= MaxKeyLength
    ensures Compare(password + extra, Hash(password))
  {
    assert (password + extra)[..MaxKeyLength] == password[..MaxKeyLength];
  }
}
