/** A stand-in for the bcrypt library used by the User model.

    The real hash is one-way and salted; here a hash is the bcrypt header
    `$2a$<rounds>$` followed by the password, so that comparing is decidable.
    Proofs elsewhere unfold these definitions. The facts they rely on are the
    header shape (`IsHash`) and the two lemmas at the end: a hash is never
    the plaintext, and the plaintext matches its hash while no other
    password does. */
module Bcrypt {

  const Prefix: string := "$2a$"

  /** The cost factors bcrypt accepts. */
  predicate ValidRounds(rounds: nat) {
    4 <= rounds <= 31
  }

  predicate IsDigit(c: char) {
    '0' <= c <= '9'
  }

  /** Length of the header `$2a$NN$` in front of the hashed part. */
  const HeaderLength: nat := 7

  /** The two-digit cost field of a bcrypt hash. */
  function RoundsField(rounds: nat): (r: string)
    requires ValidRounds(rounds)
    ensures |r| == 2 && IsDigit(r[0]) && IsDigit(r[1])
  {
    [(48 + rounds / 10) as char, (48 + rounds % 10) as char]
  }

  /** Whether a stored string has the shape of a bcrypt hash. */
  predicate IsHash(stored: string) {
    && |stored| >= HeaderLength
    && stored[..4] == Prefix
    && IsDigit(stored[4]) && IsDigit(stored[5])
    && stored[6] == '$'
  }

  /** `bcrypt.hash(plaintext, bcrypt.genSalt(rounds))`. */
  function Hash(plaintext: string, rounds: nat): (h: string)
    requires ValidRounds(rounds)
    ensures IsHash(h)
  {
    Prefix + RoundsField(rounds) + "$" + plaintext
  }

  /** `bcrypt.compare(plaintext, stored)`: false for anything that is not a hash. */
  function Compare(plaintext: string, stored: string): (r: bool)
    ensures r ==> IsHash(stored)
  {
    IsHash(stored) && stored[HeaderLength..] == plaintext
  }

  /** A hash is never the plaintext it was made from. */
  lemma HashIsNotPlaintext(plaintext: string, rounds: nat)
    requires ValidRounds(rounds)
    ensures Hash(plaintext, rounds) != plaintext
  {
    assert |Hash(plaintext, rounds)| == HeaderLength + |plaintext|;
  }

  /** The password a hash was made from matches it, and no other password does. */
  lemma CompareHash(plaintext: string, entered: string, rounds: nat)
    requires ValidRounds(rounds)
    ensures Compare(entered, Hash(plaintext, rounds)) <==> entered == plaintext
  {
  }
}
