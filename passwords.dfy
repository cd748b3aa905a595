/**
 * Password hashing (werkzeug's generate_password_hash / check_password_hash).
 * The hash is an uninterpreted function `hash`; a stored hash matches a
 * presented password exactly when it equals the hash of that password.
 */
module Passwords {

  /** `settings.SAULT + email + password`: what every hash in the service is taken of. */
  function Salted(sault: string, email: string, password: string): string
  {
    sault + email + password
  }

  /** `check_password_hash(pwhash, password)`. */
  predicate CheckPasswordHash(hash: string -> string, pwhash: string, password: string)
  {
    pwhash == hash(password)
  }

  /** A collision-free hash. */
  ghost predicate Injective(hash: string -> string)
  {
    forall a, b :: hash(a) == hash(b) ==> a == b
  }

  /** Two salted strings for the same deployment secret and e-mail are equal only
      when the passwords are. */
  lemma {:induction false} SaltedCancels(sault: string, email: string, p: string, q: string)
    ensures Salted(sault, email, p) == Salted(sault, email, q) <==> p == q
  {
    var k := |sault + email|;
    assert Salted(sault, email, p) == (sault + email) + p;
    assert Salted(sault, email, q) == (sault + email) + q;
    assert ((sault + email) + p)[k..] == p;
    assert ((sault + email) + q)[k..] == q;
  }

  /** After the stored hash is replaced by the hash of the new salted password,
      the check accepts the new password and, for a collision-free hash, rejects
      any other one. */
  lemma RehashAcceptsOnlyNew(hash: string -> string, sault: string, email: string, oldPassword: string, newPassword: string)
    requires Injective(hash)
    ensures CheckPasswordHash(hash, hash(Salted(sault, email, newPassword)), Salted(sault, email, newPassword))
    ensures CheckPasswordHash(hash, hash(Salted(sault, email, newPassword)), Salted(sault, email, oldPassword))
            <==> oldPassword == newPassword
  {
    SaltedCancels(sault, email, oldPassword, newPassword);
  }
}
