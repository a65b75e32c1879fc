/**
 The cryptographic primitives, as functions of which nothing is known but the laws in `Lawful`:
 lengths, the commutativity of Diffie-Hellman, that a KEM decapsulates what was encapsulated to its
 key, and that a signature verifies under its own key.
 */
module Primitives {
  import opened Bytes

  datatype Scheme = Scheme(
    x25519Public: bytes -> bytes,
    diffieHellman: (bytes, bytes) -> bytes,
    kemKey: bytes -> bytes,
    kemKeyOk: bytes -> bool,
    encapsulate: (bytes, bytes) -> (bytes, bytes),
    decapsulate: (bytes, bytes) -> bytes,
    hkdf: bytes -> bytes,
    sha256: bytes -> bytes,
    edPublic: bytes -> bytes,
    sign: (bytes, bytes) -> bytes,
    verify: (bytes, bytes, bytes) -> bool)

  ghost predicate Lengths(c: Scheme) {
    && (forall x :: |c.x25519Public(x)| == 32)
    && (forall x :: |c.kemKey(x)| == 1184)
    && (forall ek, coins :: |c.encapsulate(ek, coins).0| == 1088)
    && (forall x :: |c.hkdf(x)| == 32)
    && (forall x :: |c.sha256(x)| == 32)
    && (forall x :: |c.edPublic(x)| == 32)
    && (forall sk, m :: |c.sign(sk, m)| == 64)
  }

  ghost predicate Lawful(c: Scheme) {
    && Lengths(c)
    && (forall a, b :: c.diffieHellman(a, c.x25519Public(b)) == c.diffieHellman(b, c.x25519Public(a)))
    && (forall dk :: c.kemKeyOk(c.kemKey(dk)))
    && (forall dk, coins ::
          c.decapsulate(dk, c.encapsulate(c.kemKey(dk), coins).0) == c.encapsulate(c.kemKey(dk), coins).1)
    && (forall sk, m :: c.verify(c.edPublic(sk), m, c.sign(sk, m)))
  }
}
