/** The hybrid key exchange: X25519 and ML-KEM-768 combined, each side's secrets used only once. */
module KeyExchange {
  import opened Bytes
  import opened Primitives

  const X25519_LEN := 32
  const EK_LEN := 1184
  const CT_LEN := 1088

  datatype Kex = Kex(
    x25519Secret: Option<bytes>, x25519Public: bytes, mlkemDk: Option<bytes>, mlkemEk: bytes, shared: Option<bytes>)

  function InitiatorKex(c: Scheme, secret: bytes, dk: bytes): Kex {
    Kex(Some(secret), c.x25519Public(secret), Some(dk), c.kemKey(dk), None)
  }

  function ResponderKex(c: Scheme, secret: bytes): Kex {
    Kex(Some(secret), c.x25519Public(secret), None, [], None)
  }

  function InitiatorMessage(k: Kex): bytes {
    k.x25519Public + k.mlkemEk
  }

  /** The responder's step, and its answer. The X25519 secret is gone even when the KEM key is bad. */
  function Accept(c: Scheme, k: Kex, msg: bytes, coins: bytes): (Kex, Result<bytes>) {
    if |msg| < X25519_LEN + EK_LEN then (k, Err("too short"))
    else if k.x25519Secret.None? then (k, Err("x25519 secret already used"))
    else
      var used, ek := k.(x25519Secret := None), msg[X25519_LEN..X25519_LEN + EK_LEN];
      if !c.kemKeyOk(ek) then (used, Err("invalid ML-KEM key"))
      else
        var (ct, kem) := c.encapsulate(ek, coins);
        var dh := c.diffieHellman(k.x25519Secret.value, msg[..X25519_LEN]);
        (used.(shared := Some(c.hkdf(dh + kem))), Ok(k.x25519Public + ct))
  }

  /** The initiator's last step. */
  function Finish(c: Scheme, k: Kex, msg: bytes): (Kex, Result<Unit>) {
    if |msg| < X25519_LEN + CT_LEN then (k, Err("too short"))
    else if k.x25519Secret.None? then (k, Err("x25519 secret already used"))
    else if k.mlkemDk.None? then (k.(x25519Secret := None), Err("no ML-KEM secret"))
    else
      var dh := c.diffieHellman(k.x25519Secret.value, msg[..X25519_LEN]);
      var kem := c.decapsulate(k.mlkemDk.value, msg[X25519_LEN..X25519_LEN + CT_LEN]);
      (k.(x25519Secret := None, mlkemDk := None, shared := Some(c.hkdf(dh + kem))), Ok(Unit))
  }

  /** Both sides of an exchange end with the same secret, derived from the Diffie-Hellman secret and the
      encapsulated one, whatever follows the answer on the wire. */
  lemma SecretsAgree(c: Scheme, secret: bytes, dk: bytes, secret': bytes, coins: bytes, rest: bytes)
    requires Lawful(c)
    ensures var i := InitiatorKex(c, secret, dk);
      var (responder, answer) := Accept(c, ResponderKex(c, secret'), InitiatorMessage(i), coins);
      var (ct, kem) := c.encapsulate(c.kemKey(dk), coins);
      && answer == Ok(c.x25519Public(secret') + ct) && |answer.value| == 1120
      && responder.shared == Some(c.hkdf(c.diffieHellman(secret', c.x25519Public(secret)) + kem))
      && var (initiator, done) := Finish(c, i, answer.value + rest);
      done.Ok? && initiator.shared == responder.shared
  {
    var i := InitiatorKex(c, secret, dk);
    var msg := InitiatorMessage(i);
    assert msg[..X25519_LEN] == c.x25519Public(secret);
    assert msg[X25519_LEN..X25519_LEN + EK_LEN] == c.kemKey(dk);
    var ct := c.encapsulate(c.kemKey(dk), coins).0;
    var answer := c.x25519Public(secret') + ct + rest;
    assert answer[..X25519_LEN] == c.x25519Public(secret');
    assert answer[X25519_LEN..X25519_LEN + CT_LEN] == ct;
  }

  /** Whichever way a step goes, its secrets can be used at most once: every message that is long enough
      uses the X25519 secret up, a bad one too, and without it no step produces a shared secret again. */
  lemma SecretsAreOneShot(c: Scheme, k: Kex, msg: bytes, coins: bytes)
    ensures Accept(c, k, msg, coins).1.Ok? ==> Accept(c, k, msg, coins).0.x25519Secret.None?
    ensures Finish(c, k, msg).1.Ok? ==> Finish(c, k, msg).0.x25519Secret.None?
    ensures k.x25519Secret.None? ==>
      && Accept(c, k, msg, coins).0 == k && Accept(c, k, msg, coins).1.Err?
      && Finish(c, k, msg).0 == k && Finish(c, k, msg).1.Err?
    ensures |msg| >= 1216 ==> Accept(c, k, msg, coins).0.x25519Secret.None?
    ensures |msg| >= 1120 ==> Finish(c, k, msg).0.x25519Secret.None?
    ensures |msg| < 1216 ==> Accept(c, k, msg, coins).0 == k && Accept(c, k, msg, coins).1.Err?
    ensures |msg| < 1120 ==> Finish(c, k, msg).0 == k && Finish(c, k, msg).1.Err?
  {
  }

  class HybridKeyExchange {
    var x25519Secret: Option<bytes>
    var x25519Public: bytes
    var mlkemDk: Option<bytes>
    var mlkemEk: bytes
    var sharedSecret: Option<bytes>

    ghost function St(): Kex
      reads this
    {
      Kex(x25519Secret, x25519Public, mlkemDk, mlkemEk, sharedSecret)
    }

    constructor Initiator(c: Scheme, secret: bytes, dk: bytes)
      ensures St() == InitiatorKex(c, secret, dk)
    {
      x25519Secret, x25519Public := Some(secret), c.x25519Public(secret);
      mlkemDk, mlkemEk := Some(dk), c.kemKey(dk);
      sharedSecret := None;
    }

    constructor Responder(c: Scheme, secret: bytes)
      ensures St() == ResponderKex(c, secret)
    {
      x25519Secret, x25519Public := Some(secret), c.x25519Public(secret);
      mlkemDk, mlkemEk := None, [];
      sharedSecret := None;
    }

    method ResponderAccept(c: Scheme, msg: bytes, coins: bytes) returns (r: Result<bytes>)
      modifies this
      ensures (St(), r) == Accept(c, old(St()), msg, coins)
    {
      if |msg| < X25519_LEN + EK_LEN {
        return Err("too short");
      }
      if x25519Secret.None? {
        return Err("x25519 secret already used");
      }
      var dh := c.diffieHellman(x25519Secret.value, msg[..X25519_LEN]);
      x25519Secret := None;
      var ek := msg[X25519_LEN..X25519_LEN + EK_LEN];
      if !c.kemKeyOk(ek) {
        return Err("invalid ML-KEM key");
      }
      var (ct, kem) := c.encapsulate(ek, coins);
      sharedSecret := Some(c.hkdf(dh + kem));
      return Ok(x25519Public + ct);
    }

    method InitiatorFinish(c: Scheme, msg: bytes) returns (r: Result<Unit>)
      modifies this
      ensures (St(), r) == Finish(c, old(St()), msg)
    {
      if |msg| < X25519_LEN + CT_LEN {
        return Err("too short");
      }
      if x25519Secret.None? {
        return Err("x25519 secret already used");
      }
      var dh := c.diffieHellman(x25519Secret.value, msg[..X25519_LEN]);
      x25519Secret := None;
      if mlkemDk.None? {
        return Err("no ML-KEM secret");
      }
      var kem := c.decapsulate(mlkemDk.value, msg[X25519_LEN..X25519_LEN + CT_LEN]);
      mlkemDk := None;
      sharedSecret := Some(c.hkdf(dh + kem));
      return Ok(Unit);
    }

    method TakeSharedSecret() returns (secret: Option<bytes>)
      modifies this`sharedSecret
      ensures secret == old(sharedSecret) && sharedSecret == None
    {
      secret := sharedSecret;
      sharedSecret := None;
    }
  }
}
