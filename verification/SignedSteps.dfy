/** Signed handshake steps. */
module SignedSteps {
  import opened Bytes
  import opened Primitives

  const SIGNATURE_LEN := 64

  datatype Signed = Signed(step: byte, identity: bytes, body: bytes, signature: bytes)

  function SignInput(step: byte, identity: bytes, body: bytes): bytes {
    [step] + identity + body
  }

  function SignStep(c: Scheme, identity: bytes, step: byte, body: bytes): Signed {
    var key := c.edPublic(identity);
    Signed(step, key, body, c.sign(identity, SignInput(step, key, body)))
  }

  function Verifies(c: Scheme, f: Signed): bool {
    && |f.signature| == SIGNATURE_LEN
    && c.verify(f.identity, SignInput(f.step, f.identity, f.body), f.signature)
  }

  lemma SignedVerifies(c: Scheme, identity: bytes, step: byte, body: bytes)
    requires Lawful(c)
    ensures Verifies(c, SignStep(c, identity, step, body))
  {
  }
}
