/** The cryptographic state of one peer: trust, transcript, secret and ratchet. */
module PeerCryptos {
  import opened Bytes
  import opened Primitives
  import opened KeyExchange
  import opened Transcripts
  import opened SignedSteps
  import Sas

  const RATCHET_PK_LEN := 32
  const KEX_LEN := X25519_LEN + CT_LEN
  const NO_IDENTITY: bytes :=
    [0, 0, 0, 0, 0, 0, 0, 0, 0, 0, 0, 0, 0, 0, 0, 0, 0, 0, 0, 0, 0, 0, 0, 0, 0, 0, 0, 0, 0, 0, 0, 0]
  const FINISH_BODY: bytes := [0x01]

  datatype Trust = Connected | Handshaking | SasPending(sas: string) | Trusted

  /** Of the message ratchet only who opened it and whether it may send. */
  datatype Ratchet = Ratchet(initiator: bool, sendReady: bool)

  datatype State = State(
    remote: bytes, trust: Trust, ratchet: Option<Ratchet>, transcript: Transcript, secret: Option<bytes>)

  const NewConnected := State(NO_IDENTITY, Connected, None, Empty, None)

  function Confirm(s: State): (State, Result<Unit>) {
    if s.trust.SasPending? then (s.(trust := Trusted), Ok(Unit))
    else if s.trust.Trusted? then (s, Ok(Unit))
    else (s, Err("peer is not awaiting SAS confirmation"))
  }

  function Record(s: State, step: nat, body: bytes): (State, Result<Unit>) {
    var (t, r) := Append(s.transcript, step, body);
    (s.(transcript := t), r)
  }

  /** A step 2 that reaches the transcript stays there even when the key exchange then fails. */
  function ProcessStep2(c: Scheme, s: State, k: Kex, f: Signed, expected: bytes): (State, Kex, Result<bytes>) {
    if !Verifies(c, f) then (s, k, Err("signature verification failed"))
    else if f.step != 2 then (s, k, Err("expected handshake step 2"))
    else if f.identity != expected then (s, k, Err("handshake identity does not match QR public key"))
    else
      var (recorded, r) := Record(s.(remote := f.identity), 2, f.body);
      if r.Err? then (recorded, k, Err(r.error))
      else if |f.body| < KEX_LEN + RATCHET_PK_LEN then
        (recorded, k, Err("handshake response too short for KEX + ratchet"))
      else
        var (k', done) := Finish(c, k, f.body[..KEX_LEN]);
        if done.Err? then (recorded, k', Err(done.error))
        else if k'.shared.None? then (recorded, k', Err("handshake incomplete"))
        else
          (recorded.(secret := k'.shared, ratchet := Some(Ratchet(true, true))), k'.(shared := None), Ok(FINISH_BODY))
  }

  function FinalizeSas(c: Scheme, s: State, key: bytes): (State, Result<string>) {
    if !Complete(s.transcript) then (s, Err("handshake transcript incomplete"))
    else if s.secret.None? then (s, Err("no shared secret"))
    else
      var sas := Sas.ComputeSas(c, s.secret.value, key, s.remote, s.transcript.data);
      (s.(trust := SasPending(sas)), Ok(sas))
  }

  function FinalizeStep3(c: Scheme, s: State, key: bytes, body: bytes): (State, Result<string>) {
    var (recorded, r) := Record(s, 3, body);
    if r.Err? then (recorded, Err(r.error)) else FinalizeSas(c, recorded, key)
  }

  /** The responder's answer to step 1; `ratchetKey` is the key of its fresh ratchet. */
  function ProcessStep1(c: Scheme, s: State, identity: bytes, f: Signed, secret: bytes, coins: bytes, ratchetKey: bytes)
    : (State, Result<Signed>)
  {
    if !Verifies(c, f) then (s, Err("signature verification failed"))
    else if f.step != 1 then (s, Err("expected handshake step 1"))
    else
      var (recorded, r) := Record(s.(trust := Handshaking, remote := f.identity), 1, f.body);
      if r.Err? then (recorded, Err(r.error))
      else
        var (k, answer) := Accept(c, ResponderKex(c, secret), f.body, coins);
        if answer.Err? then (recorded, Err(answer.error))
        else if k.shared.None? then (recorded, Err("responder handshake incomplete"))
        else
          var keyed := recorded.(secret := k.shared, ratchet := Some(Ratchet(false, false)));
          var body := answer.value + ratchetKey;
          var (answered, r2) := Record(keyed, 2, body);
          if r2.Err? then (answered, Err(r2.error)) else (answered, Ok(SignStep(c, identity, 2, body)))
  }

  /** The responder's key exchange after its answer. */
  function SpentKex(c: Scheme, msg: bytes, secret: bytes, coins: bytes): Kex {
    Accept(c, ResponderKex(c, secret), msg, coins).0
  }

  function ProcessStep3(c: Scheme, s: State, key: bytes, f: Signed): (State, Result<string>) {
    if !Verifies(c, f) then (s, Err("signature verification failed"))
    else if f.step != 3 then (s, Err("expected handshake step 3"))
    else if f.identity != s.remote then (s, Err("finish identity mismatch"))
    else
      var (recorded, r) := Record(s, 3, f.body);
      if r.Err? then (recorded, Err(r.error))
      else if s.ratchet.None? then (recorded, Err("responder ratchet not initialized"))
      else FinalizeSas(c, recorded, key)
  }

  /** Whether encryption is allowed now. */
  function MayEncrypt(s: State): Result<Unit> {
    if !s.trust.Trusted? then Err("peer not trusted — confirm SAS first")
    else if s.ratchet.None? then Err("no session ratchet")
    else if !s.ratchet.value.sendReady then Err("ratchet send chain not ready")
    else Ok(Unit)
  }

  /** Decryption, given what the ratchet makes of the ciphertext. A first message opens the
      responder's sending side. */
  function Decrypt(s: State, plain: Option<bytes>): (State, Result<bytes>) {
    if !s.trust.SasPending? && !s.trust.Trusted? then (s, Err("cannot decrypt — handshake incomplete"))
    else if s.ratchet.None? then (s, Err("no session ratchet"))
    else if plain.None? then (s, Err("decryption failed"))
    else
      var ready := s.ratchet.value.sendReady || !s.ratchet.value.initiator;
      (s.(ratchet := Some(s.ratchet.value.(sendReady := ready))), Ok(plain.value))
  }

  class PeerCrypto {
    var remoteIdentity: bytes
    var trust: Trust
    var ratchet: Option<Ratchet>
    const transcript: HandshakeTranscript
    var sharedSecret: Option<bytes>

    ghost function St(): State
      reads this, transcript
    {
      State(remoteIdentity, trust, ratchet, transcript.St(), sharedSecret)
    }

    constructor ()
      ensures St() == NewConnected && fresh(transcript)
    {
      remoteIdentity, trust, ratchet := NO_IDENTITY, Connected, None;
      transcript := new HandshakeTranscript();
      sharedSecret := None;
    }

    method ConfirmTrusted() returns (r: Result<Unit>)
      modifies this`trust
      ensures (St(), r) == Confirm(old(St()))
    {
      match trust {
        case SasPending(_) =>
          trust := Trusted;
          return Ok(Unit);
        case Trusted =>
          return Ok(Unit);
        case _ =>
          return Err("peer is not awaiting SAS confirmation");
      }
    }

    method BeginInitiator(c: Scheme, secret: bytes, dk: bytes) returns (body: bytes, kex: HybridKeyExchange)
      modifies this`trust
      ensures St() == old(St()).(trust := Handshaking)
      ensures fresh(kex) && kex.St() == InitiatorKex(c, secret, dk) && body == InitiatorMessage(kex.St())
    {
      trust := Handshaking;
      kex := new HybridKeyExchange.Initiator(c, secret, dk);
      body := kex.x25519Public + kex.mlkemEk;
    }

    method InitiatorProcessStep2(c: Scheme, kex: HybridKeyExchange, f: Signed, expected: bytes)
      returns (r: Result<bytes>)
      modifies this, transcript, kex
      ensures (St(), kex.St(), r) == ProcessStep2(c, old(St()), old(kex.St()), f, expected)
    {
      if !Verifies(c, f) {
        return Err("signature verification failed");
      }
      if f.step != 2 {
        return Err("expected handshake step 2");
      }
      if f.identity != expected {
        return Err("handshake identity does not match QR public key");
      }
      remoteIdentity := f.identity;
      var recorded := transcript.AppendBody(2, f.body);
      if recorded.Err? {
        return Err(recorded.error);
      }
      if |f.body| < KEX_LEN + RATCHET_PK_LEN {
        return Err("handshake response too short for KEX + ratchet");
      }
      var finished := kex.InitiatorFinish(c, f.body[..KEX_LEN]);
      if finished.Err? {
        return Err(finished.error);
      }
      var secret := kex.TakeSharedSecret();
      if secret.None? {
        return Err("handshake incomplete");
      }
      sharedSecret := secret;
      ratchet := Some(Ratchet(true, true));
      return Ok(FINISH_BODY);
    }

    method ResponderProcessStep1(c: Scheme, identity: bytes, f: Signed, secret: bytes, coins: bytes, ratchetKey: bytes)
      returns (r: Result<Signed>, kex: HybridKeyExchange)
      modifies this, transcript
      ensures (St(), r) == ProcessStep1(c, old(St()), identity, f, secret, coins, ratchetKey)
      ensures fresh(kex) && (r.Ok? ==> kex.St() == SpentKex(c, f.body, secret, coins))
    {
      kex := new HybridKeyExchange.Responder(c, secret);
      if !Verifies(c, f) {
        return Err("signature verification failed"), kex;
      }
      if f.step != 1 {
        return Err("expected handshake step 1"), kex;
      }
      trust := Handshaking;
      remoteIdentity := f.identity;
      var recorded := transcript.AppendBody(1, f.body);
      if recorded.Err? {
        return Err(recorded.error), kex;
      }
      var answer := kex.ResponderAccept(c, f.body, coins);
      if answer.Err? {
        return Err(answer.error), kex;
      }
      if kex.sharedSecret.None? {
        return Err("responder handshake incomplete"), kex;
      }
      sharedSecret := kex.sharedSecret;
      ratchet := Some(Ratchet(false, false));
      var body := answer.value + ratchetKey;
      recorded := transcript.AppendBody(2, body);
      if recorded.Err? {
        return Err("transcript out of order"), kex;
      }
      return Ok(SignStep(c, identity, 2, body)), kex;
    }

    method InitiatorFinalizeStep3(c: Scheme, key: bytes, body: bytes) returns (r: Result<string>)
      modifies this`trust, transcript
      ensures (St(), r) == FinalizeStep3(c, old(St()), key, body)
    {
      var recorded := transcript.AppendBody(3, body);
      if recorded.Err? {
        return Err(recorded.error);
      }
      r := Finalize(c, key);
    }

    method ResponderProcessStep3(c: Scheme, key: bytes, f: Signed) returns (r: Result<string>)
      modifies this`trust, transcript
      ensures (St(), r) == ProcessStep3(c, old(St()), key, f)
    {
      if !Verifies(c, f) {
        return Err("signature verification failed");
      }
      if f.step != 3 {
        return Err("expected handshake step 3");
      }
      if f.identity != remoteIdentity {
        return Err("finish identity mismatch");
      }
      var recorded := transcript.AppendBody(3, f.body);
      if recorded.Err? {
        return Err(recorded.error);
      }
      if ratchet.None? {
        return Err("responder ratchet not initialized");
      }
      r := Finalize(c, key);
    }

    method Finalize(c: Scheme, key: bytes) returns (r: Result<string>)
      modifies this`trust
      ensures (St(), r) == FinalizeSas(c, old(St()), key)
    {
      if transcript.nextStep <= STEPS {
        return Err("handshake transcript incomplete");
      }
      if sharedSecret.None? {
        return Err("no shared secret");
      }
      var sas := Sas.ComputeSas(c, sharedSecret.value, key, remoteIdentity, transcript.data);
      trust := SasPending(sas);
      return Ok(sas);
    }

    method DecryptOpened(plain: Option<bytes>) returns (r: Result<bytes>)
      modifies this`ratchet
      ensures (St(), r) == Decrypt(old(St()), plain)
    {
      if !trust.SasPending? && !trust.Trusted? {
        return Err("cannot decrypt — handshake incomplete");
      }
      if ratchet.None? {
        return Err("no session ratchet");
      }
      if plain.None? {
        return Err("decryption failed");
      }
      if !ratchet.value.initiator {
        ratchet := Some(ratchet.value.(sendReady := true));
      }
      return Ok(plain.value);
    }
  }
}
