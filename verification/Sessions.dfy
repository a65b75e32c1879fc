/** The engine's handlers for one peer's handshake, each as the one atomic step it is under the lock. */
module Sessions {
  import opened Bytes
  import opened Primitives
  import opened KeyExchange
  import opened SignedSteps
  import opened PeerCryptos

  const SUPERSEDED := "handshake superseded by the peer's simultaneous handshake"

  datatype Role = Initiator | Responder

  datatype Session = Session(
    crypto: State, pendingKex: Option<Kex>, role: Option<Role>,
    step1: Option<Signed>, answeredStep1: Option<bytes>, step2: Option<Signed>)

  const NewSession := Session(NewConnected, None, None, None, None, None)

  datatype Decision = Ignore | Resend(frame: Signed) | Respond(answer: Signed, yielded: bool) | Fail(error: string)

  /** Starting a handshake as initiator, unless the peer's own has reached us first. */
  function Start(c: Scheme, s: Session, identity: bytes, secret: bytes, dk: bytes): (Session, Result<Signed>) {
    if s.role == Some(Responder) then (s, Err(SUPERSEDED))
    else
      var kex := InitiatorKex(c, secret, dk);
      var body := InitiatorMessage(kex);
      var frame := SignStep(c, identity, 1, body);
      var crypto := Record(NewConnected.(trust := Handshaking), 1, body).0;
      (Session(crypto, Some(kex), Some(Initiator), Some(frame), None, None), Ok(frame))
  }

  predicate IsDuplicate(s: Session, f: Signed) {
    s.answeredStep1 == Some(f.signature)
  }

  predicate WrongPeer(s: Session, canonical: bool, f: Signed) {
    canonical && s.crypto.remote != NO_IDENTITY && s.crypto.remote != f.identity
  }

  /** A step 1 from the peer. `canonical` tells whether the peer is already known by its key. */
  function OnStep1(c: Scheme, s: Session, identity: bytes, canonical: bool, f: Signed,
                   secret: bytes, coins: bytes, ratchetKey: bytes): (Session, Decision)
  {
    if !Verifies(c, f) then (s, Ignore)
    else if IsDuplicate(s, f) then
      (s, if s.role == Some(Responder) && s.step2.Some? then Resend(s.step2.value) else Ignore)
    else if WrongPeer(s, canonical, f) then (s, Fail("handshake identity does not match this peer — ignored"))
    else if s.role == Some(Initiator) && Less(c.edPublic(identity), f.identity) then (s, Ignore)
    else Answer(c, s, identity, f, secret, coins, ratchetKey)
  }

  /** Becoming responder, whatever we were before. */
  function Answer(c: Scheme, s: Session, identity: bytes, f: Signed, secret: bytes, coins: bytes, ratchetKey: bytes)
    : (Session, Decision)
  {
    var (crypto, answer) := ProcessStep1(c, NewConnected, identity, f, secret, coins, ratchetKey);
    if answer.Err? then (s.(crypto := crypto, pendingKex := None, step1 := None, role := None), Fail(answer.error))
    else
      (Session(crypto, Some(SpentKex(c, f.body, secret, coins)), Some(Responder), None, Some(f.signature),
               Some(answer.value)),
       Respond(answer.value, s.role == Some(Initiator)))
  }

  /** The initiator's task going on with the step 2 it was handed. */
  function OnStep2(c: Scheme, s: Session, identity: bytes, f: Signed, expected: bytes)
    : (Session, Result<(Signed, string)>)
  {
    if s.role != Some(Initiator) then (s, Err("handshake state lost"))
    else
      var ended := s.(pendingKex := None, role := None, step1 := None);
      if s.pendingKex.None? then (ended.(crypto := NewConnected), Err("handshake state lost"))
      else
        var (crypto, _, body) := ProcessStep2(c, s.crypto, s.pendingKex.value, f, expected);
        if body.Err? then (ended.(crypto := NewConnected), Err(body.error))
        else
          var (final, sas) := FinalizeStep3(c, crypto, c.edPublic(identity), body.value);
          if sas.Err? then (ended.(crypto := NewConnected), Err(sas.error))
          else (ended.(crypto := final), Ok((SignStep(c, identity, 3, body.value), sas.value)))
  }

  /** The responder's last step. */
  function OnFinish(c: Scheme, s: Session, identity: bytes, f: Signed): (Session, Result<string>) {
    if s.role != Some(Responder) then (s, Err("unexpected handshake finish"))
    else
      var (crypto, sas) := ProcessStep3(c, s.crypto, c.edPublic(identity), f);
      (s.(pendingKex := None, role := None, step2 := None, crypto := if sas.Ok? then crypto else NewConnected), sas)
  }

  /** Giving up as initiator. */
  function Abort(s: Session): Session {
    if s.role == Some(Initiator)
    then s.(crypto := NewConnected, pendingKex := None, role := None, step1 := None)
    else s
  }

  class PeerSession {
    var crypto: PeerCrypto
    var pendingKex: HybridKeyExchange?
    var role: Option<Role>
    var step1: Option<Signed>
    var answeredStep1: Option<bytes>
    var step2: Option<Signed>

    ghost function St(): Session
      reads this, crypto, crypto.transcript, pendingKex
    {
      Session(crypto.St(), if pendingKex == null then None else Some(pendingKex.St()), role,
              step1, answeredStep1, step2)
    }

    constructor ()
      ensures St() == NewSession && fresh(crypto) && fresh(crypto.transcript)
    {
      crypto := new PeerCrypto();
      pendingKex := null;
      role, step1, answeredStep1, step2 := None, None, None, None;
    }

    method BeginHandshake(c: Scheme, identity: bytes, secret: bytes, dk: bytes) returns (r: Result<Signed>)
      modifies this
      ensures (St(), r) == Start(c, old(St()), identity, secret, dk)
      ensures r.Ok? ==> fresh(crypto) && fresh(crypto.transcript) && fresh(pendingKex)
    {
      if role == Some(Responder) {
        return Err(SUPERSEDED);
      }
      crypto := new PeerCrypto();
      answeredStep1, step2 := None, None;
      var body, kex := crypto.BeginInitiator(c, secret, dk);
      var recorded := crypto.transcript.AppendBody(1, body);
      pendingKex, role := kex, Some(Initiator);
      var frame := SignStep(c, identity, 1, body);
      step1 := Some(frame);
      return Ok(frame);
    }

    method HandleInit(c: Scheme, identity: bytes, canonical: bool, f: Signed,
                      secret: bytes, coins: bytes, ratchetKey: bytes) returns (d: Decision)
      modifies this
      ensures (St(), d) == OnStep1(c, old(St()), identity, canonical, f, secret, coins, ratchetKey)
      ensures d.Respond? ==> fresh(crypto) && fresh(crypto.transcript)
    {
      if !Verifies(c, f) {
        return Ignore;
      }
      if answeredStep1 == Some(f.signature) {
        return if role == Some(Responder) && step2.Some? then Resend(step2.value) else Ignore;
      }
      if canonical && crypto.remoteIdentity != NO_IDENTITY && crypto.remoteIdentity != f.identity {
        return Fail("handshake identity does not match this peer — ignored");
      }
      if role == Some(Initiator) && Less(c.edPublic(identity), f.identity) {
        return Ignore;
      }
      d := AnswerInit(c, identity, f, secret, coins, ratchetKey);
    }

    method AnswerInit(c: Scheme, identity: bytes, f: Signed, secret: bytes, coins: bytes, ratchetKey: bytes)
      returns (d: Decision)
      modifies this
      ensures (St(), d) == Answer(c, old(St()), identity, f, secret, coins, ratchetKey)
      ensures d.Respond? ==> fresh(crypto) && fresh(crypto.transcript)
    {
      var yielded := role == Some(Initiator);
      crypto := new PeerCrypto();
      pendingKex, step1 := null, None;
      var answer, kex := crypto.ResponderProcessStep1(c, identity, f, secret, coins, ratchetKey);
      if answer.Err? {
        role := None;
        return Fail(answer.error);
      }
      pendingKex, role := kex, Some(Responder);
      answeredStep1, step2 := Some(f.signature), Some(answer.value);
      return Respond(answer.value, yielded);
    }

    method ContinueWithStep2(c: Scheme, identity: bytes, f: Signed, expected: bytes)
      returns (r: Result<(Signed, string)>)
      modifies this, crypto, crypto.transcript, pendingKex
      ensures (St(), r) == OnStep2(c, old(St()), identity, f, expected)
    {
      if role != Some(Initiator) {
        return Err("handshake state lost");
      }
      var kex := pendingKex;
      pendingKex, role, step1 := null, None, None;
      if kex == null {
        crypto := new PeerCrypto();
        return Err("handshake state lost");
      }
      var body := crypto.InitiatorProcessStep2(c, kex, f, expected);
      if body.Err? {
        crypto := new PeerCrypto();
        return Err(body.error);
      }
      var sas := crypto.InitiatorFinalizeStep3(c, c.edPublic(identity), body.value);
      if sas.Err? {
        crypto := new PeerCrypto();
        return Err(sas.error);
      }
      return Ok((SignStep(c, identity, 3, body.value), sas.value));
    }

    method HandleFinish(c: Scheme, identity: bytes, f: Signed) returns (r: Result<string>)
      modifies this, crypto, crypto.transcript
      ensures (St(), r) == OnFinish(c, old(St()), identity, f)
    {
      if role != Some(Responder) {
        return Err("unexpected handshake finish");
      }
      pendingKex, role, step2 := null, None, None;
      r := crypto.ResponderProcessStep3(c, c.edPublic(identity), f);
      if r.Err? {
        crypto := new PeerCrypto();
      }
    }

    method AbortInitiator()
      modifies this
      ensures St() == Abort(old(St()))
    {
      if role == Some(Initiator) {
        crypto := new PeerCrypto();
        pendingKex, role, step1 := null, None, None;
      }
    }
  }
}
