/** What every sequence of calls keeps, whatever the frames and keys. */
module TrustFacts {
  import opened Bytes
  import opened Primitives
  import opened KeyExchange
  import opened Transcripts
  import opened SignedSteps
  import opened PeerCryptos
  import Sas

  datatype Call =
    | Begin
    | RecordStep1(body: bytes)
    | Step2(kex: Kex, frame: Signed, expected: bytes)
    | Finalize3(key: bytes, body: bytes)
    | Step1(identity: bytes, frame: Signed, secret: bytes, coins: bytes, ratchetKey: bytes)
    | Step3(key: bytes, frame: Signed)
    | ConfirmSas
    | Open(plain: Option<bytes>)
    | Renew

  function Apply(c: Scheme, s: State, call: Call): State {
    match call
    case Begin => s.(trust := Handshaking)
    case RecordStep1(body) => Record(s, 1, body).0
    case Step2(kex, frame, expected) => ProcessStep2(c, s, kex, frame, expected).0
    case Finalize3(key, body) => FinalizeStep3(c, s, key, body).0
    case Step1(identity, frame, secret, coins, ratchetKey) =>
      ProcessStep1(c, s, identity, frame, secret, coins, ratchetKey).0
    case Step3(key, frame) => ProcessStep3(c, s, key, frame).0
    case ConfirmSas => Confirm(s).0
    case Open(plain) => Decrypt(s, plain).0
    case Renew => NewConnected
  }

  function ApplyAll(c: Scheme, s: State, calls: seq<Call>): State
    decreases calls
  {
    if calls == [] then s else ApplyAll(c, Apply(c, s, calls[0]), calls[1..])
  }

  predicate Verified(s: State) {
    s.trust.SasPending? || s.trust.Trusted?
  }

  predicate Sound(s: State) {
    && s.transcript.nextStep >= 1
    && (s.secret.Some? ==> s.ratchet.Some? && s.transcript.nextStep > 2)
    && (Verified(s) ==> Complete(s.transcript) && s.secret.Some?)
  }

  lemma ApplyKeepsSound(c: Scheme, s: State, call: Call)
    requires Sound(s)
    ensures Sound(Apply(c, s, call))
  {
    match call
    case Step1(identity, frame, secret, coins, ratchetKey) =>
      Step1KeepsSound(c, s, identity, frame, secret, coins, ratchetKey);
    case Step2(kex, frame, expected) =>
      Step2KeepsSound(c, s, kex, frame, expected);
    case _ =>
  }

  lemma Step1KeepsSound(c: Scheme, s: State, identity: bytes, f: Signed, secret: bytes, coins: bytes, pk: bytes)
    requires Sound(s)
    ensures Sound(ProcessStep1(c, s, identity, f, secret, coins, pk).0)
  {
  }

  lemma Step2KeepsSound(c: Scheme, s: State, kex: Kex, f: Signed, expected: bytes)
    requires Sound(s)
    ensures Sound(ProcessStep2(c, s, kex, f, expected).0)
  {
  }

  /** Whatever is called in whatever order, a peer awaits confirmation or is trusted only with all
      three steps in the transcript, a shared secret and a ratchet. */
  lemma {:induction false} VerifiedIsComplete(c: Scheme, s: State, calls: seq<Call>)
    requires Sound(s)
    ensures var end := ApplyAll(c, s, calls);
      && Sound(end)
      && (Verified(end) ==> Complete(end.transcript) && end.secret.Some? && end.ratchet.Some?)
    decreases calls
  {
    if calls != [] {
      ApplyKeepsSound(c, s, calls[0]);
      VerifiedIsComplete(c, Apply(c, s, calls[0]), calls[1..]);
    }
  }

  /** The calls that start a handshake. */
  predicate Starts(c: Scheme, call: Call) {
    call.Begin? || call.Renew? || (call.Step1? && Verifies(c, call.frame) && call.frame.step == 1)
  }

  /** Trust is gained only by a confirmation while a string is shown, and lost exactly when a
      handshake starts. */
  lemma TrustChanges(c: Scheme, s: State, call: Call)
    requires Sound(s)
    ensures !s.trust.Trusted? ==>
      (Apply(c, s, call).trust.Trusted? <==> call.ConfirmSas? && s.trust.SasPending?)
    ensures s.trust.Trusted? ==> (!Apply(c, s, call).trust.Trusted? <==> Starts(c, call))
    ensures Starts(c, call) ==> !Verified(Apply(c, s, call))
  {
  }

  /** On the way to a trusted state there is a confirmation of a shown string, and no handshake
      starts after it. */
  lemma {:induction false} TrustedWasConfirmed(c: Scheme, s: State, calls: seq<Call>) returns (i: nat)
    requires Sound(s) && !s.trust.Trusted? && ApplyAll(c, s, calls).trust.Trusted?
    ensures i < |calls| && calls[i].ConfirmSas?
    ensures ApplyAll(c, s, calls[..i]).trust.SasPending?
    ensures forall j :: i < j < |calls| ==> !Starts(c, calls[j])
    decreases |calls|
  {
    var n := |calls| - 1;
    ApplyAllSnoc(c, s, calls[..n], calls[n]);
    assert calls == calls[..n] + [calls[n]];
    var before := ApplyAll(c, s, calls[..n]);
    VerifiedIsComplete(c, s, calls[..n]);
    TrustChanges(c, before, calls[n]);
    if before.trust.Trusted? {
      i := TrustedWasConfirmed(c, s, calls[..n]);
      assert calls[..n][..i] == calls[..i];
      forall j | i < j < |calls| ensures !Starts(c, calls[j]) {
        assert j < n ==> calls[..n][j] == calls[j];
      }
    } else {
      i := n;
    }
  }

  lemma {:induction false} ApplyAllSnoc(c: Scheme, s: State, calls: seq<Call>, call: Call)
    ensures ApplyAll(c, s, calls + [call]) == Apply(c, ApplyAll(c, s, calls), call)
    decreases calls
  {
    if calls == [] {
      assert [call][1..] == [];
    } else {
      assert (calls + [call])[1..] == calls[1..] + [call];
      ApplyAllSnoc(c, Apply(c, s, calls[0]), calls[1..], call);
    }
  }

  /** The string shown belongs to the secret, the identities and the transcript held. */
  predicate ShownFits(c: Scheme, s: State, key: bytes) {
    s.trust.SasPending? ==>
      && s.secret.Some?
      && s.trust.sas == Sas.ComputeSas(c, s.secret.value, key, s.remote, s.transcript.data)
  }

  /** Every call keeps that, but for a step 2 that comes when the handshake is over: it fails, yet
      leaves its own sender as the remote identity. */
  lemma ShownFitsUnlessLateStep2(c: Scheme, s: State, call: Call, key: bytes)
    requires Sound(s) && ShownFits(c, s, key)
    requires call.Finalize3? || call.Step3? ==> call.key == key
    requires !(call.Step2? && Verified(s))
    ensures ShownFits(c, Apply(c, s, call), key)
  {
  }

  lemma LateStep2ChangesIdentity(c: Scheme, s: State, kex: Kex, identity: bytes, body: bytes)
    requires Lawful(c) && Sound(s) && Verified(s)
    ensures var frame := SignStep(c, identity, 2, body);
      var (next, _, r) := ProcessStep2(c, s, kex, frame, frame.identity);
      r.Err? && next == s.(remote := c.edPublic(identity))
  {
    SignedVerifies(c, identity, 2, body);
  }

  /** Nothing is decrypted before a string is shown; from then on every message that opens is handed on,
      and of the state only the readiness to send changes. */
  lemma DecryptGate(s: State, plain: Option<bytes>)
    requires Sound(s)
    ensures var (t, r) := Decrypt(s, plain);
      && (r.Ok? <==> (s.trust.SasPending? || s.trust.Trusted?) && plain.Some?)
      && (r.Ok? ==> r.value == plain.value && t.ratchet.Some?
                    && t == s.(ratchet := Some(s.ratchet.value.(sendReady := t.ratchet.value.sendReady))))
      && (r.Err? ==> t == s)
  {
  }

  /** Nothing is encrypted before confirmation, and the answering side not before it has opened a
      first message; from then on every message passes until the next handshake. */
  lemma EncryptGate(s: State, m: bytes)
    requires Sound(s)
    ensures MayEncrypt(s).Ok? <==> s.trust.Trusted? && s.ratchet.value.sendReady
    ensures MayEncrypt(Decrypt(s, Some(m)).0).Ok? <==>
      s.trust.Trusted? && (s.ratchet.value.sendReady || !s.ratchet.value.initiator)
  {
  }
}
