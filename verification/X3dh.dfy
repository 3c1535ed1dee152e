/** The X3DH handshake, and how it starts a ratchet session. */
module X3dh {
  import opened Crypto
  import opened DoubleRatchet
  import opened SessionBook
  import opened Runs
  import opened Secrecy
  import opened AtMostOnce
  import opened Descent

  /** An Ed25519 public key: one with a secret key, or bytes that are not a point. */
  datatype SignPublic = EdPoint(n: nat) | EdInvalid(tag: nat)

  datatype IdentityKeyPair = IdentityKeyPair(public: SignPublic, secret: nat)

  datatype Signature = Signature(signer: nat, message: PublicKey) | BadSignature(tag: nat)

  datatype Bundle = Bundle(
    identityKey: SignPublic,
    signedPrekey: PublicKey,
    signature: Signature,
    oneTimePrekey: Option<(u32, PublicKey)>)

  datatype InitResult = InitResult(secret: Term, ephemeral: PublicKey, usedOneTimePrekey: Option<u32>)

  function GenIdentity(n: nat): IdentityKeyPair {
    IdentityKeyPair(EdPoint(n), n)
  }

  predicate VerifyDetached(sig: Signature, message: PublicKey, key: SignPublic) {
    key.EdPoint? && sig == Signature(key.n, message)
  }

  function SecretToCurve(n: nat): KeyId {
    FromIdentity(n)
  }

  function PublicToCurve(key: SignPublic): Result<PublicKey> {
    match key
    case EdPoint(n) => Success(Point(FromIdentity(n)))
    case EdInvalid(_) => Failure(InvalidKeyLength)
  }

  /** Scalar multiplication as X3DH reports it. */
  function X3dhDh(ours: KeyId, theirs: PublicKey): Result<Term> {
    match DhExchange(ours, theirs)
    case Success(t) => Success(t)
    case Failure(_) => Failure(HkdfExpandFailed)
  }

  function Initiated(sender: IdentityKeyPair, b: Bundle, ephemeral: KeyId): Result<InitResult> {
    if !VerifyDetached(b.signature, b.signedPrekey, b.identityKey) then
      Failure(InvalidPreKeySignature)
    else
      var theirIdentity :- PublicToCurve(b.identityKey);
      var dh1 :- X3dhDh(SecretToCurve(sender.secret), b.signedPrekey);
      var dh2 :- X3dhDh(ephemeral, theirIdentity);
      var dh3 :- X3dhDh(ephemeral, b.signedPrekey);
      match b.oneTimePrekey
      case None => Success(InitResult(X3dhSecret([dh1, dh2, dh3]), Point(ephemeral), None))
      case Some((id, key)) =>
        var dh4 :- X3dhDh(ephemeral, key);
        Success(InitResult(X3dhSecret([dh1, dh2, dh3, dh4]), Point(ephemeral), Some(id)))
  }

  function AcceptedSecret(receiver: IdentityKeyPair, signedPrekey: KeyId, oneTimePrekey: Option<KeyId>,
                          senderIdentity: SignPublic, senderEphemeral: PublicKey): Result<Term> {
    var theirIdentity :- PublicToCurve(senderIdentity);
    var dh1 :- X3dhDh(signedPrekey, theirIdentity);
    var dh2 :- X3dhDh(SecretToCurve(receiver.secret), senderEphemeral);
    var dh3 :- X3dhDh(signedPrekey, senderEphemeral);
    match oneTimePrekey
    case None => Success(X3dhSecret([dh1, dh2, dh3]))
    case Some(key) =>
      var dh4 :- X3dhDh(key, senderEphemeral);
      Success(X3dhSecret([dh1, dh2, dh3, dh4]))
  }

  method InitiateX3dh(sender: IdentityKeyPair, b: Bundle, ephemeral: KeyId) returns (r: Result<InitResult>)
    ensures r == Initiated(sender, b, ephemeral)
  {
    if !VerifyDetached(b.signature, b.signedPrekey, b.identityKey) {
      return Failure(InvalidPreKeySignature);
    }
    // A key that verified is a point, and its conversion is one too.
    var theirIdentity := PublicToCurve(b.identityKey).value;
    var dh1 :- X3dhDh(SecretToCurve(sender.secret), b.signedPrekey);
    var dh2, dh3 := X3dhDh(ephemeral, theirIdentity).value, X3dhDh(ephemeral, b.signedPrekey).value;
    var dhConcat := [];
    dhConcat := dhConcat + [dh1];
    dhConcat := dhConcat + [dh2];
    dhConcat := dhConcat + [dh3];
    assert dhConcat == [dh1, dh2, dh3];
    var used: Option<u32> := None;
    if b.oneTimePrekey.Some? {
      var dh4 :- X3dhDh(ephemeral, b.oneTimePrekey.value.1);
      dhConcat := dhConcat + [dh4];
      assert dhConcat == [dh1, dh2, dh3, dh4];
      used := Some(b.oneTimePrekey.value.0);
    }
    return Success(InitResult(X3dhSecret(dhConcat), Point(ephemeral), used));
  }

  method AcceptX3dh(receiver: IdentityKeyPair, signedPrekey: KeyId, oneTimePrekey: Option<KeyId>,
                    senderIdentity: SignPublic, senderEphemeral: PublicKey) returns (r: Result<Term>)
    ensures r == AcceptedSecret(receiver, signedPrekey, oneTimePrekey, senderIdentity, senderEphemeral)
  {
    var theirIdentity :- PublicToCurve(senderIdentity);
    var dh1 := X3dhDh(signedPrekey, theirIdentity).value;
    var dh2 :- X3dhDh(SecretToCurve(receiver.secret), senderEphemeral);
    // The ephemeral key was accepted once, so it is accepted again.
    var dh3 := X3dhDh(signedPrekey, senderEphemeral).value;
    var dhConcat := [];
    dhConcat := dhConcat + [dh1];
    dhConcat := dhConcat + [dh2];
    dhConcat := dhConcat + [dh3];
    assert dhConcat == [dh1, dh2, dh3];
    if oneTimePrekey.Some? {
      var dh4 := X3dhDh(oneTimePrekey.value, senderEphemeral).value;
      dhConcat := dhConcat + [dh4];
      assert dhConcat == [dh1, dh2, dh3, dh4];
    }
    return Success(X3dhSecret(dhConcat));
  }

  // ---- what each side answers ----

  /** The initiator derives a secret exactly from a bundle whose prekey its identity has signed and whose keys are
      proper points, and then from these exchanges. */
  lemma InitiatedExact(sender: IdentityKeyPair, b: Bundle, e: KeyId)
    ensures var r := Initiated(sender, b, e);
            var signed := b.identityKey.EdPoint? && b.signature == Signature(b.identityKey.n, b.signedPrekey);
            && (r.Success? <==>
                  signed && b.signedPrekey.Point? && (b.oneTimePrekey.Some? ==> b.oneTimePrekey.value.1.Point?))
            && (r.Failure? ==> r.error == if signed then HkdfExpandFailed else InvalidPreKeySignature)
    ensures var r := Initiated(sender, b, e);
            r.Success? ==>
              var prekey := b.signedPrekey.id;
              var parts := [Dh({FromIdentity(sender.secret), prekey}), Dh({e, FromIdentity(b.identityKey.n)}),
                            Dh({e, prekey})];
              && r.value.ephemeral == Point(e)
              && match b.oneTimePrekey
                 case None => r.value.secret == X3dhSecret(parts) && r.value.usedOneTimePrekey == None
                 case Some((id, key)) =>
                   r.value.secret == X3dhSecret(parts + [Dh({e, key.id})]) && r.value.usedOneTimePrekey == Some(id)
  {
  }

  /** The responder derives one exactly from an identity and an ephemeral key that are proper points. */
  lemma AcceptedExact(receiver: IdentityKeyPair, prekey: KeyId, oneTime: Option<KeyId>, identity: SignPublic,
                      ephemeral: PublicKey)
    ensures var t := AcceptedSecret(receiver, prekey, oneTime, identity, ephemeral);
            && (t.Success? <==> identity.EdPoint? && ephemeral.Point?)
            && (t.Failure? ==> t.error == if identity.EdInvalid? then InvalidKeyLength else HkdfExpandFailed)
    ensures var t := AcceptedSecret(receiver, prekey, oneTime, identity, ephemeral);
            t.Success? ==>
              var e := ephemeral.id;
              var parts := [Dh({prekey, FromIdentity(identity.n)}), Dh({FromIdentity(receiver.secret), e}),
                            Dh({prekey, e})];
              t.value == X3dhSecret(match oneTime case None => parts case Some(key) => parts + [Dh({key, e})])
  {
  }

  /** What the signature is for.  Signatures are not forged: the one in a bundle was made by its signer.  So when an
      identity has signed no prekey but its own, an initiator that derives a secret from a bundle naming it has used
      that prekey, and with neither the ephemeral key nor the identity's nobody else can compute the secret. */
  lemma PrekeyAuthentic(sender: IdentityKeyPair, b: Bundle, e: KeyId, n: nat, own: PublicKey,
                        made: iset<Signature>, other: KeyId)
    requires b.signature.BadSignature? || b.signature in made
    requires forall m :: Signature(n, m) in made ==> m == own
    requires b.identityKey == EdPoint(n) && Initiated(sender, b, e).Success?
    requires other != e && other != FromIdentity(n)
    ensures b.signedPrekey == own
    ensures !Derives({}, other, Initiated(sender, b, e).value.secret)
  {
    InitiatedExact(sender, b, e);
    var secret := Initiated(sender, b, e).value.secret;
    assert secret.parts[1] == Dh({e, FromIdentity(n)}) && secret.parts[1] in secret.parts;
  }

  // ---- agreement ----

  function HonestBundle(identity: nat, prekey: nat, oneTime: Option<(u32, nat)>): Bundle {
    Bundle(EdPoint(identity), Point(Curve(prekey)), Signature(identity, Point(Curve(prekey))),
           match oneTime case None => None case Some((id, n)) => Some((id, Point(Curve(n)))))
  }

  function OneTimeSecret(oneTime: Option<nat>): Option<KeyId> {
    match oneTime case None => None case Some(n) => Some(Curve(n))
  }

  predicate SameOneTime(sent: Option<(u32, nat)>, used: Option<nat>) {
    match (sent, used)
    case (None, None) => true
    case (Some((_, m)), Some(n)) => m == n
    case _ => false
  }

  /** Two honest ends derive one secret exactly when they ran the handshake with each other: the same
      identities, prekey and ephemeral key, and the same one-time key or none on both sides. */
  lemma Agreement(a: nat, b: nat, prekey: nat, oneTime: Option<(u32, nat)>, e: nat,
                  a': nat, b': nat, prekey': nat, oneTime': Option<nat>, e': nat)
    ensures var r := Initiated(GenIdentity(a), HonestBundle(b, prekey, oneTime), Curve(e));
            var t := AcceptedSecret(GenIdentity(b'), Curve(prekey'), OneTimeSecret(oneTime'), EdPoint(a'),
                                    Point(Curve(e')));
            && r.Success? && t.Success?
            && (r.value.secret == t.value <==>
                  a == a' && b == b' && prekey == prekey' && e == e' && SameOneTime(oneTime, oneTime'))
            && r.value.usedOneTimePrekey == (match oneTime case None => None case Some((id, _)) => Some(id))
  {
    var ours := [SharedPoint(FromIdentity(a), Curve(prekey)), SharedPoint(Curve(e), FromIdentity(b)),
                 SharedPoint(Curve(e), Curve(prekey))];
    var theirs := [SharedPoint(Curve(prekey'), FromIdentity(a')), SharedPoint(FromIdentity(b'), Curve(e')),
                   SharedPoint(Curve(prekey'), Curve(e'))];
    SharedPointAgreement(FromIdentity(a), Curve(prekey), Curve(prekey'), FromIdentity(a'));
    SharedPointAgreement(Curve(e), FromIdentity(b), FromIdentity(b'), Curve(e'));
    SharedPointAgreement(Curve(e), Curve(prekey), Curve(prekey'), Curve(e'));
    assert ours == theirs <==> ours[0] == theirs[0] && ours[1] == theirs[1] && ours[2] == theirs[2];
    if oneTime.Some? && oneTime'.Some? {
      var m, n := oneTime.value.1, oneTime'.value;
      SharedPointAgreement(Curve(e), Curve(m), Curve(n), Curve(e'));
      var p, q := ours + [SharedPoint(Curve(e), Curve(m))], theirs + [SharedPoint(Curve(n), Curve(e'))];
      assert p == [ours[0], ours[1], ours[2], p[3]] && q == [theirs[0], theirs[1], theirs[2], q[3]];
      assert p == q <==> ours == theirs && p[3] == q[3];
    }
  }

  // ---- the session it starts ----

  /** The secret both ends agreed on opens the session of the run theorem. */
  lemma SessionEstablished(a: nat, b: nat, prekey: nat, oneTime: Option<(u32, nat)>, e: nat, ad: seq<byte>, supply: nat)
    requires prekey < supply
    ensures var r := Initiated(GenIdentity(a), HonestBundle(b, prekey, oneTime), Curve(e));
            var t := AcceptedSecret(GenIdentity(b), Curve(prekey),
                                    OneTimeSecret(match oneTime case None => None case Some((_, n)) => Some(n)),
                                    EdPoint(a), Point(Curve(e)));
            && r.Success? && t.Success? && t.value == r.value.secret
            && var w := Opening(t.value, ad, prekey, supply);
            && SenderState(r.value.secret, Point(Curve(prekey)), Curve(supply)) == Success(w.initiator.state)
            && ReceiverState(t.value, GenKeypair(Curve(prekey))) == w.responder.state
            && WorldInv(w)
  {
    var mine := match oneTime case None => None case Some((_, n)) => Some(n);
    Agreement(a, b, prekey, oneTime, e, a, b, prekey, mine, e);
    OpeningInv(AcceptedSecret(GenIdentity(b), Curve(prekey), OneTimeSecret(mine), EdPoint(a), Point(Curve(e))).value,
               ad, prekey, supply);
  }

  /** The two ends as they start, each from the secret it derived itself. */
  function Started(sent: Term, held: Term, ad: seq<byte>, prekey: nat, supply: nat): World {
    World(Node(SenderState(sent, Point(Curve(prekey)), Curve(supply)).value, 1),
          Node(ReceiverState(held, GenKeypair(Curve(prekey))), 0),
          ad, [[]], supply + 1, Spine(sent, [Curve(prekey), Curve(supply)], [0]), {})
  }

  /** From handshake to conversation: an initiator that ran `initiate_x3dh` against the responder's bundle and a
      responder that ran `accept_x3dh` on what it was sent start a session, each from its own result, in which
      every event of every run answers correctly. */
  lemma HandshakeThenSession(a: nat, b: nat, prekey: nat, oneTime: Option<(u32, nat)>, mine: Option<nat>, e: nat,
                             r: InitResult, t: Term, ad: seq<byte>, supply: nat, events: seq<Event>)
    requires prekey < supply && SameOneTime(oneTime, mine)
    requires Initiated(GenIdentity(a), HonestBundle(b, prekey, oneTime), Curve(e)) == Success(r)
    requires AcceptedSecret(GenIdentity(b), Curve(prekey), OneTimeSecret(mine), EdPoint(a), r.ephemeral) == Success(t)
    requires LegalRun(Started(r.secret, t, ad, prekey, supply), events)
    ensures forall k :: 0 <= k < |events| ==>
              Correct(Run(Started(r.secret, t, ad, prekey, supply), events, k), events[k])
  {
    Agreement(a, b, prekey, oneTime, e, a, b, prekey, mine, e);
    SessionCorrect(t, ad, prekey, supply, events);
  }

  /** An agreed secret is independent of every ratchet key made after the handshake. */
  lemma AgreedSecretIndependent(a: nat, b: nat, prekey: nat, oneTime: Option<(u32, nat)>, e: nat, own: nat)
    requires e != own
    ensures var r := Initiated(GenIdentity(a), HonestBundle(b, prekey, oneTime), Curve(e));
            r.Success? && Independent(r.value.secret, Curve(own))
  {
    var secret := Initiated(GenIdentity(a), HonestBundle(b, prekey, oneTime), Curve(e)).value.secret;
    assert secret.parts[1] == Dh({Curve(e), FromIdentity(b)});
    assert secret.parts[1] in secret.parts;
  }

  // ---- when the handshakes differ ----

  function FirstChain(secret: Term, prekey: nat, e: nat): Term {
    ChainStart(secret, SharedPoint(Curve(e), Curve(prekey)))
  }

  /** Anything the responder may be asked: to send, or to read what was sealed with a key of the initiator's first
      chain, under any number and any previous length. */
  ghost predicate OnFirstChain(c: Call, sent: Term, prekey: nat, e: nat) {
    match c
    case EncryptCall(_, _, _) => true
    case DecryptCall(header, body, _, _) =>
      && header.ratchetKey == Point(Curve(e))
      && body.Sealed? && exists m :: body.key == MessageKey(Iterate(FirstChain(sent, prekey, e), m))
  }

  predicate KeyFrom(key: Term, chain: Term) {
    key.MessageKey? && Origin(key.chain) == chain
  }

  /** Nothing in the responder's receiving half comes from another chain than the first one of its own secret. */
  ghost predicate Confined(s: State, held: Term, prekey: nat, e: nat) {
    && (forall x :: x in s.skipped ==> KeyFrom(s.skipped[x], FirstChain(held, prekey, e)))
    && if s.remoteKey.None? then
         s.receivingChain.None? && s.rootKey == held && s.keypair == Some(GenKeypair(Curve(prekey)))
       else
         && s.remoteKey == Some(Point(Curve(e)))
         && s.receivingChain.Some? && Origin(s.receivingChain.value) == FirstChain(held, prekey, e)
  }

  lemma ConfinedEnter(s: State, held: Term, prekey: nat, e: nat, header: Header, g: KeyId)
    requires Confined(s, held, prekey, e) && header.ratchetKey == Point(Curve(e))
    ensures var o := Entered(s, header, g);
            o.result.Success? && Confined(o.state, held, prekey, e) && o.state.remoteKey.Some?
  {
    SharedPointAgreement(Curve(prekey), Curve(e), Curve(e), Curve(prekey));
  }

  lemma ConfinedAdvance(s: State, held: Term, prekey: nat, e: nat, number: u32, body: Ciphertext, ad: seq<byte>)
    requires Confined(s, held, prekey, e) && s.remoteKey.Some?
    ensures var o := Advanced(s, number, body, ad);
            && Confined(o.state, held, prekey, e)
            && (o.result.Success? ==> body.Sealed? && KeyFrom(body.key, FirstChain(held, prekey, e)))
  {
    if SkippedAhead(s, number).result.Success? {
      var chain := s.receivingChain.value;
      IterateOrigin(chain, number - s.recvNumber);
      forall x | x in SkippedTo(s, number).skipped
        ensures KeyFrom(SkippedTo(s, number).skipped[x], FirstChain(held, prekey, e))
      {
        KeysBetweenAt(s.remoteKey.value, chain, s.recvNumber, number, x);
        if s.recvNumber <= x.number {
          IterateOrigin(chain, x.number - s.recvNumber);
        }
      }
    }
  }

  /** A responder with another secret refuses each of them, and stays as it was in this respect. */
  lemma ConfinedCall(s: State, sent: Term, held: Term, prekey: nat, e: nat, c: Call)
    requires Confined(s, held, prekey, e) && OnFirstChain(c, sent, prekey, e)
    ensures Confined(StateAfter(s, c), held, prekey, e)
    ensures AcceptedBy(s, c) != [] ==> sent == held
  {
    if c.DecryptCall? {
      var m :| c.body.key == MessageKey(Iterate(FirstChain(sent, prekey, e), m));
      IterateOrigin(FirstChain(sent, prekey, e), m);
      if Slot(c.header.ratchetKey, c.header.messageNumber) !in s.skipped {
        ConfinedEnter(s, held, prekey, e, c.header, c.generated);
        ConfinedAdvance(Entered(s, c.header, c.generated).state, held, prekey, e, c.header.messageNumber, c.body, c.ad);
      }
    }
  }

  lemma {:induction false} ConfinedRun(s: State, sent: Term, held: Term, prekey: nat, e: nat, calls: seq<Call>)
    requires sent != held && Confined(s, held, prekey, e)
    requires forall k :: 0 <= k < |calls| ==> OnFirstChain(calls[k], sent, prekey, e)
    ensures Accepted(s, calls) == []
    decreases calls
  {
    if calls != [] {
      ConfinedCall(s, sent, held, prekey, e, calls[0]);
      ConfinedRun(StateAfter(s, calls[0]), sent, held, prekey, e, calls[1..]);
    }
  }

  /** With different secrets the responder refuses everything on the initiator's first chain, in whatever order,
      number and company it arrives. */
  lemma DifferentSecretsRefuse(sent: Term, held: Term, prekey: nat, e: nat, calls: seq<Call>)
    requires sent != held
    requires forall k :: 0 <= k < |calls| ==> OnFirstChain(calls[k], sent, prekey, e)
    ensures Accepted(ReceiverState(held, GenKeypair(Curve(prekey))), calls) == []
  {
    ConfinedRun(ReceiverState(held, GenKeypair(Curve(prekey))), sent, held, prekey, e, calls);
  }

  /** Two ends whose handshakes gave different secrets accept nothing of each other, on any chain, whatever else
      both are given. */
  lemma HandshakesApart(sender: IdentityKeyPair, b: Bundle, ephemeral: KeyId, r: InitResult,
                        receiver: IdentityKeyPair, signedPrekey: KeyId, oneTimePrekey: Option<KeyId>,
                        senderIdentity: SignPublic, senderEphemeral: PublicKey, t: Term,
                        s: State, calls: seq<Call>, s': State, calls': seq<Call>)
    requires Initiated(sender, b, ephemeral) == Success(r)
    requires AcceptedSecret(receiver, signedPrekey, oneTimePrekey, senderIdentity, senderEphemeral) == Success(t)
    requires r.secret != t && StartedFrom(s, r.secret) && StartedFrom(s', t)
    ensures forall body :: body in Sent(s, calls) ==> body !in Accepted(s', calls')
    ensures forall body :: body in Sent(s', calls') ==> body !in Accepted(s, calls)
  {
    SessionsApart(s, r.secret, calls, s', t, calls');
  }
}
