/** What every call answers, in terms of the fields it finds: which message key a header names, and that a message
    is only ever opened with that key and under the associated data it was sealed with. */
module Answers {
  import opened Crypto
  import opened DoubleRatchet
  import opened AtMostOnce

  // ---- decrypting ----

  /** The message key that a header names, or why it names none. */
  function Named(s: State, header: Header): Result<Term> {
    var slot, number := Slot(header.ratchetKey, header.messageNumber), header.messageNumber;
    if slot in s.skipped then Success(s.skipped[slot])
    else if s.remoteKey == Some(header.ratchetKey) then
      if number < s.recvNumber then Failure(AlreadyConsumed)
      else if number > s.recvNumber + MAX_SKIP then Failure(TooManySkipped)
      else if s.receivingChain.None? then Failure(NoReceivingChain)
      else Success(MessageKey(Iterate(s.receivingChain.value, number - s.recvNumber)))
    else if s.receivingChain.Some? && s.remoteKey.Some? && header.previousChainLength > s.recvNumber + MAX_SKIP then
      Failure(TooManySkipped)
    else if s.keypair.None? then Failure(NoSendingKeypair)
    else if header.ratchetKey.LowOrder? then Failure(DhFailed)
    else if number > MAX_SKIP then Failure(TooManySkipped)
    else Success(MessageKey(Iterate(ChainStart(s.rootKey, Dh({s.keypair.value.secret, header.ratchetKey.id})), number)))
  }

  /** The head of a chain that was just entered, or the current one. */
  lemma AdvancedAnswer(s: State, number: u32, body: Ciphertext, ad: seq<byte>)
    requires s.remoteKey.Some?
    ensures var o := Advanced(s, number, body, ad);
            if number < s.recvNumber then o.result == Failure(AlreadyConsumed) && o.tried == []
            else if number > s.recvNumber + MAX_SKIP then o.result == Failure(TooManySkipped) && o.tried == []
            else if s.receivingChain.None? then o.result == Failure(NoReceivingChain) && o.tried == []
            else
              var key := MessageKey(Iterate(s.receivingChain.value, number - s.recvNumber));
              o.result == Open(key, body, ad) && o.tried == [key]
  {
  }

  /** A ratchet step that closing the current chain did not prevent. */
  lemma EnteredAnswer(s: State, header: Header, generated: KeyId)
    requires NeedsRatchet(s, header.ratchetKey)
    ensures var o := Entered(s, header, generated);
            if s.receivingChain.Some? && s.remoteKey.Some? && header.previousChainLength > s.recvNumber + MAX_SKIP then
              o.result == Failure(TooManySkipped)
            else if s.keypair.None? then o.result == Failure(NoSendingKeypair)
            else if header.ratchetKey.LowOrder? then o.result == Failure(DhFailed)
            else
              && o.result.Success? && o.state.recvNumber == 0 && o.state.remoteKey == Some(header.ratchetKey)
              && o.state.receivingChain
                   == Some(ChainStart(s.rootKey, Dh({s.keypair.value.secret, header.ratchetKey.id})))
  {
    var closed := ChainClosed(s, header.previousChainLength).state;
    assert closed.rootKey == s.rootKey && closed.keypair == s.keypair;
  }

  /** `decrypt` opens the ciphertext with the key its header names and nothing else, for the associated data it was
      sealed under and no other. */
  lemma AnswerExact(s: State, header: Header, body: Ciphertext, ad: seq<byte>, generated: KeyId)
    ensures var o := Decrypted(s, header, body, ad, generated);
            match Named(s, header)
            case Failure(e) => o.result == Failure(e) && o.tried == []
            case Success(key) =>
              && o.tried == [key]
              && o.result == if body.Sealed? && body.key == key && body.ad == ad then Success(body.plaintext)
                             else Failure(DecryptionFailed)
  {
    if Slot(header.ratchetKey, header.messageNumber) !in s.skipped {
      if NeedsRatchet(s, header.ratchetKey) {
        EnteredAnswer(s, header, generated);
      }
      var e := Entered(s, header, generated);
      if e.result.Success? {
        AdvancedAnswer(e.state, header.messageNumber, body, ad);
      }
    }
  }

  /** How many messages of the current chain a header says are still to come, when it closes that. */
  function Closing(s: State, header: Header): nat {
    if s.receivingChain.Some? && s.remoteKey.Some? && s.remoteKey != Some(header.ratchetKey)
       && s.recvNumber <= header.previousChainLength <= s.recvNumber + MAX_SKIP
    then header.previousChainLength - s.recvNumber else 0
  }

  /** The chain steps a call takes: none for a cached message, else one for each message passed over, and one for the
      message itself if its header names a key. */
  lemma StepsExact(s: State, header: Header, body: Ciphertext, ad: seq<byte>, generated: KeyId)
    ensures Decrypted(s, header, body, ad, generated).kdfCalls
         == if Slot(header.ratchetKey, header.messageNumber) in s.skipped then 0
            else if Named(s, header).Failure? then Closing(s, header)
            else if NeedsRatchet(s, header.ratchetKey) then Closing(s, header) + header.messageNumber + 1
            else header.messageNumber - s.recvNumber + 1
  {
    if Slot(header.ratchetKey, header.messageNumber) !in s.skipped {
      EnteredSteps(s, header, generated);
      var e := Entered(s, header, generated);
      if NeedsRatchet(s, header.ratchetKey) {
        EnteredAnswer(s, header, generated);
      }
      if e.result.Success? {
        AdvancedSteps(e.state, header.messageNumber, body, ad);
      }
    }
  }

  lemma EnteredSteps(s: State, header: Header, generated: KeyId)
    ensures Entered(s, header, generated).kdfCalls == Closing(s, header)
  {
  }

  lemma AdvancedSteps(s: State, number: u32, body: Ciphertext, ad: seq<byte>)
    requires s.remoteKey.Some?
    ensures Advanced(s, number, body, ad).kdfCalls
         == if s.receivingChain.Some? && s.recvNumber <= number <= s.recvNumber + MAX_SKIP
            then number - s.recvNumber + 1 else 0
  {
  }

  /** What is answered was sealed: this plaintext, under this associated data, with the key that was tried. */
  lemma DecryptAuthentic(s: State, header: Header, body: Ciphertext, ad: seq<byte>, generated: KeyId, m: seq<byte>)
    requires Decrypted(s, header, body, ad, generated).result == Success(m)
    ensures body.Sealed? && body.ad == ad && body.plaintext == m
    ensures Decrypted(s, header, body, ad, generated).tried == [body.key]
  {
    AnswerExact(s, header, body, ad, generated);
  }

  /** Call `k` of a run is a delivery of `body`, under the associated data it was sealed with, and gives its
      plaintext. */
  ghost predicate OpenedAt(s: State, calls: seq<Call>, k: nat, body: Ciphertext)
    requires k < |calls|
  {
    && calls[k].DecryptCall? && calls[k].body == body && body.Sealed? && calls[k].ad == body.ad
    && Decrypted(Final(s, calls[..k]), calls[k].header, body, body.ad, calls[k].generated).result
         == Success(body.plaintext)
  }

  lemma {:induction false} AcceptedAuthentic(s: State, calls: seq<Call>, body: Ciphertext)
    returns (k: nat)
    requires body in Accepted(s, calls)
    ensures k < |calls| && OpenedAt(s, calls, k, body)
    decreases |calls|
  {
    var c := calls[0];
    if body in AcceptedBy(s, c) {
      k := 0;
      DecryptAuthentic(s, c.header, c.body, c.ad, c.generated,
                       Decrypted(s, c.header, c.body, c.ad, c.generated).result.value);
      assert calls[..0] == [];
    } else {
      var later := AcceptedAuthentic(StateAfter(s, c), calls[1..], body);
      k := later + 1;
      assert calls[..k][1..] == calls[1..][..later] && calls[..k][0] == c;
    }
  }

  // ---- what a refused ciphertext uses up ----

  /** What a call leaves behind depends on the header alone, whatever the ciphertext and whether it opens. */
  lemma StateIgnoresBody(s: State, header: Header, body: Ciphertext, ad: seq<byte>, body': Ciphertext, ad': seq<byte>,
                         generated: KeyId)
    ensures Decrypted(s, header, body, ad, generated).state == Decrypted(s, header, body', ad', generated).state
  {
    var e := Entered(s, header, generated).state;
    assert Advanced(e, header.messageNumber, body, ad).state == Advanced(e, header.messageNumber, body', ad').state;
  }

  lemma OtherAdRefused(s: State, header: Header, body: Ciphertext, ad: seq<byte>, proper: seq<byte>, generated: KeyId)
    requires body.Sealed? && body.ad == proper && ad != proper
    ensures var o := Decrypted(s, header, body, ad, generated);
            o.result.Failure? && o.state == Decrypted(s, header, body, proper, generated).state
  {
    AnswerExact(s, header, body, ad, generated);
    StateIgnoresBody(s, header, body, ad, body, proper, generated);
  }

  lemma {:induction false} UsedSoFar(s: State, used: set<Term>, calls: seq<Call>) returns (used': set<Term>)
    requires OnceInv(s, used)
    ensures used <= used' && OnceInv(Final(s, calls), used')
    decreases calls
  {
    used' := used;
    if calls != [] {
      CallOnce(s, used, calls[0]);
      var now := set k | k in TriedBy(s, calls[0]);
      used' := UsedSoFar(StateAfter(s, calls[0]), used + now, calls[1..]);
    }
  }

  /** A key that was tried once opens nothing any more, not the message it belongs to either: a wrong ciphertext or
      wrong associated data under a genuine header costs the message. */
  lemma TriedIsSpent(s: State, calls: seq<Call>, c: Call, later: seq<Call>)
    requires Initial(s)
    ensures var s' := Final(s, calls);
            forall body :: body in Accepted(StateAfter(s', c), later) ==> body.Sealed? && body.key !in TriedBy(s', c)
  {
    var used := UsedSoFar(s, {}, calls);
    var s' := Final(s, calls);
    var used' := used + set k | k in TriedBy(s', c);
    CallOnce(s', used, c);
    TriedOnceFrom(StateAfter(s', c), used', later);
    AcceptedWereTried(StateAfter(s', c), later);
    assert forall k :: k in TriedBy(s', c) ==> k in used';
  }

  // ---- failures that leave half an update ----

  /** The initiator cannot start on a low-order prekey, and on no other is it stopped. */
  lemma InitSenderAnswer(secret: Term, recipient: PublicKey, generated: KeyId)
    ensures SenderState(secret, recipient, generated).Success? <==> recipient.Point?
    ensures recipient.LowOrder? ==> SenderState(secret, recipient, generated) == Failure(DhFailed)
  {
  }

  /** `encrypt` fails exactly without a chain or a key pair, and uses a chain key up even when it fails. */
  lemma EncryptAnswer(s: State, plaintext: seq<byte>, ad: seq<byte>, nonce: nat)
    ensures var o := Encrypted(s, plaintext, ad, nonce);
            && (o.result.Success? <==> s.sendingChain.Some? && s.keypair.Some?)
            && (o.result.Failure? ==>
                  o.result.error == if s.sendingChain.None? then NoSendingChain else NoSendingKeypair)
            && (o.state.sendingChain == if s.sendingChain.None? then None else Some(NextChain(s.sendingChain.value)))
            && (o.result.Failure? ==> o.state == s.(sendingChain := o.state.sendingChain))
  {
  }

  /** A header on a low-order point is refused, but the counters are gone: what is sent next is numbered from zero
      again under the same ratchet key, and no proper ratchet key is taken for the current one. */
  lemma LowOrderResets(s: State, header: Header, body: Ciphertext, ad: seq<byte>, generated: KeyId,
                       plaintext: seq<byte>, nonce: nat)
    requires header.ratchetKey.LowOrder? && NeedsRatchet(s, header.ratchetKey)
    requires s.keypair.Some? && s.sendingChain.Some?
    requires Slot(header.ratchetKey, header.messageNumber) !in s.skipped
    requires s.receivingChain.Some? ==> header.previousChainLength <= s.recvNumber + MAX_SKIP
    ensures var o := Decrypted(s, header, body, ad, generated);
            && o.result == Failure(DhFailed)
            && o.state.rootKey == s.rootKey && o.state.keypair == s.keypair && o.state.recvNumber == 0
            && (forall x :: NeedsRatchet(o.state, Point(x)))
            && Encrypted(o.state, plaintext, ad, nonce).result
                 == Success((Header(s.keypair.value.public, s.sendNumber, 0),
                             Sealed(nonce, MessageKey(s.sendingChain.value), ad, plaintext)))
  {
    var closed := ChainClosed(s, header.previousChainLength);
    assert closed.result.Success? && closed.state.rootKey == s.rootKey && closed.state.keypair == s.keypair;
    assert closed.state.sendingChain == s.sendingChain && closed.state.sendNumber == s.sendNumber;
  }
}
