/** One end under arbitrary headers, ciphertexts, associated data and generated keys, failed calls
    included: no derived message key is ever tried twice, so no ciphertext is accepted twice, and none seals two
    messages. */
module AtMostOnce {
  import opened Crypto
  import opened DoubleRatchet

  datatype Call =
    | EncryptCall(plaintext: seq<byte>, ad: seq<byte>, nonce: nat)
    | DecryptCall(header: Header, body: Ciphertext, ad: seq<byte>, generated: KeyId)

  function StateAfter(s: State, c: Call): State {
    match c
    case EncryptCall(plaintext, ad, nonce) => Encrypted(s, plaintext, ad, nonce).state
    case DecryptCall(header, body, ad, generated) => Decrypted(s, header, body, ad, generated).state
  }

  function TriedBy(s: State, c: Call): seq<Term> {
    match c
    case EncryptCall(_, _, _) => []
    case DecryptCall(header, body, ad, generated) => Decrypted(s, header, body, ad, generated).tried
  }

  function AcceptedBy(s: State, c: Call): seq<Ciphertext> {
    match c
    case EncryptCall(_, _, _) => []
    case DecryptCall(header, body, ad, generated) =>
      if Decrypted(s, header, body, ad, generated).result.Success? then [body] else []
  }

  /** All message keys tried by a run of calls, in order. */
  function Tried(s: State, calls: seq<Call>): seq<Term>
    decreases |calls|
  {
    if calls == [] then [] else TriedBy(s, calls[0]) + Tried(StateAfter(s, calls[0]), calls[1..])
  }

  /** All ciphertexts accepted by a run of calls, in order. */
  function Accepted(s: State, calls: seq<Call>): seq<Ciphertext>
    decreases |calls|
  {
    if calls == [] then [] else AcceptedBy(s, calls[0]) + Accepted(StateAfter(s, calls[0]), calls[1..])
  }

  /** The ciphertext a call produces. */
  function SealedBy(s: State, c: Call): seq<Ciphertext> {
    match c
    case DecryptCall(_, _, _, _) => []
    case EncryptCall(plaintext, ad, nonce) =>
      var o := Encrypted(s, plaintext, ad, nonce);
      if o.result.Success? then [o.result.value.1] else []
  }

  /** All ciphertexts a run of calls produces, in order. */
  function Sent(s: State, calls: seq<Call>): seq<Ciphertext>
    decreases |calls|
  {
    if calls == [] then [] else SealedBy(s, calls[0]) + Sent(StateAfter(s, calls[0]), calls[1..])
  }

  /** The state after a run of calls. */
  function Final(s: State, calls: seq<Call>): State
    decreases |calls|
  {
    if calls == [] then s else Final(StateAfter(s, calls[0]), calls[1..])
  }

  ghost predicate NoRepeats<T>(xs: seq<T>) {
    forall a, b :: 0 <= a < b < |xs| ==> xs[a] != xs[b]
  }

  lemma OneMore<T>(now: seq<T>, later: seq<T>)
    requires |now| <= 1 && NoRepeats(later) && forall x :: x in now ==> x !in later
    ensures NoRepeats(now + later)
  {
    forall a, b | 0 <= a < b < |now + later|
      ensures (now + later)[a] != (now + later)[b]
    {
      if a < |now| {
        assert now[a] in now && later[b - |now|] in later;
      } else {
        assert later[a - |now|] != later[b - |now|];
      }
    }
  }

  // ---- the order in which keys are derived ----

  /** The chain key was passed before the current root and receiving chain. */
  predicate Passed(s: State, chain: Term) {
    && ChainDepth(chain) < RootDepth(s.rootKey)
    && (s.receivingChain.Some? ==>
          || ChainDepth(chain) < ChainDepth(s.receivingChain.value)
          || (ChainDepth(chain) == ChainDepth(s.receivingChain.value)
              && ChainPosition(chain) < ChainPosition(s.receivingChain.value)))
  }

  predicate KeyPassed(s: State, key: Term) {
    key.MessageKey? && Passed(s, key.chain)
  }

  ghost predicate OnceInv(s: State, used: set<Term>) {
    && (s.receivingChain.Some? ==> ChainDepth(s.receivingChain.value) < RootDepth(s.rootKey))
    && (forall k :: k in used ==> KeyPassed(s, k))
    && (forall x :: x in s.skipped ==> KeyPassed(s, s.skipped[x]) && s.skipped[x] !in used)
    && (forall x, y :: x in s.skipped && y in s.skipped && x != y ==> s.skipped[x] != s.skipped[y])
  }

  /** Opening the head of the receiving chain uses a key that no one has seen. */
  lemma TakeOnce(s: State, used: set<Term>, number: u32)
    requires OnceInv(s, used) && s.receivingChain.Some?
    ensures var chain := s.receivingChain.value;
            && MessageKey(chain) !in used
            && OnceInv(s.(receivingChain := Some(NextChain(chain)), recvNumber := number), used + {MessageKey(chain)})
  {
  }

  lemma CachedOnce(s: State, used: set<Term>, x: Slot)
    requires OnceInv(s, used) && x in s.skipped
    ensures OnceInv(s.(skipped := s.skipped - {x}), used + {s.skipped[x]})
  {
  }

  lemma SkipOnce(s: State, used: set<Term>, until: u32)
    requires OnceInv(s, used) && s.receivingChain.Some? && s.remoteKey.Some? && s.recvNumber <= until
    ensures OnceInv(SkippedTo(s, until), used)
  {
    var s', chain, remote, from := SkippedTo(s, until), s.receivingChain.value, s.remoteKey.value, s.recvNumber;
    IterateStamp(chain, until - from);
    forall x | x in s'.skipped
      ensures KeyPassed(s', s'.skipped[x]) && s'.skipped[x] !in used
    {
      SkippedValue(s, until, x);
    }
    forall x, y | x in s'.skipped && y in s'.skipped && x != y
      ensures s'.skipped[x] != s'.skipped[y]
    {
      SkippedValue(s, until, x);
      SkippedValue(s, until, y);
    }
  }

  /** Each cached key is an old one, or was just derived from the receiving chain. */
  lemma SkippedValue(s: State, until: u32, x: Slot)
    requires s.receivingChain.Some? && s.remoteKey.Some? && s.recvNumber <= until
    requires x in SkippedTo(s, until).skipped
    ensures var value := SkippedTo(s, until).skipped[x];
            if x.key == s.remoteKey.value && s.recvNumber <= x.number < until then
              && value.MessageKey?
              && ChainDepth(value.chain) == ChainDepth(s.receivingChain.value)
              && ChainPosition(value.chain) == ChainPosition(s.receivingChain.value) + (x.number - s.recvNumber)
            else
              x in s.skipped && value == s.skipped[x]
  {
    var chain, remote, from := s.receivingChain.value, s.remoteKey.value, s.recvNumber;
    KeysBetweenAt(remote, chain, from, until, x);
    if from <= x.number {
      IterateStamp(chain, x.number - from);
    }
  }

  lemma RatchetOnce(s: State, used: set<Term>, theirs: PublicKey, generated: KeyId)
    requires OnceInv(s, used)
    ensures OnceInv(Ratcheted(s, theirs, generated).state, used)
  {
  }

  lemma EnterOnce(s: State, used: set<Term>, header: Header, generated: KeyId)
    requires OnceInv(s, used)
    ensures OnceInv(Entered(s, header, generated).state, used)
  {
    if NeedsRatchet(s, header.ratchetKey) {
      var closed := ChainClosed(s, header.previousChainLength);
      if closed.result.Success? {
        if closed.state != s {
          SkipOnce(s, used, header.previousChainLength);
        }
        RatchetOnce(closed.state, used, header.ratchetKey, generated);
      }
    }
  }

  lemma AdvanceOnce(s: State, used: set<Term>, number: u32, body: Ciphertext, ad: seq<byte>)
    requires OnceInv(s, used)
    ensures var o := Advanced(s, number, body, ad);
            && |o.tried| <= 1 && (forall k :: k in o.tried ==> k !in used)
            && OnceInv(o.state, used + set k | k in o.tried)
  {
    var ahead := SkippedAhead(s, number);
    if ahead.result.Success? {
      SkipOnce(s, used, number);
      TakeOnce(SkippedTo(s, number), used, Increment(number));
      var key := MessageKey(ahead.state.receivingChain.value);
      assert (set k | k in [key]) == {key};
    } else {
      assert used + (set k: Term | k in []) == used;
    }
  }

  /** One call tries at most one key, and a new one. */
  lemma CallOnce(s: State, used: set<Term>, c: Call)
    requires OnceInv(s, used)
    ensures |TriedBy(s, c)| <= 1 && (forall k :: k in TriedBy(s, c) ==> k !in used)
    ensures OnceInv(StateAfter(s, c), used + set k | k in TriedBy(s, c))
  {
    match c
    case EncryptCall(plaintext, ad, nonce) =>
      assert used + (set k | k in TriedBy(s, c)) == used;
    case DecryptCall(header, body, ad, generated) =>
      var slot := Slot(header.ratchetKey, header.messageNumber);
      if slot in s.skipped {
        CachedOnce(s, used, slot);
        assert (set k | k in [s.skipped[slot]]) == {s.skipped[slot]};
      } else {
        EnterOnce(s, used, header, generated);
        var entered := Entered(s, header, generated);
        if entered.result.Success? {
          AdvanceOnce(entered.state, used, header.messageNumber, body, ad);
        } else {
          assert used + (set k | k in TriedBy(s, c)) == used;
        }
      }
  }

  lemma {:induction false} TriedOnceFrom(s: State, used: set<Term>, calls: seq<Call>)
    requires OnceInv(s, used)
    ensures NoRepeats(Tried(s, calls)) && (forall k :: k in Tried(s, calls) ==> k !in used)
    decreases calls
  {
    if calls != [] {
      var now, used' := TriedBy(s, calls[0]), used + set k | k in TriedBy(s, calls[0]);
      CallOnce(s, used, calls[0]);
      TriedOnceFrom(StateAfter(s, calls[0]), used', calls[1..]);
      OneMore(now, Tried(StateAfter(s, calls[0]), calls[1..]));
    }
  }

  /** A state that one of the constructors makes from this secret. */
  ghost predicate StartedFrom(s: State, secret: Term) {
    || (exists recipient, generated :: SenderState(secret, recipient, generated) == Success(s))
    || (exists ours :: s == ReceiverState(secret, ours))
  }

  ghost predicate Initial(s: State) {
    exists secret :: StartedFrom(s, secret)
  }

  /** Every derived message key reaches decryption at most once. */
  lemma KeysTriedOnce(s: State, calls: seq<Call>)
    requires Initial(s)
    ensures NoRepeats(Tried(s, calls))
  {
    TriedOnceFrom(s, {}, calls);
  }

  lemma AcceptedWasTried(s: State, c: Call)
    ensures forall body :: body in AcceptedBy(s, c) ==> body.Sealed? && body.key in TriedBy(s, c)
    ensures |AcceptedBy(s, c)| <= 1
  {
  }

  lemma {:induction false} AcceptedWereTried(s: State, calls: seq<Call>)
    ensures forall body :: body in Accepted(s, calls) ==> body.Sealed? && body.key in Tried(s, calls)
    decreases calls
  {
    if calls != [] {
      AcceptedWasTried(s, calls[0]);
      AcceptedWereTried(StateAfter(s, calls[0]), calls[1..]);
    }
  }

  lemma {:induction false} AcceptedOnceFrom(s: State, used: set<Term>, calls: seq<Call>)
    requires OnceInv(s, used)
    ensures NoRepeats(Accepted(s, calls))
    decreases calls
  {
    if calls != [] {
      var s', used' := StateAfter(s, calls[0]), used + set k | k in TriedBy(s, calls[0]);
      CallOnce(s, used, calls[0]);
      AcceptedWasTried(s, calls[0]);
      AcceptedOnceFrom(s', used', calls[1..]);
      AcceptedWereTried(s', calls[1..]);
      TriedOnceFrom(s', used', calls[1..]);
      var now, later := AcceptedBy(s, calls[0]), Accepted(s', calls[1..]);
      OneMore(now, later);
    }
  }

  /** No ciphertext is accepted twice. */
  lemma CiphertextsAcceptedOnce(s: State, calls: seq<Call>)
    requires Initial(s)
    ensures NoRepeats(Accepted(s, calls))
  {
    AcceptedOnceFrom(s, {}, calls);
  }

  // ---- sending ----

  /** The chain key was used before the current sending chain key. */
  predicate Spent(s: State, chain: Term) {
    && ChainDepth(chain) < RootDepth(s.rootKey)
    && (s.sendingChain.Some? ==>
          || ChainDepth(chain) < ChainDepth(s.sendingChain.value)
          || (ChainDepth(chain) == ChainDepth(s.sendingChain.value)
              && ChainPosition(chain) < ChainPosition(s.sendingChain.value)))
  }

  ghost predicate SendOnceInv(s: State, used: set<Term>) {
    && (s.sendingChain.Some? ==> ChainDepth(s.sendingChain.value) < RootDepth(s.rootKey))
    && (forall k :: k in used ==> k.MessageKey? && Spent(s, k.chain))
  }

  /** Decrypting keeps the sending chain, or starts one from a later root. */
  ghost predicate SendsOn(s: State, s': State) {
    || (s'.sendingChain == s.sendingChain && s'.rootKey == s.rootKey)
    || (s'.sendingChain.Some? && RootDepth(s.rootKey) <= ChainDepth(s'.sendingChain.value) < RootDepth(s'.rootKey))
  }

  lemma EnterSends(s: State, header: Header, generated: KeyId)
    ensures SendsOn(s, Entered(s, header, generated).state)
  {
    var closed := ChainClosed(s, header.previousChainLength).state;
    assert closed.rootKey == s.rootKey && closed.sendingChain == s.sendingChain;
    RatchetSends(closed, header.ratchetKey, generated);
  }

  lemma RatchetSends(s: State, theirs: PublicKey, generated: KeyId)
    ensures SendsOn(s, Ratcheted(s, theirs, generated).state)
  {
  }

  lemma AdvanceSends(s: State, number: u32, body: Ciphertext, ad: seq<byte>)
    ensures var s' := Advanced(s, number, body, ad).state; s'.rootKey == s.rootKey && s'.sendingChain == s.sendingChain
  {
  }

  lemma DecryptSends(s: State, header: Header, body: Ciphertext, ad: seq<byte>, generated: KeyId)
    ensures SendsOn(s, Decrypted(s, header, body, ad, generated).state)
  {
    EnterSends(s, header, generated);
    AdvanceSends(Entered(s, header, generated).state, header.messageNumber, body, ad);
  }

  function KeysOf(bodies: seq<Ciphertext>): seq<Term>
    requires forall body :: body in bodies ==> body.Sealed?
  {
    seq(|bodies|, i requires 0 <= i < |bodies| => bodies[i].key)
  }

  lemma SealedAreSealed(s: State, c: Call)
    ensures |SealedBy(s, c)| <= 1 && forall body :: body in SealedBy(s, c) ==> body.Sealed?
  {
  }

  lemma {:induction false} SentAreSealed(s: State, calls: seq<Call>)
    ensures forall body :: body in Sent(s, calls) ==> body.Sealed?
    decreases calls
  {
    if calls != [] {
      SealedAreSealed(s, calls[0]);
      SentAreSealed(StateAfter(s, calls[0]), calls[1..]);
    }
  }

  /** One call seals with at most one key, and a new one. */
  lemma SealOnce(s: State, used: set<Term>, c: Call)
    requires SendOnceInv(s, used)
    ensures |SealedBy(s, c)| <= 1 && forall body :: body in SealedBy(s, c) ==> body.Sealed? && body.key !in used
    ensures SendOnceInv(StateAfter(s, c), used + set body | body in SealedBy(s, c) && body.Sealed? :: body.key)
  {
    if c.DecryptCall? {
      DecryptSends(s, c.header, c.body, c.ad, c.generated);
    }
  }

  lemma {:induction false} SealedOnceFrom(s: State, used: set<Term>, calls: seq<Call>)
    requires SendOnceInv(s, used)
    ensures forall body :: body in Sent(s, calls) ==> body.Sealed? && body.key !in used
    ensures NoRepeats(KeysOf(Sent(s, calls)))
    decreases calls
  {
    if calls != [] {
      var s', now := StateAfter(s, calls[0]), SealedBy(s, calls[0]);
      var used' := used + set body | body in now && body.Sealed? :: body.key;
      SealOnce(s, used, calls[0]);
      SealedOnceFrom(s', used', calls[1..]);
      KeysAppend(now, Sent(s', calls[1..]), used, used');
    }
  }

  lemma KeysAppend(now: seq<Ciphertext>, later: seq<Ciphertext>, used: set<Term>, used': set<Term>)
    requires |now| <= 1 && forall body :: body in now ==> body.Sealed? && body.key !in used && body.key in used'
    requires used <= used' && forall body :: body in later ==> body.Sealed? && body.key !in used'
    requires NoRepeats(KeysOf(later))
    ensures forall body :: body in now + later ==> body.Sealed? && body.key !in used
    ensures NoRepeats(KeysOf(now + later))
  {
    OneMore(KeysOf(now), KeysOf(later));
    assert KeysOf(now + later) == KeysOf(now) + KeysOf(later);
  }

  /** No two encryptions of an end use the same message key, whatever it is given to decrypt in between. */
  lemma KeysSealedOnce(s: State, calls: seq<Call>)
    requires Initial(s)
    ensures forall body :: body in Sent(s, calls) ==> body.Sealed?
    ensures NoRepeats(KeysOf(Sent(s, calls)))
  {
    SealedOnceFrom(s, {}, calls);
  }
}
