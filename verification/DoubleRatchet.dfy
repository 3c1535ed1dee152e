/** One Double Ratchet session, as an object whose methods update it in place, and the functions
    on its abstract value that the methods are proved against. */
module DoubleRatchet {
  import opened Crypto

  const MAX_SKIP: u32 := 1000

  datatype Header = Header(ratchetKey: PublicKey, previousChainLength: u32, messageNumber: u32)

  /** The index of a cached message key. */
  datatype Slot = Slot(key: PublicKey, number: u32)

  datatype State = State(
    rootKey: Term,
    sendingChain: Option<Term>,
    receivingChain: Option<Term>,
    keypair: Option<Keypair>,
    remoteKey: Option<PublicKey>,
    sendNumber: u32,
    recvNumber: u32,
    previousLength: u32,
    skipped: map<Slot, Term>)

  /** What a call leaves behind: the new state, its answer, the message keys that were tried on a
      ciphertext and the number of chain KDF calls. */
  datatype Outcome<+T> = Outcome(state: State, result: Result<T>, tried: seq<Term>, kdfCalls: nat)

  /** The u32 increment, which wraps in a release build. */
  function Increment(n: u32): u32 {
    if n == U32_MAX then 0 else n + 1
  }

  // ---- the abstract operations ----

  function SenderState(secret: Term, recipient: PublicKey, generated: KeyId): Result<State> {
    match DhExchange(generated, recipient)
    case Failure(e) => Failure(e)
    case Success(dh) =>
      Success(State(NextRoot(secret, dh), Some(ChainStart(secret, dh)), None, Some(GenKeypair(generated)),
                    Some(recipient), 0, 0, 0, map[]))
  }

  function ReceiverState(secret: Term, ours: Keypair): State {
    State(secret, None, None, Some(ours), None, 0, 0, 0, map[])
  }

  function Encrypted(s: State, plaintext: seq<byte>, ad: seq<byte>, nonce: nat)
    : Outcome<(Header, Ciphertext)>
  {
    if s.sendingChain.None? then
      Outcome(s, Failure(NoSendingChain), [], 0)
    else
      var chain := s.sendingChain.value;
      var advanced := s.(sendingChain := Some(NextChain(chain)));
      if s.keypair.None? then
        Outcome(advanced, Failure(NoSendingKeypair), [], 1)
      else
        var header := Header(s.keypair.value.public, s.previousLength, s.sendNumber);
        Outcome(advanced.(sendNumber := Increment(s.sendNumber)),
                Success((header, Sealed(nonce, MessageKey(chain), ad, plaintext))), [], 1)
  }

  /** The message keys numbered `from` up to `until`, when `chain` is the chain key at `from`. */
  function KeysBetween(remote: PublicKey, chain: Term, from: u32, until: u32): map<Slot, Term>
    requires from <= until
    decreases until - from
  {
    if from == until then map[]
    else
      KeysBetween(remote, chain, from, until - 1)
        [Slot(remote, until - 1) := MessageKey(Iterate(chain, until - 1 - from))]
  }

  /** It maps exactly the slots in the range, each to the key that many steps along the chain. */
  lemma {:induction false} KeysBetweenAt(remote: PublicKey, chain: Term, from: u32, until: u32, x: Slot)
    requires from <= until
    ensures x in KeysBetween(remote, chain, from, until) <==> x.key == remote && from <= x.number < until
    ensures x in KeysBetween(remote, chain, from, until) ==>
              KeysBetween(remote, chain, from, until)[x] == MessageKey(Iterate(chain, x.number - from))
    decreases until - from
  {
    if from < until {
      KeysBetweenAt(remote, chain, from, until - 1, x);
    }
  }

  /** The receiving chain moved on to message `until`, every key passed over cached. */
  function SkippedTo(s: State, until: u32): State
    requires s.receivingChain.Some? && s.remoteKey.Some? && s.recvNumber <= until
  {
    var chain := s.receivingChain.value;
    s.(skipped := s.skipped + KeysBetween(s.remoteKey.value, chain, s.recvNumber, until),
       receivingChain := Some(Iterate(chain, until - s.recvNumber)),
       recvNumber := until)
  }

  /** Closing the current receiving chain, which its sender used for `until` messages. */
  function ChainClosed(s: State, until: u32): Outcome<()> {
    if s.receivingChain.None? || s.remoteKey.None? || until < s.recvNumber then
      Outcome(s, Success(()), [], 0)
    else if until - s.recvNumber > MAX_SKIP then
      Outcome(s, Failure(TooManySkipped), [], 0)
    else
      Outcome(SkippedTo(s, until), Success(()), [], until - s.recvNumber)
  }

  /** Skipping ahead inside the current chain.  The counter is left to the caller. */
  function SkippedAhead(s: State, until: u32): Outcome<()> {
    if until < s.recvNumber then
      Outcome(s, Failure(AlreadyConsumed), [], 0)
    else if until - s.recvNumber > MAX_SKIP then
      Outcome(s, Failure(TooManySkipped), [], 0)
    else if s.remoteKey.None? then
      Outcome(s, Failure(NoRemoteKey), [], 0)
    else if s.receivingChain.None? then
      Outcome(s, Failure(NoReceivingChain), [], 0)
    else
      Outcome(SkippedTo(s, until).(recvNumber := s.recvNumber), Success(()), [], until - s.recvNumber)
  }

  /** The DH ratchet step.  A failure leaves the counters and the remote key already changed. */
  function Ratcheted(s: State, theirs: PublicKey, generated: KeyId): Outcome<()> {
    var s0 := s.(previousLength := s.sendNumber, sendNumber := 0, recvNumber := 0, remoteKey := Some(theirs));
    if s.keypair.None? then
      Outcome(s0, Failure(NoSendingKeypair), [], 0)
    else match DhExchange(s.keypair.value.secret, theirs)
      case Failure(e) => Outcome(s0, Failure(e), [], 0)
      case Success(dhRecv) =>
        var s1 := s0.(rootKey := NextRoot(s.rootKey, dhRecv), receivingChain := Some(ChainStart(s.rootKey, dhRecv)));
        // The point was accepted above, so this exchange cannot fail.
        var dhSend := DhExchange(generated, theirs).value;
        Outcome(s1.(rootKey := NextRoot(s1.rootKey, dhSend),
                    sendingChain := Some(ChainStart(s1.rootKey, dhSend)),
                    keypair := Some(GenKeypair(generated))),
                Success(()), [], 0)
  }

  predicate NeedsRatchet(s: State, theirs: PublicKey) {
    s.remoteKey != Some(theirs)
  }

  /** The part of decryption before the receiving chain is advanced. */
  function Entered(s: State, header: Header, generated: KeyId): Outcome<()> {
    if NeedsRatchet(s, header.ratchetKey) then
      var closed := ChainClosed(s, header.previousChainLength);
      if closed.result.Failure? then closed
      else
        var r := Ratcheted(closed.state, header.ratchetKey, generated);
        r.(kdfCalls := closed.kdfCalls)
    else Outcome(s, Success(()), [], 0)
  }

  /** The part of decryption that advances the receiving chain to the message and opens it. */
  function Advanced(s: State, number: u32, body: Ciphertext, ad: seq<byte>): Outcome<seq<byte>> {
    var ahead := SkippedAhead(s, number);
    match ahead.result
    case Failure(e) => Outcome(ahead.state, Failure(e), [], ahead.kdfCalls)
    case Success(_) =>
      var chain := ahead.state.receivingChain.value;
      Outcome(ahead.state.(receivingChain := Some(NextChain(chain)), recvNumber := Increment(number)),
              Open(MessageKey(chain), body, ad), [MessageKey(chain)], ahead.kdfCalls + 1)
  }

  function Decrypted(s: State, header: Header, body: Ciphertext, ad: seq<byte>, generated: KeyId)
    : Outcome<seq<byte>>
  {
    var slot := Slot(header.ratchetKey, header.messageNumber);
    if slot in s.skipped then
      Outcome(s.(skipped := s.skipped - {slot}), Open(s.skipped[slot], body, ad), [s.skipped[slot]], 0)
    else
      var entered := Entered(s, header, generated);
      match entered.result
      case Failure(e) => Outcome(entered.state, Failure(e), [], entered.kdfCalls)
      case Success(_) =>
        var r := Advanced(entered.state, header.messageNumber, body, ad);
        r.(kdfCalls := entered.kdfCalls + r.kdfCalls)
  }

  // ---- the object ----

  /** The chain KDF: the next chain key and a message key. */
  function KdfCk(chain: Term): (Term, Term) {
    (NextChain(chain), MessageKey(chain))
  }

  /** The root KDF: the next root key and a new chain. */
  function KdfRk(root: Term, dh: Term): (Term, Term) {
    (NextRoot(root, dh), ChainStart(root, dh))
  }

  class RatchetState {
    var rootKey: Term
    var sendingChainKey: Option<Term>
    var receivingChainKey: Option<Term>
    var sendingKeypair: Option<Keypair>
    var remoteRatchetKey: Option<PublicKey>
    var sendMessageNumber: u32
    var recvMessageNumber: u32
    var previousChainLength: u32
    var skippedKeys: map<Slot, Term>

    // A record of the effects of all calls so far.
    ghost var tried: seq<Term>
    ghost var kdfCalls: nat

    ghost function View(): State
      reads this
    {
      State(rootKey, sendingChainKey, receivingChainKey, sendingKeypair, remoteRatchetKey,
            sendMessageNumber, recvMessageNumber, previousChainLength, skippedKeys)
    }

    constructor (s: State)
      ensures View() == s && tried == [] && kdfCalls == 0
    {
      rootKey, sendingChainKey, receivingChainKey := s.rootKey, s.sendingChain, s.receivingChain;
      sendingKeypair, remoteRatchetKey := s.keypair, s.remoteKey;
      sendMessageNumber, recvMessageNumber := s.sendNumber, s.recvNumber;
      previousChainLength, skippedKeys := s.previousLength, s.skipped;
      tried, kdfCalls := [], 0;
    }

    static method InitSender(secret: Term, recipient: PublicKey, generated: KeyId)
      returns (r: Result<RatchetState>)
      ensures r.Failure? <==> SenderState(secret, recipient, generated).Failure?
      ensures r.Failure? ==> r.error == SenderState(secret, recipient, generated).error
      ensures r.Success? ==> fresh(r.value) && r.value.tried == []
      ensures r.Success? ==> Success(r.value.View()) == SenderState(secret, recipient, generated)
    {
      var dh := DhExchange(generated, recipient);
      if dh.Failure? {
        return Failure(dh.error);
      }
      var (root, chain) := KdfRk(secret, dh.value);
      var state := new RatchetState(
        State(root, Some(chain), None, Some(GenKeypair(generated)), Some(recipient), 0, 0, 0, map[]));
      return Success(state);
    }

    constructor InitReceiver(secret: Term, ours: Keypair)
      ensures View() == ReceiverState(secret, ours) && tried == [] && kdfCalls == 0
    {
      rootKey, sendingChainKey, receivingChainKey := secret, None, None;
      sendingKeypair, remoteRatchetKey := Some(ours), None;
      sendMessageNumber, recvMessageNumber, previousChainLength := 0, 0, 0;
      skippedKeys := map[];
      tried, kdfCalls := [], 0;
    }

    method Encrypt(plaintext: seq<byte>, ad: seq<byte>, nonce: nat)
      returns (r: Result<(Header, Ciphertext)>)
      modifies this
      ensures var o := Encrypted(old(View()), plaintext, ad, nonce);
              View() == o.state && r == o.result && kdfCalls == old(kdfCalls) + o.kdfCalls
      ensures tried == old(tried)
    {
      if sendingChainKey.None? {
        return Failure(NoSendingChain);
      }
      var (newChain, messageKey) := KdfCk(sendingChainKey.value);
      kdfCalls := kdfCalls + 1;
      sendingChainKey := Some(newChain);
      if sendingKeypair.None? {
        return Failure(NoSendingKeypair);
      }
      var header := Header(sendingKeypair.value.public, previousChainLength, sendMessageNumber);
      sendMessageNumber := Increment(sendMessageNumber);
      return Success((header, Sealed(nonce, messageKey, ad, plaintext)));
    }

    method Decrypt(header: Header, body: Ciphertext, ad: seq<byte>, generated: KeyId)
      returns (r: Result<seq<byte>>)
      modifies this
      ensures var o := Decrypted(old(View()), header, body, ad, generated);
              View() == o.state && r == o.result
              && tried == old(tried) + o.tried && kdfCalls == old(kdfCalls) + o.kdfCalls
    {
      var slot := Slot(header.ratchetKey, header.messageNumber);
      if slot in skippedKeys {
        var cached := skippedKeys[slot];
        skippedKeys := skippedKeys - {slot};
        r := DecryptWithKey(cached, body, ad);
        return;
      }
      var entered := Enter(header, generated);
      if entered.Failure? {
        return Failure(entered.error);
      }
      r := Advance(header.messageNumber, body, ad);
    }

    method Enter(header: Header, generated: KeyId) returns (r: Result<()>)
      modifies this
      ensures var o := Entered(old(View()), header, generated);
              View() == o.state && r == o.result && kdfCalls == old(kdfCalls) + o.kdfCalls
      ensures tried == old(tried)
    {
      if remoteRatchetKey != Some(header.ratchetKey) {
        r := SkipMessageKeysForCurrentChain(header.previousChainLength);
        if r.Success? {
          r := DhRatchetStep(header.ratchetKey, generated);
        }
        return;
      }
      return Success(());
    }

    method Advance(number: u32, body: Ciphertext, ad: seq<byte>) returns (r: Result<seq<byte>>)
      modifies this
      ensures var o := Advanced(old(View()), number, body, ad);
              View() == o.state && r == o.result
              && tried == old(tried) + o.tried && kdfCalls == old(kdfCalls) + o.kdfCalls
    {
      var ahead := SkipMessageKeys(number);
      if ahead.Failure? {
        return Failure(ahead.error);
      }
      var (newChain, messageKey) := KdfCk(receivingChainKey.value);
      kdfCalls := kdfCalls + 1;
      receivingChainKey := Some(newChain);
      recvMessageNumber := Increment(number);
      r := DecryptWithKey(messageKey, body, ad);
    }

    method DecryptWithKey(key: Term, body: Ciphertext, ad: seq<byte>)
      returns (r: Result<seq<byte>>)
      modifies this`tried
      ensures r == Open(key, body, ad) && tried == old(tried) + [key]
    {
      tried := tried + [key];
      if body.Short? {
        return Failure(DecryptionFailed);
      }
      return Open(key, body, ad);
    }

    method SkipMessageKeysForCurrentChain(until: u32) returns (r: Result<()>)
      modifies this
      ensures var o := ChainClosed(old(View()), until);
              View() == o.state && r == o.result && kdfCalls == old(kdfCalls) + o.kdfCalls
      ensures tried == old(tried)
    {
      if receivingChainKey.None? || remoteRatchetKey.None? || until < recvMessageNumber {
        return Success(());
      }
      if until - recvMessageNumber > MAX_SKIP {
        return Failure(TooManySkipped);
      }
      var chain := CacheKeys(remoteRatchetKey.value, until);
      receivingChainKey := Some(chain);
      recvMessageNumber := until;
      return Success(());
    }

    method SkipMessageKeys(until: u32) returns (r: Result<()>)
      modifies this
      ensures var o := SkippedAhead(old(View()), until);
              View() == o.state && r == o.result && kdfCalls == old(kdfCalls) + o.kdfCalls
      ensures tried == old(tried)
    {
      if until < recvMessageNumber {
        return Failure(AlreadyConsumed);
      }
      if until - recvMessageNumber > MAX_SKIP {
        return Failure(TooManySkipped);
      }
      if remoteRatchetKey.None? {
        return Failure(NoRemoteKey);
      }
      if receivingChainKey.None? {
        return Failure(NoReceivingChain);
      }
      var chain := CacheKeys(remoteRatchetKey.value, until);
      receivingChainKey := Some(chain);
      return Success(());
    }

    /** The loop that both skip methods run. */
    method CacheKeys(remote: PublicKey, until: u32) returns (chain: Term)
      requires receivingChainKey.Some? && recvMessageNumber <= until
      modifies this`skippedKeys, this`kdfCalls
      ensures chain == Iterate(receivingChainKey.value, until - recvMessageNumber)
      ensures skippedKeys == old(skippedKeys) + KeysBetween(remote, receivingChainKey.value, recvMessageNumber, until)
      ensures kdfCalls == old(kdfCalls) + (until - recvMessageNumber)
    {
      var start := receivingChainKey.value;
      var current := recvMessageNumber;
      chain := start;
      ghost var before := skippedKeys;
      for n: int := current to until
        invariant chain == Iterate(start, n - current)
        invariant skippedKeys == before + KeysBetween(remote, start, current, n)
        invariant kdfCalls == old(kdfCalls) + (n - current)
      {
        var (newChain, messageKey) := KdfCk(chain);
        chain := newChain;
        kdfCalls := kdfCalls + 1;
        skippedKeys := skippedKeys[Slot(remote, n) := messageKey];
      }
    }

    method DhRatchetStep(theirs: PublicKey, generated: KeyId) returns (r: Result<()>)
      modifies this
      ensures var o := Ratcheted(old(View()), theirs, generated);
              View() == o.state && r == o.result
      ensures tried == old(tried) && kdfCalls == old(kdfCalls)
    {
      previousChainLength := sendMessageNumber;
      sendMessageNumber := 0;
      recvMessageNumber := 0;
      remoteRatchetKey := Some(theirs);
      if sendingKeypair.None? {
        return Failure(NoSendingKeypair);
      }
      var dhRecv := DhExchange(sendingKeypair.value.secret, theirs);
      if dhRecv.Failure? {
        return Failure(dhRecv.error);
      }
      var (root, recvChain) := KdfRk(rootKey, dhRecv.value);
      rootKey := root;
      receivingChainKey := Some(recvChain);

      var pair := GenKeypair(generated);
      var dhSend := DhExchange(pair.secret, theirs).value;
      var (newRoot, sendChain) := KdfRk(rootKey, dhSend);
      rootKey := newRoot;
      sendingChainKey := Some(sendChain);
      sendingKeypair := Some(pair);
      return Success(());
    }
  }
}
