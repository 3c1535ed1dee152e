/** Where the run theorem stops: calls on headers that no honest run delivers.  Which of them change the end, which
    make it lose its session, and what a lost end still opens. */
module Replay {
  import opened Crypto
  import opened DoubleRatchet
  import opened AtMostOnce
  import opened SessionBook
  import opened Session
  import opened Secrecy

  // ---- nothing is rolled back ----

  /** Refused before any field is touched: the closing gap or the message's own gap fails its check, or the message
      lies behind, or there is no chain to read. */
  predicate RefusedFirst(s: State, header: Header) {
    && Slot(header.ratchetKey, header.messageNumber) !in s.skipped
    && if NeedsRatchet(s, header.ratchetKey) then
         ChainClosed(s, header.previousChainLength).result.Failure?
       else
         || s.receivingChain.None? || header.messageNumber < s.recvNumber
         || header.messageNumber - s.recvNumber > MAX_SKIP
  }

  /** A call to `decrypt` leaves the state as it was exactly then, whether the ciphertext opens or not. */
  lemma UnchangedExactly(s: State, header: Header, body: Ciphertext, ad: seq<byte>, key: KeyId)
    ensures var o := Decrypted(s, header, body, ad, key);
            && (o.state == s <==> RefusedFirst(s, header))
            && (o.state == s ==> o.result.Failure? && o.tried == [] && o.kdfCalls == 0)
  {
    if Slot(header.ratchetKey, header.messageNumber) in s.skipped {
      assert Slot(header.ratchetKey, header.messageNumber) !in Decrypted(s, header, body, ad, key).state.skipped;
    } else if NeedsRatchet(s, header.ratchetKey) {
      EnterMoves(s, header, key);
      AdvanceKeeps(Entered(s, header, key).state, header.messageNumber, body, ad);
    } else {
      AdvanceMoves(s, header.messageNumber, body, ad);
    }
  }

  lemma EnterMoves(s: State, header: Header, key: KeyId)
    requires NeedsRatchet(s, header.ratchetKey)
    ensures var o := Entered(s, header, key);
            if ChainClosed(s, header.previousChainLength).result.Failure? then
              o.result.Failure? && o.state == s && o.kdfCalls == 0
            else
              o.state.remoteKey == Some(header.ratchetKey)
  {
  }

  lemma AdvanceKeeps(s: State, number: u32, body: Ciphertext, ad: seq<byte>)
    ensures var o := Advanced(s, number, body, ad);
            && o.state.remoteKey == s.remoteKey && o.state.rootKey == s.rootKey && o.state.keypair == s.keypair
            && (s.receivingChain.Some? ==>
                  && o.state.receivingChain.Some?
                  && Origin(o.state.receivingChain.value) == Origin(s.receivingChain.value))
  {
    if SkippedAhead(s, number).result.Success? {
      IterateOrigin(s.receivingChain.value, number - s.recvNumber);
    }
  }

  lemma AdvanceMoves(s: State, number: u32, body: Ciphertext, ad: seq<byte>)
    requires s.remoteKey.Some?
    ensures var o := Advanced(s, number, body, ad);
            if s.receivingChain.None? || number < s.recvNumber || number - s.recvNumber > MAX_SKIP then
              o.state == s && o.result.Failure? && o.tried == [] && o.kdfCalls == 0
            else
              o.state.receivingChain != s.receivingChain
  {
    if SkippedAhead(s, number).result.Success? {
      IterateStamp(s.receivingChain.value, number - s.recvNumber);
    }
  }

  // ---- losing a session ----

  /** The chain that an end at position `j` reads under ratchet key `x`. */
  function Forked(h: Spine, j: nat, x: KeyId): Term
    requires j < |h.keys|
  {
    ChainStart(Root(h.secret, h.keys, j), SharedPoint(h.keys[j], x))
  }

  /** A chain key that is not on any chain of the session up to `j`, unless `x` becomes the ratchet key of that. */
  predicate Astray(chain: Term, h: Spine, j: nat, x: KeyId)
    requires j < |h.keys|
  {
    ChainDepth(chain) > RootDepth(h.secret) + j || Origin(chain) == Forked(h, j, x)
  }

  /** An end that was at position `j`, after a header with ratchet key `x`: its root lies beyond every chain of the
      session and its receiving chain is astray. */
  ghost predicate Lost(s: State, h: Spine, j: nat, x: KeyId)
    requires j < |h.keys|
  {
    && s.keypair.Some? && RootDepth(s.rootKey) >= RootDepth(h.secret) + j + 2
    && s.receivingChain.Some? && Astray(s.receivingChain.value, h, j, x)
  }

  /** A ratchet step from position `j`, onto any key. */
  lemma EnterLoses(s: State, h: Spine, j: nat, header: Header, x: KeyId, key: KeyId)
    requires WellFormed(h) && j < |h.keys| && Synchronised(s, j, h)
    requires NeedsRatchet(s, header.ratchetKey) && header.ratchetKey == Point(x)
    ensures var o := Entered(s, header, key);
            if ClosingGapOk(s, header.previousChainLength) then
              o.result.Success? && o.state.receivingChain == Some(Forked(h, j, x)) && Lost(o.state, h, j, x)
            else
              o.result == Failure(TooManySkipped) && o.state == s
  {
    RootDepthOf(h, j);
  }

  /** What any header with a key other than the current one does to a synchronised end, unless its closing gap is
      refused: whatever the ciphertext, the end is lost to a session that does not go on with that key. */
  lemma HeaderLoses(s: State, j: nat, h: Spine, header: Header, x: KeyId, body: Ciphertext, ad: seq<byte>, key: KeyId)
    requires WellFormed(h) && j < |h.keys| && Synchronised(s, j, h)
    requires Slot(header.ratchetKey, header.messageNumber) !in s.skipped
    requires NeedsRatchet(s, header.ratchetKey) && header.ratchetKey == Point(x)
    ensures var o := Decrypted(s, header, body, ad, key);
            if ClosingGapOk(s, header.previousChainLength) then Lost(o.state, h, j, x)
            else o.result == Failure(TooManySkipped) && o.state == s
  {
    EnterLoses(s, h, j, header, x, key);
    if ClosingGapOk(s, header.previousChainLength) {
      AdvanceLost(Entered(s, header, key).state, h, j, x, header.messageNumber, body, ad);
    }
  }

  lemma AdvanceLost(s: State, h: Spine, j: nat, x: KeyId, number: u32, body: Ciphertext, ad: seq<byte>)
    requires j < |h.keys| && Lost(s, h, j, x)
    ensures Lost(Advanced(s, number, body, ad).state, h, j, x)
  {
    AdvanceKeeps(s, number, body, ad);
    OriginDepth(s.receivingChain.value);
    OriginDepth(Advanced(s, number, body, ad).state.receivingChain.value);
  }

  lemma {:induction false} OriginDepth(chain: Term)
    ensures ChainDepth(chain) == ChainDepth(Origin(chain))
    decreases chain
  {
    if chain.NextChain? {
      OriginDepth(chain.chain);
    }
  }

  lemma ForgedUnknown(s: State, j: nat, h: Spine, done: Ledger, x: KeyId, n: u32)
    requires EndInv(s, j, h, done) && x !in h.keys
    ensures Slot(Point(x), n) !in s.skipped && NeedsRatchet(s, Point(x))
  {
    forall y | y in s.skipped
      ensures y.key != Point(x)
    {
      assert SlotOwed(s.recvNumber, j, h, done, y);
      var i: nat :| Owed(s.recvNumber, j, h, done, i, y.number) && y.key == Point(h.keys[i + 1]);
    }
  }

  /** One forged header on any new point loses an honest end, unless its closing gap is refused. */
  lemma ForgedHeaderLoses(s: State, j: nat, h: Spine, done: Ledger, header: Header, x: KeyId, body: Ciphertext,
                          ad: seq<byte>, key: KeyId)
    requires EndInv(s, j, h, done) && header.ratchetKey == Point(x) && x !in h.keys
    ensures var o := Decrypted(s, header, body, ad, key);
            if ClosingGapOk(s, header.previousChainLength) then Lost(o.state, h, j, x)
            else o.result == Failure(TooManySkipped) && o.state == s
  {
    ForgedUnknown(s, j, h, done, x, header.messageNumber);
    HeaderLoses(s, j, h, header, x, body, ad, key);
  }

  /** The header of a chain that was left is not in the cache once its message was opened, nor is its key the
      current one. */
  lemma ReplayUnknown(s: State, j: nat, h: Spine, done: Ledger, i: nat, n: u32)
    requires EndInv(s, j, h, done) && Distinct(h.keys) && FromPeer(j, i) && i + 2 < j && (i, n as nat) in done
    ensures SlotOf(h, i, n) !in s.skipped && NeedsRatchet(s, Point(h.keys[i + 1]))
  {
    SlotCached(s.skipped, s.recvNumber, j, h, done, i, n);
  }

  /** Replaying on a left chain is always refused, but it leaves the receiver as it was if and only if the header's
      closing gap is refused first; otherwise the receiver is lost. */
  lemma ReplayExact(s: State, j: nat, h: Spine, done: Ledger, i: nat, n: u32, body: Ciphertext, ad: seq<byte>,
                    key: KeyId)
    requires EndInv(s, j, h, done) && Distinct(h.keys) && FromPeer(j, i) && i + 2 < j && (i, n as nat) in done
    requires body.Sealed? && body.key == KeyOf(h, i, n)
    ensures var header := HeaderOf(h, i, n); var o := Decrypted(s, header, body, ad, key);
            && o.result.Failure?
            && (o.state == s <==> !ClosingGapOk(s, header.previousChainLength))
            && (o.state != s ==> Lost(o.state, h, j, h.keys[i + 1]))
  {
    var header, x := HeaderOf(h, i, n), h.keys[i + 1];
    ReplayUnknown(s, j, h, done, i, n);
    EnterLoses(s, h, j, header, x, key);
    HeaderLoses(s, j, h, header, x, body, ad, key);
    UnchangedExactly(s, header, body, ad, key);
    if ClosingGapOk(s, header.previousChainLength) {
      assert SessionKey(h, j, KeyOf(h, i, n));
      AdvanceRefuses(Entered(s, header, key).state, h, j, x, h, n, body, ad);
    }
  }

  // ---- what a lost end still opens ----

  /** A message key of some chain up to `j`. */
  ghost predicate SessionKey(h: Spine, j: nat, t: Term) {
    exists i: nat, n: nat :: i <= j && i + 1 < |h.keys| && t == KeyOf(h, i, n)
  }

  /** The session as it goes on elsewhere, the peer's next ratchet key not being `x`. */
  ghost predicate GoesOn(h: Spine, h': Spine, j: nat, x: KeyId) {
    h.secret == h'.secret && h.keys <= h'.keys && j < |h.keys| && (j + 1 < |h'.keys| ==> h'.keys[j + 1] != x)
  }

  lemma AstrayKey(chain: Term, h: Spine, j: nat, x: KeyId, h': Spine)
    requires GoesOn(h, h', j, x) && Astray(chain, h, j, x)
    ensures !SessionKey(h', j, MessageKey(chain))
  {
    forall i: nat, n: nat | i <= j && i + 1 < |h'.keys|
      ensures MessageKey(chain) != KeyOf(h', i, n)
    {
      if chain == Iterate(Chain(h', i), n) {
        IterateStamp(Chain(h', i), n);
        IterateOrigin(Chain(h', i), n);
        RootDepthOf(h', i);
        RootDepthOf(h', j);
        RootPrefix(h.secret, h.keys, h'.keys, j);
        assert Chain(h', i) == Forked(h, j, x);
        SharedPointAgreement(h'.keys[j], h'.keys[j + 1], h.keys[j], x);
      }
    }
  }

  lemma AstrayOn(chain: Term, h: Spine, j: nat, x: KeyId, n: nat)
    requires j < |h.keys| && Astray(chain, h, j, x)
    ensures Astray(Iterate(chain, n), h, j, x)
  {
    IterateStamp(chain, n);
    IterateOrigin(chain, n);
  }

  /** What is in the cache was there before or opens nothing of the session. */
  ghost predicate CachesNothing(s: State, s': State, h': Spine, j: nat) {
    forall y :: y in s'.skipped ==>
      (y in s.skipped && s'.skipped[y] == s.skipped[y]) || !SessionKey(h', j, s'.skipped[y])
  }

  lemma SkipAstray(s: State, h: Spine, j: nat, x: KeyId, h': Spine, until: u32)
    requires GoesOn(h, h', j, x) && Lost(s, h, j, x) && s.remoteKey.Some? && s.recvNumber <= until
    ensures Lost(SkippedTo(s, until), h, j, x) && CachesNothing(s, SkippedTo(s, until), h', j)
  {
    var s', chain := SkippedTo(s, until), s.receivingChain.value;
    AstrayOn(chain, h, j, x, until - s.recvNumber);
    forall y | y in s'.skipped
      ensures (y in s.skipped && s'.skipped[y] == s.skipped[y]) || !SessionKey(h', j, s'.skipped[y])
    {
      KeysBetweenAt(s.remoteKey.value, chain, s.recvNumber, until, y);
      if s.recvNumber <= y.number {
        AstrayOn(chain, h, j, x, y.number - s.recvNumber);
        AstrayKey(Iterate(chain, y.number - s.recvNumber), h, j, x, h');
      }
    }
  }

  lemma RatchetAstray(s: State, h: Spine, j: nat, x: KeyId, theirs: PublicKey, key: KeyId)
    requires j < |h.keys| && Lost(s, h, j, x)
    ensures var o := Ratcheted(s, theirs, key); Lost(o.state, h, j, x) && o.state.skipped == s.skipped
  {
  }

  lemma EnterAstray(s: State, h: Spine, j: nat, x: KeyId, h': Spine, header: Header, key: KeyId)
    requires GoesOn(h, h', j, x) && Lost(s, h, j, x)
    ensures var o := Entered(s, header, key); Lost(o.state, h, j, x) && CachesNothing(s, o.state, h', j)
  {
    var closed := ChainClosed(s, header.previousChainLength);
    if closed.state != s {
      SkipAstray(s, h, j, x, h', header.previousChainLength);
    }
    RatchetAstray(closed.state, h, j, x, header.ratchetKey, key);
  }

  lemma AdvanceAstray(s: State, h: Spine, j: nat, x: KeyId, h': Spine, number: u32, body: Ciphertext, ad: seq<byte>)
    requires GoesOn(h, h', j, x) && Lost(s, h, j, x)
    ensures CachesNothing(s, Advanced(s, number, body, ad).state, h', j)
  {
    if SkippedAhead(s, number).result.Success? {
      SkipAstray(s, h, j, x, h', number);
    }
  }

  lemma AdvanceRefuses(s: State, h: Spine, j: nat, x: KeyId, h': Spine, number: u32, body: Ciphertext, ad: seq<byte>)
    requires GoesOn(h, h', j, x) && Lost(s, h, j, x) && body.Sealed? && SessionKey(h', j, body.key)
    ensures Advanced(s, number, body, ad).result.Failure?
  {
    if SkippedAhead(s, number).result.Success? {
      var chain := Iterate(s.receivingChain.value, number - s.recvNumber);
      AstrayOn(s.receivingChain.value, h, j, x, number - s.recvNumber);
      AstrayKey(chain, h, j, x, h');
    }
  }

  /** One call of any kind: a message of the session is accepted only with a key that was already cached for it, and
      the end stays lost. */
  lemma LostStep(s: State, h: Spine, j: nat, x: KeyId, h': Spine, c: Call)
    requires GoesOn(h, h', j, x) && Lost(s, h, j, x)
    ensures Lost(StateAfter(s, c), h, j, x) && CachesNothing(s, StateAfter(s, c), h', j)
    ensures c.DecryptCall? && AcceptedBy(s, c) != [] && c.body.Sealed? && SessionKey(h', j, c.body.key) ==>
              var slot := Slot(c.header.ratchetKey, c.header.messageNumber);
              slot in s.skipped && s.skipped[slot] == c.body.key
  {
    if c.DecryptCall? && Slot(c.header.ratchetKey, c.header.messageNumber) !in s.skipped {
      EnterAstray(s, h, j, x, h', c.header, c.generated);
      var e := Entered(s, c.header, c.generated);
      if e.result.Success? {
        AdvanceLost(e.state, h, j, x, c.header.messageNumber, c.body, c.ad);
        AdvanceAstray(e.state, h, j, x, h', c.header.messageNumber, c.body, c.ad);
        if c.body.Sealed? && SessionKey(h', j, c.body.key) {
          AdvanceRefuses(e.state, h, j, x, h', c.header.messageNumber, c.body, c.ad);
        }
      }
    }
  }

  lemma {:induction false} LostRun(s: State, h: Spine, j: nat, x: KeyId, h': Spine, calls: seq<Call>, cached: set<Term>)
    requires GoesOn(h, h', j, x) && Lost(s, h, j, x)
    requires forall y :: y in s.skipped ==> s.skipped[y] in cached || !SessionKey(h', j, s.skipped[y])
    ensures Lost(Final(s, calls), h, j, x)
    ensures forall body :: body in Accepted(s, calls) && body.Sealed? && SessionKey(h', j, body.key) ==>
              body.key in cached
    decreases calls
  {
    if calls != [] {
      LostStep(s, h, j, x, h', calls[0]);
      LostRun(StateAfter(s, calls[0]), h, j, x, h', calls[1..], cached);
    }
  }

  /** From then on, under arbitrary calls, nothing that was or will be sent on the session's chains is accepted, those
      the peer opens afterwards included, except with a key that was cached when the end got lost. */
  lemma LostRefuses(s: State, h: Spine, j: nat, x: KeyId, h': Spine, calls: seq<Call>)
    requires GoesOn(h, h', j, x) && Lost(s, h, j, x)
    ensures Lost(Final(s, calls), h, j, x)
    ensures forall body :: body in Accepted(s, calls) && body.Sealed? && SessionKey(h', j, body.key) ==>
              body.key in s.skipped.Values
  {
    LostRun(s, h, j, x, h', calls, s.skipped.Values);
  }

  // ---- an example ----

  lemma HeadEntered(s: State, k: KeyId, prev: u32, g: KeyId)
    requires s.keypair.Some? && NeedsRatchet(s, Point(k)) && s.skipped == map[] && prev <= s.recvNumber
    ensures var o, d := Entered(s, Header(Point(k), prev, 0), g), SharedPoint(s.keypair.value.secret, k);
            && o.result.Success? && o.state.recvNumber == 0 && o.state.skipped == map[]
            && o.state.receivingChain == Some(ChainStart(s.rootKey, d)) && o.state.remoteKey == Some(Point(k))
            && o.state.keypair == Some(GenKeypair(g))
            && o.state.rootKey == NextRoot(NextRoot(s.rootKey, d), SharedPoint(g, k))
  {
    var closed := ChainClosed(s, prev);
    assert closed.result.Success? && closed.state.skipped == map[] && closed.state.rootKey == s.rootKey;
  }

  lemma HeadAdvanced(s: State, body: Ciphertext)
    requires s.receivingChain.Some? && s.remoteKey.Some? && s.recvNumber == 0 && s.skipped == map[]
    ensures var o := Advanced(s, 0, body, []);
            && o.result == Open(MessageKey(s.receivingChain.value), body, [])
            && o.state.skipped == map[] && o.state.recvNumber == 1
            && o.state.rootKey == s.rootKey && o.state.keypair == s.keypair && o.state.remoteKey == s.remoteKey
  {
  }

  /** The state after the first message of a chain not seen before, nothing being skipped. */
  ghost predicate Headed(s: State, k: KeyId, g: KeyId, s': State)
    requires s.keypair.Some?
  {
    && s'.skipped == map[] && s'.recvNumber == 1
    && s'.keypair == Some(GenKeypair(g)) && s'.remoteKey == Some(Point(k))
    && s'.rootKey == NextRoot(NextRoot(s.rootKey, SharedPoint(s.keypair.value.secret, k)), SharedPoint(g, k))
    && RootDepth(s'.rootKey) == RootDepth(s.rootKey) + 2
  }

  lemma HeadOfNewChain(s: State, k: KeyId, prev: u32, body: Ciphertext, g: KeyId)
    requires s.keypair.Some? && NeedsRatchet(s, Point(k)) && s.skipped == map[] && prev <= s.recvNumber
    ensures var o := Decrypted(s, Header(Point(k), prev, 0), body, [], g);
            && o.result == Open(MessageKey(ChainStart(s.rootKey, SharedPoint(s.keypair.value.secret, k))), body, [])
            && Headed(s, k, g, o.state)
  {
    HeadEntered(s, k, prev, g);
    HeadAdvanced(Entered(s, Header(Point(k), prev, 0), g).state, body);
  }

  lemma ReplayHead(s: State, secret: Term, first: Ciphertext)
    requires s.keypair.Some? && s.remoteKey == Some(Point(Curve(3))) && s.skipped == map[]
    requires RootDepth(s.rootKey) == RootDepth(secret) + 4
    requires first == Sealed(0, MessageKey(ChainStart(secret, SharedPoint(Curve(0), Curve(1)))), [], [])
    ensures var o := Decrypted(s, Header(Point(Curve(1)), 0, 0), first, [], Curve(5));
            o.result == Failure(DecryptionFailed) && RootDepth(o.state.rootKey) == RootDepth(s.rootKey) + 2
  {
    HeadOfNewChain(s, Curve(1), 0, first, Curve(5));
  }

  /** Three deliveries to a fresh responder: a message, one of the initiator's next chain, and the first
      message again.  The third is refused but moves the root key. */
  lemma ReplayExample(secret: Term) returns (s1: State, s2: State, first: Ciphertext, second: Ciphertext)
    ensures var s0 := ReceiverState(secret, GenKeypair(Curve(0)));
            var o := Decrypted(s0, Header(Point(Curve(1)), 0, 0), first, [], Curve(2));
            o.result == Success([]) && s1 == o.state
    ensures var o := Decrypted(s1, Header(Point(Curve(3)), 1, 0), second, [], Curve(4));
            o.result == Success([]) && s2 == o.state
    ensures var o := Decrypted(s2, Header(Point(Curve(1)), 0, 0), first, [], Curve(5));
            o.result == Failure(DecryptionFailed) && RootDepth(o.state.rootKey) == RootDepth(s2.rootKey) + 2
  {
    var s0 := ReceiverState(secret, GenKeypair(Curve(0)));
    first := Sealed(0, MessageKey(ChainStart(secret, SharedPoint(Curve(0), Curve(1)))), [], []);
    HeadOfNewChain(s0, Curve(1), 0, first, Curve(2));
    s1 := Decrypted(s0, Header(Point(Curve(1)), 0, 0), first, [], Curve(2)).state;
    second := Sealed(0, MessageKey(ChainStart(s1.rootKey, SharedPoint(Curve(2), Curve(3)))), [], []);
    HeadOfNewChain(s1, Curve(3), 1, second, Curve(4));
    s2 := Decrypted(s1, Header(Point(Curve(3)), 1, 0), second, [], Curve(4)).state;
    ReplayHead(s2, secret, first);
  }

  /** The other limit of the run theorem: after message number u32::MAX the counter starts again at zero under
      the same ratchet key, while the chain goes on, so the slot of the first message names another key. */
  lemma CounterWraps(s: State, plaintext: seq<byte>, ad: seq<byte>, nonce: nat)
    requires s.sendNumber == U32_MAX && s.sendingChain.Some? && s.keypair.Some?
    ensures var o := Encrypted(s, plaintext, ad, nonce);
            var next := Encrypted(o.state, plaintext, ad, nonce);
            && o.result.Success? && next.result.Success?
            && o.result.value.0.messageNumber == U32_MAX && next.result.value.0.messageNumber == 0
            && next.result.value.0.ratchetKey == o.result.value.0.ratchetKey
            && next.result.value.1.key == MessageKey(NextChain(s.sendingChain.value))
            && ChainPosition(next.result.value.1.key.chain) > ChainPosition(s.sendingChain.value)
  {
  }
}
