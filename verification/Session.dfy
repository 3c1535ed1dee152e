/** One delivery at one honest end: what it answers, and that the end stays synchronised. */
module Session {
  import opened Crypto
  import opened DoubleRatchet
  import opened SessionBook

  /** The gap checks that `decrypt` will make for this header. */
  predicate WithinGaps(s: State, header: Header) {
    || Slot(header.ratchetKey, header.messageNumber) in s.skipped
    || if NeedsRatchet(s, header.ratchetKey) then
         ClosingGapOk(s, header.previousChainLength) && header.messageNumber <= MAX_SKIP
       else
         header.messageNumber - s.recvNumber <= MAX_SKIP
  }

  predicate ClosingGapOk(s: State, until: u32) {
    s.receivingChain.None? || until - s.recvNumber <= MAX_SKIP
  }

  predicate EntersNewChain(s: State, header: Header) {
    NeedsRatchet(s, header.ratchetKey) && ClosingGapOk(s, header.previousChainLength)
  }

  /** A message ahead on the current chain. */
  lemma ReceiveAhead(s: State, j: nat, h: Spine, done: Ledger, n: u32, body: Ciphertext, ad: seq<byte>)
    requires EndInv(s, j, h, done) && Distinct(h.keys) && j >= 2
    requires s.recvNumber <= n < h.lengths[j - 2]
    requires body.Sealed? && body.key == KeyOf(h, j - 2, n) && body.ad == ad
    ensures var o := Advanced(s, n, body, ad);
            if n - s.recvNumber <= MAX_SKIP then
              o.result == Success(body.plaintext) && EndInv(o.state, j, h, done + {(j - 2, n)})
            else
              o.result == Failure(TooManySkipped) && o.state == s
  {
    if n - s.recvNumber <= MAX_SKIP {
      SkipKeeps(s, j, h, done, n);
      TakeKeeps(SkippedTo(s, n), j, h, done);
    }
  }

  /** A message that was passed over. */
  lemma ReceiveCached(s: State, j: nat, h: Spine, done: Ledger, i: nat, n: u32, body: Ciphertext, ad: seq<byte>,
                      generated: KeyId)
    requires EndInv(s, j, h, done) && Distinct(h.keys) && Owed(s.recvNumber, j, h, done, i, n)
    requires body.Sealed? && body.key == KeyOf(h, i, n) && body.ad == ad
    ensures var o := Decrypted(s, HeaderOf(h, i, n), body, ad, generated);
            o.result == Success(body.plaintext) && o.state.keypair == s.keypair
            && EndInv(o.state, j, h, done + {(i, n)})
  {
    CachedKeeps(s, j, h, done, i, n);
  }

  /** Reading the current chain to its end, every unread key cached. */
  lemma CloseKeeps(s: State, j: nat, h: Spine, done: Ledger)
    requires EndInv(s, j, h, done) && Distinct(h.keys) && j + 2 == |h.keys|
    ensures var closed := ChainClosed(s, PreviousLength(h, j));
            if ClosingGapOk(s, PreviousLength(h, j)) then
              && closed.result.Success? && EndInv(closed.state, j, h, done)
              && (j >= 2 ==> closed.state.recvNumber == h.lengths[j - 2])
            else
              closed.result == Failure(TooManySkipped) && closed.state == s
  {
    if j >= 2 && h.lengths[j - 2] - s.recvNumber <= MAX_SKIP {
      SkipKeeps(s, j, h, done, h.lengths[j - 2]);
    }
  }

  /** Leaving the current chain, with all its unread keys cached, for the peer's new one. */
  lemma EnterNew(s: State, j: nat, h: Spine, done: Ledger, n: u32, generated: KeyId)
    requires EndInv(s, j, h, done) && Distinct(h.keys) && j + 2 == |h.keys|
    ensures var header, o := HeaderOf(h, j, n), Entered(s, HeaderOf(h, j, n), generated);
            NeedsRatchet(s, header.ratchetKey)
            && if ClosingGapOk(s, header.previousChainLength) then
                 o.result.Success? && o.state.recvNumber == 0 && o.state.keypair == Some(GenKeypair(generated))
                 && EndInv(o.state, j + 2, Extended(h, generated), done)
               else
                 o.result == Failure(TooManySkipped) && o.state == s
  {
    CloseKeeps(s, j, h, done);
    if ClosingGapOk(s, PreviousLength(h, j)) {
      RatchetKeeps(ChainClosed(s, PreviousLength(h, j)).state, j, h, done, generated);
    }
  }

  /** A message of the peer's new chain. */
  lemma ReceiveNew(s: State, j: nat, h: Spine, done: Ledger, n: u32, body: Ciphertext, ad: seq<byte>, generated: KeyId)
    requires EndInv(s, j, h, done) && Distinct(h.keys) && j + 2 == |h.keys| && generated !in h.keys
    requires n < h.lengths[j] && body.Sealed? && body.key == KeyOf(h, j, n) && body.ad == ad
    ensures var header := HeaderOf(h, j, n);
            var o := Decrypted(s, header, body, ad, generated);
            && o.result == (if WithinGaps(s, header) then Success(body.plaintext) else Failure(TooManySkipped))
            && if EntersNewChain(s, header) then
                 o.state.keypair == Some(GenKeypair(generated))
                 && EndInv(o.state, j + 2, Extended(h, generated),
                           if o.result.Success? then done + {(j, n as nat)} else done)
               else
                 o.state == s
  {
    var header, h' := HeaderOf(h, j, n), Extended(h, generated);
    SlotCached(s.skipped, s.recvNumber, j, h, done, j, n);
    EnterNew(s, j, h, done, n, generated);
    if EntersNewChain(s, header) {
      ChainPrefix(h, h', j);
      DistinctExtended(h.keys, generated);
      ReceiveAhead(Entered(s, header, generated).state, j + 2, h', done, n, body, ad);
    }
  }

  lemma DistinctExtended(keys: seq<KeyId>, key: KeyId)
    requires Distinct(keys) && key !in keys
    ensures Distinct(keys + [key])
  {
  }

  /** Any first delivery from the peer, at an end whose position is one of the last two. */
  lemma ReceiveFirst(s: State, j: nat, h: Spine, done: Ledger, i: nat, n: u32, body: Ciphertext, ad: seq<byte>,
                     generated: KeyId)
    requires EndInv(s, j, h, done) && Distinct(h.keys) && j + 2 >= |h.keys| && generated !in h.keys
    requires i < |h.lengths| && FromPeer(j, i) && n < h.lengths[i] && (i, n as nat) !in done
    requires body.Sealed? && body.key == KeyOf(h, i, n) && body.ad == ad
    ensures var header := HeaderOf(h, i, n);
            var o := Decrypted(s, header, body, ad, generated);
            && o.result == (if WithinGaps(s, header) then Success(body.plaintext) else Failure(TooManySkipped))
            && var done' := if o.result.Success? then done + {(i, n as nat)} else done;
               if o.state.keypair == s.keypair then
                 EndInv(o.state, j, h, done')
               else
                 && i == j && o.state.keypair == Some(GenKeypair(generated))
                 && EndInv(o.state, j + 2, Extended(h, generated), done')
  {
    SlotCached(s.skipped, s.recvNumber, j, h, done, i, n);
    if i == j {
      ReceiveNew(s, j, h, done, n, body, ad, generated);
    } else if Owed(s.recvNumber, j, h, done, i, n) {
      ReceiveCached(s, j, h, done, i, n, body, ad, generated);
    } else {
      assert i + 2 == j;
      ReceiveAhead(s, j, h, done, n, body, ad);
    }
  }

  /** Re-delivery on the current chain is refused and changes nothing. */
  lemma ReceiveAgain(s: State, j: nat, h: Spine, done: Ledger, i: nat, n: u32, body: Ciphertext, ad: seq<byte>,
                     generated: KeyId)
    requires EndInv(s, j, h, done) && Distinct(h.keys) && i + 2 == j && (i, n as nat) in done
    ensures var o := Decrypted(s, HeaderOf(h, i, n), body, ad, generated);
            o.state == s && o.result == Failure(AlreadyConsumed) && o.tried == []
  {
    SlotCached(s.skipped, s.recvNumber, j, h, done, i, n);
    assert FromPeer(j, i);
  }
}
