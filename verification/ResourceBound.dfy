/** What one call may cost, whatever header it is given, and what MAX_SKIP does and does not bound. */
module ResourceBound {
  import opened Crypto
  import opened DoubleRatchet
  import opened AtMostOnce
  import opened SessionBook

  lemma {:induction false} KeysBetweenSize(remote: PublicKey, chain: Term, from: u32, until: u32)
    requires from <= until
    ensures |KeysBetween(remote, chain, from, until)| == until - from
    decreases until - from
  {
    if from < until {
      KeysBetweenSize(remote, chain, from, until - 1);
      KeysBetweenAt(remote, chain, from, until - 1, Slot(remote, until - 1));
    }
  }

  lemma UnionSize<K, V>(m: map<K, V>, n: map<K, V>)
    ensures |m + n| == |m| + |n| - |m.Keys * n.Keys|
  {
    assert (m + n).Keys == m.Keys + n.Keys;
    assert |m.Keys + n.Keys| + |m.Keys * n.Keys| == |m.Keys| + |n.Keys|;
  }

  /** The cached slots of `key` numbered `from` up to `until`. */
  function Already(s: State, key: PublicKey, from: u32, until: u32): set<Slot> {
    set x | x in s.skipped && x.key == key && from <= x.number < until
  }

  /** Skipping ahead caches one key for every number passed over that has none yet. */
  lemma SkipSize(s: State, until: u32)
    requires s.receivingChain.Some? && s.remoteKey.Some? && s.recvNumber <= until
    ensures |SkippedTo(s, until).skipped|
         == |s.skipped| + (until - s.recvNumber) - |Already(s, s.remoteKey.value, s.recvNumber, until)|
  {
    var remote, chain, from := s.remoteKey.value, s.receivingChain.value, s.recvNumber;
    var more := KeysBetween(remote, chain, from, until);
    forall x: Slot
      ensures x in more <==> x.key == remote && from <= x.number < until
    {
      KeysBetweenAt(remote, chain, from, until, x);
    }
    assert s.skipped.Keys * more.Keys == Already(s, remote, from, until);
    KeysBetweenSize(remote, chain, from, until);
    UnionSize(s.skipped, more);
  }

  // ---- the size of the cache after any call ----

  /** How many keys are cached in reading chain `key` from number `read` to `until`. */
  function Gap(s: State, key: PublicKey, read: u32, until: u32): int {
    if read <= until <= read + MAX_SKIP then until - read - |Already(s, key, read, until)| else 0
  }

  /** How many are cached in closing the current chain. */
  function ClosingGap(s: State, until: u32): int {
    if s.receivingChain.Some? && s.remoteKey.Some? then Gap(s, s.remoteKey.value, s.recvNumber, until) else 0
  }

  predicate ClosingRefused(s: State, until: u32) {
    s.receivingChain.Some? && s.remoteKey.Some? && until > s.recvNumber + MAX_SKIP
  }

  /** How a header changes the size of the cache: one key less if it is cached, otherwise the gap on the current
      chain, or those on the chain it closes and on the one it opens. */
  function Growth(s: State, header: Header): int {
    if Slot(header.ratchetKey, header.messageNumber) in s.skipped then -1
    else if !NeedsRatchet(s, header.ratchetKey) then
      if s.receivingChain.Some? then Gap(s, header.ratchetKey, s.recvNumber, header.messageNumber) else 0
    else if ClosingRefused(s, header.previousChainLength) then 0
    else
      ClosingGap(s, header.previousChainLength)
      + (if header.ratchetKey.Point? && s.keypair.Some? then Gap(s, header.ratchetKey, 0, header.messageNumber) else 0)
  }

  lemma ClosedSize(s: State, until: u32)
    ensures var closed := ChainClosed(s, until);
            && (closed.result.Failure? <==> ClosingRefused(s, until))
            && |closed.state.skipped| == |s.skipped| + ClosingGap(s, until)
            && closed.state.remoteKey == s.remoteKey && closed.state.keypair == s.keypair
  {
    if s.receivingChain.Some? && s.remoteKey.Some? && s.recvNumber <= until {
      SkipSize(s, until);
    }
  }

  /** Closing the current chain caches nothing for other keys. */
  lemma ClosedElsewhere(s: State, until: u32, key: PublicKey, number: u32)
    requires s.remoteKey != Some(key)
    ensures Already(ChainClosed(s, until).state, key, 0, number) == Already(s, key, 0, number)
  {
    if s.receivingChain.Some? && s.remoteKey.Some? && s.recvNumber <= until {
      forall x: Slot | x.key == key
        ensures x !in KeysBetween(s.remoteKey.value, s.receivingChain.value, s.recvNumber, until)
      {
        KeysBetweenAt(s.remoteKey.value, s.receivingChain.value, s.recvNumber, until, x);
      }
    }
  }

  lemma RatchetedSize(s: State, theirs: PublicKey, generated: KeyId)
    ensures var r := Ratcheted(s, theirs, generated);
            && (r.result.Success? <==> theirs.Point? && s.keypair.Some?)
            && r.state.skipped == s.skipped && r.state.recvNumber == 0 && r.state.remoteKey == Some(theirs)
            && (r.result.Success? ==> r.state.receivingChain.Some?)
  {
  }

  lemma AdvancedSize(s: State, number: u32, body: Ciphertext, ad: seq<byte>)
    requires s.remoteKey.Some?
    ensures |Advanced(s, number, body, ad).state.skipped|
         == |s.skipped| + if s.receivingChain.Some? then Gap(s, s.remoteKey.value, s.recvNumber, number) else 0
  {
    if SkippedAhead(s, number).result.Success? {
      SkipSize(s, number);
    }
  }

  lemma EnteredSize(s: State, header: Header, generated: KeyId)
    requires NeedsRatchet(s, header.ratchetKey)
    ensures var e := Entered(s, header, generated);
            if ClosingRefused(s, header.previousChainLength) then
              e.result.Failure? && e.state == s
            else
              && |e.state.skipped| == |s.skipped| + ClosingGap(s, header.previousChainLength)
              && e.state.recvNumber == 0 && e.state.remoteKey == Some(header.ratchetKey)
              && (e.result.Success? <==> header.ratchetKey.Point? && s.keypair.Some?)
              && (e.result.Success? ==> e.state.receivingChain.Some?)
  {
    ClosedSize(s, header.previousChainLength);
    RatchetedSize(ChainClosed(s, header.previousChainLength).state, header.ratchetKey, generated);
  }

  /** Entering a new chain caches none of its keys. */
  lemma EnteredElsewhere(s: State, header: Header, generated: KeyId, number: u32)
    requires NeedsRatchet(s, header.ratchetKey)
    ensures Already(Entered(s, header, generated).state, header.ratchetKey, 0, number)
         == Already(s, header.ratchetKey, 0, number)
  {
    ClosedElsewhere(s, header.previousChainLength, header.ratchetKey, number);
    RatchetedSize(ChainClosed(s, header.previousChainLength).state, header.ratchetKey, generated);
  }

  /** The size of the cache after one `decrypt`, for every state and every header. */
  lemma GrowthExact(s: State, header: Header, body: Ciphertext, ad: seq<byte>, generated: KeyId)
    ensures |Decrypted(s, header, body, ad, generated).state.skipped| == |s.skipped| + Growth(s, header)
  {
    var key, number := header.ratchetKey, header.messageNumber;
    if Slot(key, number) in s.skipped {
      RemovedSize(s.skipped, Slot(key, number));
    } else if NeedsRatchet(s, key) {
      EnteredSize(s, header, generated);
      EnteredElsewhere(s, header, generated, number);
      if Entered(s, header, generated).result.Success? {
        AdvancedSize(Entered(s, header, generated).state, number, body, ad);
      }
    } else {
      AdvancedSize(s, number, body, ad);
    }
  }

  lemma RemovedSize<K, V>(m: map<K, V>, k: K)
    requires k in m
    ensures |m - {k}| == |m| - 1
  {
    assert (m - {k}).Keys == m.Keys - {k};
  }

  lemma EnterCalls(s: State, header: Header, generated: KeyId)
    ensures Entered(s, header, generated).kdfCalls <= if NeedsRatchet(s, header.ratchetKey) then MAX_SKIP else 0
  {
  }

  lemma AdvanceCalls(s: State, number: u32, body: Ciphertext, ad: seq<byte>)
    ensures Advanced(s, number, body, ad).kdfCalls <= MAX_SKIP + 1
  {
  }

  /** One `decrypt`: at most MAX_SKIP new cache entries and chain steps for each chain it advances, and one
      more step for the message itself. */
  lemma DecryptBound(s: State, header: Header, body: Ciphertext, ad: seq<byte>, generated: KeyId)
    ensures var o := Decrypted(s, header, body, ad, generated);
            var chains := if NeedsRatchet(s, header.ratchetKey) then 2 else 1;
            |o.state.skipped| <= |s.skipped| + chains * MAX_SKIP && o.kdfCalls <= chains * MAX_SKIP + 1
  {
    GrowthExact(s, header, body, ad, generated);
    EnterCalls(s, header, generated);
    AdvanceCalls(Entered(s, header, generated).state, header.messageNumber, body, ad);
  }

  lemma CallBound(s: State, c: Call)
    ensures |StateAfter(s, c).skipped| <= |s.skipped| + 2 * MAX_SKIP
  {
    match c
    case EncryptCall(_, _, _) =>
    case DecryptCall(header, body, ad, generated) => DecryptBound(s, header, body, ad, generated);
  }

  lemma {:induction false} CacheBoundLinear(s: State, calls: seq<Call>)
    ensures |Final(s, calls).skipped| <= |s.skipped| + 2000 * |calls|
    decreases |calls|
  {
    if calls != [] {
      CallBound(s, calls[0]);
      CacheBoundLinear(StateAfter(s, calls[0]), calls[1..]);
    }
  }

  /** `k` calls leave at most 2 * MAX_SKIP * k entries more than there were. */
  lemma CacheBound(s: State, calls: seq<Call>)
    ensures |Final(s, calls).skipped| <= |s.skipped| + 2 * MAX_SKIP * |calls|
  {
    CacheBoundLinear(s, calls);
  }

  // ---- MAX_SKIP is not a limit on the session ----

  /** No key of the current chain is cached at or above the counter. */
  ghost predicate NothingAhead(s: State) {
    forall x :: x in s.skipped && s.remoteKey == Some(x.key) ==> x.number < s.recvNumber
  }

  /** So it is in every honest session. */
  lemma HonestNothingAhead(s: State, j: nat, h: Spine, done: Ledger)
    requires EndInv(s, j, h, done) && Distinct(h.keys)
    ensures NothingAhead(s)
  {
    forall x | x in s.skipped && s.remoteKey == Some(x.key)
      ensures x.number < s.recvNumber
    {
      assert SlotOwed(s.recvNumber, j, h, done, x);
      var i: nat :| Owed(s.recvNumber, j, h, done, i, x.number) && x.key == Point(h.keys[i + 1]);
      assert h.keys[i + 1] == h.keys[j - 1];
    }
  }

  // ---- what that means for a session ----

  /** No key of the chain that a new ratchet key opens is cached. */
  ghost predicate NoneCached(s: State, key: PublicKey) {
    forall x :: x in s.skipped ==> x.key != key
  }

  /** In an honest session that holds for every ratchet key that came after the end's own. */
  lemma HonestNoneCached(s: State, j: nat, h: Spine, done: Ledger, key: PublicKey)
    requires EndInv(s, j, h, done) && forall i :: 1 <= i < j ==> key != Point(h.keys[i])
    ensures NoneCached(s, key)
  {
    forall x | x in s.skipped
      ensures x.key != key
    {
      assert SlotOwed(s.recvNumber, j, h, done, x);
      var i: nat :| Owed(s.recvNumber, j, h, done, i, x.number) && x.key == Point(h.keys[i + 1]);
    }
  }

  /** A header that passes both gap checks, for a message that was not passed over. */
  predicate Passes(s: State, header: Header) {
    && Slot(header.ratchetKey, header.messageNumber) !in s.skipped
    && if NeedsRatchet(s, header.ratchetKey) then
         && header.ratchetKey.Point? && s.keypair.Some? && !ClosingRefused(s, header.previousChainLength)
         && header.messageNumber <= MAX_SKIP
       else
         s.receivingChain.Some? && s.recvNumber <= header.messageNumber <= s.recvNumber + MAX_SKIP
  }

  /** The messages its header says were passed over, on the chain it closes and on its own. */
  function PassedOver(s: State, header: Header): nat
    requires Passes(s, header)
  {
    if !NeedsRatchet(s, header.ratchetKey) then header.messageNumber - s.recvNumber
    else
      (if s.receivingChain.None? || s.remoteKey.None? || header.previousChainLength < s.recvNumber then 0
       else header.previousChainLength - s.recvNumber)
      + header.messageNumber
  }

  lemma SkippedSlots(s: State, until: u32, x: Slot)
    requires s.receivingChain.Some? && s.remoteKey.Some? && s.recvNumber <= until
    ensures x in SkippedTo(s, until).skipped
       <==> x in s.skipped || (s.remoteKey == Some(x.key) && s.recvNumber <= x.number < until)
  {
    KeysBetweenAt(s.remoteKey.value, s.receivingChain.value, s.recvNumber, until, x);
  }

  lemma EnteredAhead(s: State, header: Header, generated: KeyId)
    requires Passes(s, header) && NothingAhead(s)
    requires NeedsRatchet(s, header.ratchetKey) ==> NoneCached(s, header.ratchetKey)
    ensures var e := Entered(s, header, generated).state;
            && NothingAhead(e) && e.remoteKey == Some(header.ratchetKey) && e.receivingChain.Some?
            && e.recvNumber <= header.messageNumber <= e.recvNumber + MAX_SKIP
            && Entered(s, header, generated).result.Success?
  {
    var e := Entered(s, header, generated).state;
    if NeedsRatchet(s, header.ratchetKey) {
      forall x | x in e.skipped
        ensures x.key != header.ratchetKey
      {
        if s.receivingChain.Some? && s.remoteKey.Some? && s.recvNumber <= header.previousChainLength {
          SkippedSlots(s, header.previousChainLength, x);
        }
      }
    }
  }

  lemma NothingAheadKept(s: State, header: Header, body: Ciphertext, ad: seq<byte>, generated: KeyId)
    requires Passes(s, header) && NothingAhead(s)
    requires NeedsRatchet(s, header.ratchetKey) ==> NoneCached(s, header.ratchetKey)
    ensures var s' := Decrypted(s, header, body, ad, generated).state;
            && (header.messageNumber < U32_MAX ==> NothingAhead(s'))
            && s'.remoteKey == Some(header.ratchetKey) && s'.receivingChain.Some?
            && s'.recvNumber == Increment(header.messageNumber)
  {
    EnteredAhead(s, header, generated);
    var e := Entered(s, header, generated).state;
    forall x: Slot
      ensures x in SkippedTo(e, header.messageNumber).skipped && x.key == header.ratchetKey ==>
                x.number < header.messageNumber
    {
      SkippedSlots(e, header.messageNumber, x);
    }
  }

  lemma NothingAlready(s: State, key: PublicKey, from: u32, until: u32)
    requires forall x :: x in s.skipped && x.key == key ==> x.number < from
    ensures Already(s, key, from, until) == {}
  {
  }

  /** In a session that holds at most MAX_SKIP keys, a header that passes the checks leaves at most MAX_SKIP if
      and only if what it passes over fits in what is left, on the current chain and on a new one. */
  lemma SessionLimitExact(s: State, header: Header, body: Ciphertext, ad: seq<byte>, generated: KeyId)
    requires Passes(s, header) && NothingAhead(s)
    requires NeedsRatchet(s, header.ratchetKey) ==> NoneCached(s, header.ratchetKey)
    ensures var s', more := Decrypted(s, header, body, ad, generated).state, PassedOver(s, header);
            && |s'.skipped| == |s.skipped| + more
            && (|s'.skipped| <= MAX_SKIP <==> |s.skipped| + more <= MAX_SKIP)
            && (header.messageNumber < U32_MAX ==> NothingAhead(s'))
            && s'.remoteKey == Some(header.ratchetKey) && s'.receivingChain.Some?
            && s'.recvNumber == Increment(header.messageNumber)
  {
    NothingAheadKept(s, header, body, ad, generated);
    GrowthExact(s, header, body, ad, generated);
    if s.remoteKey.Some? {
      NothingAlready(s, s.remoteKey.value, s.recvNumber, header.messageNumber);
      NothingAlready(s, s.remoteKey.value, s.recvNumber, header.previousChainLength);
    }
    if NeedsRatchet(s, header.ratchetKey) {
      NothingAlready(s, header.ratchetKey, 0, header.messageNumber);
    }
  }

  // ---- the bound for many calls is reached ----

  /** Ready for a header with ratchet key `k` or a later one, with at most MAX_SKIP + 1 messages read. */
  ghost predicate Roomy(s: State, k: nat) {
    && s.keypair.Some? && s.receivingChain.Some? && s.remoteKey.Some? && s.recvNumber <= MAX_SKIP + 1
    && NothingAhead(s)
    && (forall n :: k <= n ==> NoneCached(s, Point(Curve(n))) && s.remoteKey != Some(Point(Curve(n))))
  }

  /** The widest header: MAX_SKIP messages passed over on both chains. */
  function Widest(s: State, k: nat): Call
    requires s.recvNumber <= MAX_SKIP + 1
  {
    DecryptCall(Header(Point(Curve(k)), s.recvNumber + MAX_SKIP, MAX_SKIP), Forged(0), [], Curve(0))
  }

  lemma WidestStep(s: State, k: nat)
    requires Roomy(s, k)
    ensures var s' := StateAfter(s, Widest(s, k)); |s'.skipped| == |s.skipped| + 2000 && Roomy(s', k + 1)
  {
    var header := Widest(s, k).header;
    assert NoneCached(s, header.ratchetKey);
    SessionLimitExact(s, header, Forged(0), [], Curve(0));
    WidestCached(s, k);
    RoomyAfter(s, k, StateAfter(s, Widest(s, k)));
  }

  /** What follows `s` when the widest header was read: its keys belong to the old chain and to the new one. */
  ghost predicate AfterWidest(s: State, k: nat, s': State) {
    && s'.keypair.Some? && s'.receivingChain.Some? && s'.remoteKey == Some(Point(Curve(k)))
    && s'.recvNumber == MAX_SKIP + 1
    && forall x :: x in s'.skipped ==>
         x in s.skipped || s.remoteKey == Some(x.key) || (x.key == Point(Curve(k)) && x.number < MAX_SKIP)
  }

  /** And when it entered the new chain, with nothing read of that yet. */
  ghost predicate MidWidest(s: State, k: nat, e: State) {
    && e.keypair.Some? && e.receivingChain.Some? && e.remoteKey == Some(Point(Curve(k))) && e.recvNumber == 0
    && forall x :: x in e.skipped ==> x in s.skipped || s.remoteKey == Some(x.key)
  }

  lemma WidestEntered(s: State, k: nat)
    requires Roomy(s, k)
    ensures var header := Widest(s, k).header; var e := Entered(s, header, Curve(0));
            && Slot(header.ratchetKey, header.messageNumber) !in s.skipped
            && e.result.Success? && MidWidest(s, k, e.state)
  {
    var header := Widest(s, k).header;
    assert NoneCached(s, header.ratchetKey) && s.remoteKey != Some(header.ratchetKey);
    forall x | x in Entered(s, header, Curve(0)).state.skipped
      ensures x in s.skipped || s.remoteKey == Some(x.key)
    {
      SkippedSlots(s, header.previousChainLength, x);
    }
  }

  lemma WidestAdvanced(s: State, k: nat, e: State)
    requires MidWidest(s, k, e)
    ensures AfterWidest(s, k, Advanced(e, MAX_SKIP, Forged(0), []).state)
  {
    forall x | x in SkippedTo(e, MAX_SKIP).skipped
      ensures x in s.skipped || s.remoteKey == Some(x.key) || (x.key == Point(Curve(k)) && x.number < MAX_SKIP)
    {
      SkippedSlots(e, MAX_SKIP, x);
    }
  }

  lemma WidestCached(s: State, k: nat)
    requires Roomy(s, k)
    ensures AfterWidest(s, k, StateAfter(s, Widest(s, k)))
  {
    WidestEntered(s, k);
    WidestAdvanced(s, k, Entered(s, Widest(s, k).header, Curve(0)).state);
  }

  lemma RoomyAfter(s: State, k: nat, s': State)
    requires Roomy(s, k) && AfterWidest(s, k, s')
    ensures Roomy(s', k + 1)
  {
    forall x | x in s'.skipped && s'.remoteKey == Some(x.key)
      ensures x.number < s'.recvNumber
    {
      assert NoneCached(s, x.key);
    }
    forall n, x | k + 1 <= n && x in s'.skipped
      ensures x.key != Point(Curve(n))
    {
      assert NoneCached(s, Point(Curve(n))) && s.remoteKey != Some(Point(Curve(n)));
    }
  }

  lemma FinalFirst(s: State, c: Call, rest: seq<Call>)
    ensures Final(s, [c] + rest) == Final(StateAfter(s, c), rest)
  {
    assert ([c] + rest)[1..] == rest;
  }

  lemma ForgedFirst(c: Call, rest: seq<Call>)
    requires c.DecryptCall? && c.body.Forged? && OnlyForged(rest)
    ensures OnlyForged([c] + rest)
  {
  }

  /** Nothing but headers with ciphertexts that open under no key. */
  ghost predicate OnlyForged(calls: seq<Call>) {
    forall c :: c in calls ==> c.DecryptCall? && c.body.Forged?
  }

  /** From such a state `m` calls can leave 2 * MAX_SKIP * m keys more. */
  lemma {:induction false} WidestRun(s: State, k: nat, m: nat) returns (calls: seq<Call>)
    requires Roomy(s, k)
    ensures |calls| == m && OnlyForged(calls) && |Final(s, calls).skipped| == |s.skipped| + 2000 * m
    decreases m
  {
    calls := [];
    if m > 0 {
      var c := Widest(s, k);
      WidestStep(s, k);
      calls := WidestRun(StateAfter(s, c), k + 1, m - 1);
      FinalFirst(s, c, calls);
      ForgedFirst(c, calls);
      calls := [c] + calls;
    }
  }

  /** So no limit holds for a session: a fresh responder can hold 2 * MAX_SKIP * m keys after m + 1 headers, without
      opening a single message. */
  lemma SessionLimitExceeded(secret: Term, prekey: KeyId, m: nat) returns (calls: seq<Call>)
    ensures |calls| == m + 1 && OnlyForged(calls)
    ensures |Final(ReceiverState(secret, GenKeypair(prekey)), calls).skipped| == 2 * MAX_SKIP * m
  {
    var s0 := ReceiverState(secret, GenKeypair(prekey));
    var first := DecryptCall(Header(Point(Curve(0)), 0, 0), Forged(0), [], Curve(0));
    var s1 := StateAfter(s0, first);
    assert s1.skipped == map[] && Roomy(s1, 1);
    calls := WidestRun(s1, 1, m);
    FinalFirst(s0, first, calls);
    ForgedFirst(first, calls);
    calls := [first] + calls;
  }
}
