/** What one honest end of a session must hold, in terms of the history both ends share, and the
    proof that receiving keeps it. */
module SessionBook {
  import opened Crypto
  import opened DoubleRatchet

  /** The common history.  `keys[0]` is the responder's prekey, `keys[1]` the initiator's first ratchet
      key, and so on alternately.  Chain `i` runs from `keys[i]` to `keys[i + 1]`, whose owner sends on it;
      `lengths[i]` counts what was sent on it. */
  datatype Spine = Spine(secret: Term, keys: seq<KeyId>, lengths: seq<u32>)

  /** The messages already decrypted, as (chain, number) pairs. */
  type Ledger = set<(nat, nat)>

  ghost predicate WellFormed(h: Spine) {
    && |h.lengths| >= 1
    && |h.keys| == |h.lengths| + 1
  }

  ghost predicate Distinct(keys: seq<KeyId>) {
    forall i, j :: 0 <= i < j < |keys| ==> keys[i] != keys[j]
  }

  /** The common sequence of root keys. */
  function Root(secret: Term, keys: seq<KeyId>, i: nat): Term
    requires i < |keys|
  {
    if i == 0 then secret else NextRoot(Root(secret, keys, i - 1), SharedPoint(keys[i - 1], keys[i]))
  }

  function Chain(h: Spine, i: nat): Term
    requires i + 1 < |h.keys|
  {
    ChainStart(Root(h.secret, h.keys, i), SharedPoint(h.keys[i], h.keys[i + 1]))
  }

  /** The key of message `n` of chain `i`, whatever has been delivered. */
  function KeyOf(h: Spine, i: nat, n: nat): Term
    requires i + 1 < |h.keys|
  {
    MessageKey(Iterate(Chain(h, i), n))
  }

  function PreviousLength(h: Spine, i: nat): u32
    requires i <= |h.lengths| + 1
  {
    if i < 2 then 0 else h.lengths[i - 2]
  }

  function HeaderOf(h: Spine, i: nat, n: u32): Header
    requires i + 1 < |h.keys| && |h.keys| == |h.lengths| + 1
  {
    Header(Point(h.keys[i + 1]), PreviousLength(h, i), n)
  }

  function SlotOf(h: Spine, i: nat, n: u32): Slot
    requires i + 1 < |h.keys|
  {
    Slot(Point(h.keys[i + 1]), n)
  }

  ghost predicate SendingOn(s: State, c: nat, h: Spine)
    requires WellFormed(h) && c < |h.lengths|
  {
    && s.remoteKey == Some(Point(h.keys[c]))
    && s.sendNumber == h.lengths[c]
    && s.sendingChain == Some(Iterate(Chain(h, c), h.lengths[c]))
    && s.previousLength == PreviousLength(h, c)
  }

  ghost predicate ReadingOn(s: State, c: nat, h: Spine)
    requires WellFormed(h) && c < |h.lengths|
  {
    s.recvNumber <= h.lengths[c] && s.receivingChain == Some(Iterate(Chain(h, c), s.recvNumber))
  }

  /** An end is at position `j` when `keys[j]` is its own latest key: it then sends on chain `j - 1`
      and has entered the peer's chains up to `j - 2`. */
  ghost predicate Synchronised(s: State, j: nat, h: Spine)
    requires WellFormed(h) && j < |h.keys|
  {
    && s.rootKey == Root(h.secret, h.keys, j)
    && s.keypair == Some(Keypair(Point(h.keys[j]), h.keys[j]))
    && (j == 0 ==> s.remoteKey.None? && s.sendNumber == 0 && s.sendingChain.None? && s.previousLength == 0)
    && (j >= 1 ==> SendingOn(s, j - 1, h))
    && (j < 2 ==> s.recvNumber == 0 && s.receivingChain.None?)
    && (j >= 2 ==> ReadingOn(s, j - 2, h))
  }

  /** How far an end at position `j` that has read `read` messages of its current chain has read into
      chain `i`: every chain it has left counts as read to the end. */
  function Reach(read: u32, j: nat, h: Spine, i: nat): u32
    requires i < |h.lengths|
  {
    if i + 2 == j then read else h.lengths[i]
  }

  predicate Even(n: nat) {
    n == 0 || !Even(n - 1)
  }

  lemma EvenSteps(n: nat)
    ensures Even(n + 1) == !Even(n) && Even(n + 2) == Even(n)
  {
    assert Even(n + 2) == !Even(n + 1);
  }

  /** The peer of an end at position `j` sends on the chains of the same parity. */
  predicate FromPeer(j: nat, i: nat) {
    Even(i) == Even(j)
  }

  /** Message `n` of chain `i` was passed over and is still to come. */
  ghost predicate Owed(read: u32, j: nat, h: Spine, done: Ledger, i: nat, n: nat)
    requires j <= |h.lengths| + 1
  {
    FromPeer(j, i) && i + 2 <= j && n < Reach(read, j, h, i) && (i, n) !in done
  }

  predicate Holds(cache: map<Slot, Term>, h: Spine, i: nat, n: u32)
    requires i + 1 < |h.keys|
  {
    SlotOf(h, i, n) in cache && cache[SlotOf(h, i, n)] == KeyOf(h, i, n)
  }

  ghost predicate SlotOwed(read: u32, j: nat, h: Spine, done: Ledger, x: Slot)
    requires |h.keys| == |h.lengths| + 1 && j < |h.keys|
  {
    exists i: nat :: Owed(read, j, h, done, i, x.number) && x.key == Point(h.keys[i + 1])
  }

  /** The cache holds exactly the owed messages, each with the key its sender used. */
  ghost predicate CacheExact(cache: map<Slot, Term>, read: u32, j: nat, h: Spine, done: Ledger)
    requires |h.keys| == |h.lengths| + 1 && j < |h.keys|
  {
    && (forall i: nat, n: u32 {:trigger Holds(cache, h, i, n)} ::
          Owed(read, j, h, done, i, n) ==> Holds(cache, h, i, n))
    && (forall x {:trigger SlotOwed(read, j, h, done, x)} :: x in cache ==> SlotOwed(read, j, h, done, x))
  }

  ghost predicate DoneWithinReach(read: u32, j: nat, h: Spine, done: Ledger)
    requires WellFormed(h) && j < |h.keys|
  {
    forall p :: p in done && FromPeer(j, p.0) ==> p.0 + 2 <= j && p.1 < Reach(read, j, h, p.0)
  }

  ghost predicate EndInv(s: State, j: nat, h: Spine, done: Ledger) {
    && WellFormed(h) && j < |h.keys|
    && Synchronised(s, j, h)
    && CacheExact(s.skipped, s.recvNumber, j, h, done)
    && DoneWithinReach(s.recvNumber, j, h, done)
  }

  function Extended(h: Spine, key: KeyId): Spine {
    h.(keys := h.keys + [key], lengths := h.lengths + [0])
  }

  /** Chains depend only on the keys up to them. */
  lemma {:induction false} RootPrefix(secret: Term, keys: seq<KeyId>, keys': seq<KeyId>, i: nat)
    requires keys <= keys' && i < |keys|
    ensures Root(secret, keys', i) == Root(secret, keys, i)
  {
    if i > 0 {
      RootPrefix(secret, keys, keys', i - 1);
    }
  }

  lemma ChainPrefix(h: Spine, h': Spine, i: nat)
    requires h.secret == h'.secret && h.keys <= h'.keys && i + 1 < |h.keys|
    ensures Chain(h', i) == Chain(h, i)
  {
    RootPrefix(h.secret, h.keys, h'.keys, i);
  }

  // ---- what receiving does to the cache ----

  /** The cache test of `decrypt`, in terms of the history. */
  lemma SlotCached(cache: map<Slot, Term>, read: u32, j: nat, h: Spine, done: Ledger, i: nat, n: u32)
    requires Distinct(h.keys)
    requires WellFormed(h) && j < |h.keys| && i < |h.lengths|
    requires CacheExact(cache, read, j, h, done)
    ensures SlotOf(h, i, n) in cache <==> Owed(read, j, h, done, i, n)
  {
    if SlotOf(h, i, n) in cache {
      assert SlotOwed(read, j, h, done, SlotOf(h, i, n));
      var k: nat :| Owed(read, j, h, done, k, n) && SlotOf(h, i, n).key == Point(h.keys[k + 1]);
      assert k == i;
    } else {
      assert Owed(read, j, h, done, i, n) ==> Holds(cache, h, i, n);
    }
  }

  /** One cache serves two histories in which the same messages are owed. */
  lemma CacheTransfer(cache: map<Slot, Term>, read: u32, j: nat, h: Spine, done: Ledger,
                      read': u32, j': nat, h': Spine, done': Ledger)
    requires WellFormed(h) && WellFormed(h') && j < |h.keys| && j' < |h'.keys|
    requires CacheExact(cache, read, j, h, done)
    requires h.secret == h'.secret && h.keys <= h'.keys
    requires forall i: nat, n: nat :: Owed(read', j', h', done', i, n) <==> Owed(read, j, h, done, i, n)
    ensures CacheExact(cache, read', j', h', done')
  {
    forall i: nat, n: u32 | Owed(read', j', h', done', i, n)
      ensures Holds(cache, h', i, n)
    {
      assert Holds(cache, h, i, n);
      ChainPrefix(h, h', i);
    }
    forall x | x in cache
      ensures SlotOwed(read', j', h', done', x)
    {
      assert SlotOwed(read, j, h, done, x);
      var i: nat :| Owed(read, j, h, done, i, x.number) && x.key == Point(h.keys[i + 1]);
      assert Owed(read', j', h', done', i, x.number);
    }
  }

  lemma CacheRemoved(cache: map<Slot, Term>, read: u32, j: nat, h: Spine, done: Ledger, i: nat, n: u32)
    requires Distinct(h.keys)
    requires WellFormed(h) && j < |h.keys| && CacheExact(cache, read, j, h, done) && Owed(read, j, h, done, i, n)
    ensures CacheExact(cache - {SlotOf(h, i, n)}, read, j, h, done + {(i, n)})
  {
    var cache', done' := cache - {SlotOf(h, i, n)}, done + {(i, n)};
    forall k: nat, m: u32 | Owed(read, j, h, done', k, m)
      ensures Holds(cache', h, k, m)
    {
      HoldsAfterRemoval(cache, read, j, h, done, i, n, k, m);
    }
    forall x | x in cache'
      ensures SlotOwed(read, j, h, done', x)
    {
      SlotOwedAfterRemoval(read, j, h, done, i, n, x);
    }
  }

  lemma SlotOwedAfterRemoval(read: u32, j: nat, h: Spine, done: Ledger, i: nat, n: u32, x: Slot)
    requires WellFormed(h) && j < |h.keys| && i + 1 < |h.keys|
    requires SlotOwed(read, j, h, done, x) && x != SlotOf(h, i, n)
    ensures SlotOwed(read, j, h, done + {(i, n)}, x)
  {
    var k: nat :| Owed(read, j, h, done, k, x.number) && x.key == Point(h.keys[k + 1]);
    assert Owed(read, j, h, done + {(i, n)}, k, x.number);
  }

  lemma HoldsAfterRemoval(cache: map<Slot, Term>, read: u32, j: nat, h: Spine, done: Ledger,
                          i: nat, n: u32, k: nat, m: u32)
    requires Distinct(h.keys)
    requires WellFormed(h) && j < |h.keys| && CacheExact(cache, read, j, h, done)
    requires Owed(read, j, h, done, i, n) && Owed(read, j, h, done + {(i, n)}, k, m)
    ensures Holds(cache - {SlotOf(h, i, n)}, h, k, m)
  {
    assert Owed(read, j, h, done, k, m);
    assert Holds(cache, h, k, m);
    assert h.keys[k + 1] == h.keys[i + 1] ==> k == i;
    assert SlotOf(h, k, m) != SlotOf(h, i, n);
  }

  /** Caching the keys passed over when reading from `read` to `until` on the current chain. */
  lemma CacheSkipped(cache: map<Slot, Term>, read: u32, j: nat, h: Spine, done: Ledger, until: u32)
    requires Distinct(h.keys)
    requires WellFormed(h) && 2 <= j < |h.keys| && CacheExact(cache, read, j, h, done)
    requires DoneWithinReach(read, j, h, done) && read <= until <= h.lengths[j - 2]
    ensures CacheExact(cache + KeysBetween(Point(h.keys[j - 1]), Iterate(Chain(h, j - 2), read), read, until),
                       until, j, h, done)
  {
    var chain, remote := Iterate(Chain(h, j - 2), read), Point(h.keys[j - 1]);
    var cache' := cache + KeysBetween(remote, chain, read, until);
    forall k: nat, m: u32 | Owed(until, j, h, done, k, m)
      ensures Holds(cache', h, k, m)
    {
      HoldsAfterSkip(cache, read, j, h, done, until, k, m);
    }
    forall x | x in cache'
      ensures SlotOwed(until, j, h, done, x)
    {
      KeysBetweenAt(remote, chain, read, until, x);
      SlotOwedAfterSkip(read, j, h, done, until, x);
    }
  }

  lemma SlotOwedAfterSkip(read: u32, j: nat, h: Spine, done: Ledger, until: u32, x: Slot)
    requires WellFormed(h) && 2 <= j < |h.keys| && read <= until <= h.lengths[j - 2]
    requires DoneWithinReach(read, j, h, done)
    requires SlotOwed(read, j, h, done, x) || (x.key == Point(h.keys[j - 1]) && read <= x.number < until)
    ensures SlotOwed(until, j, h, done, x)
  {
    if SlotOwed(read, j, h, done, x) {
      var k: nat :| Owed(read, j, h, done, k, x.number) && x.key == Point(h.keys[k + 1]);
      assert Owed(until, j, h, done, k, x.number);
    } else {
      assert FromPeer(j, j - 2);
      assert Owed(until, j, h, done, j - 2, x.number);
    }
  }

  lemma HoldsAfterSkip(cache: map<Slot, Term>, read: u32, j: nat, h: Spine, done: Ledger, until: u32, k: nat, m: u32)
    requires Distinct(h.keys)
    requires WellFormed(h) && 2 <= j < |h.keys| && CacheExact(cache, read, j, h, done)
    requires read <= until <= h.lengths[j - 2] && Owed(until, j, h, done, k, m)
    ensures Holds(cache + KeysBetween(Point(h.keys[j - 1]), Iterate(Chain(h, j - 2), read), read, until), h, k, m)
  {
    var chain, remote := Iterate(Chain(h, j - 2), read), Point(h.keys[j - 1]);
    KeysBetweenAt(remote, chain, read, until, SlotOf(h, k, m));
    if k + 2 == j && read <= m {
      IterateAdd(Chain(h, k), read, m - read);
    } else {
      assert Owed(read, j, h, done, k, m) && Holds(cache, h, k, m);
    }
  }

  // ---- receiving ----

  /** Opening a cached message. */
  lemma CachedKeeps(s: State, j: nat, h: Spine, done: Ledger, i: nat, n: u32)
    requires Distinct(h.keys)
    requires EndInv(s, j, h, done) && Owed(s.recvNumber, j, h, done, i, n)
    ensures Holds(s.skipped, h, i, n)
    ensures EndInv(s.(skipped := s.skipped - {SlotOf(h, i, n)}), j, h, done + {(i, n)})
  {
    CacheRemoved(s.skipped, s.recvNumber, j, h, done, i, n);
  }

  /** Moving along the current chain without opening anything. */
  lemma SkipKeeps(s: State, j: nat, h: Spine, done: Ledger, until: u32)
    requires Distinct(h.keys)
    requires EndInv(s, j, h, done) && j >= 2 && s.recvNumber <= until <= h.lengths[j - 2]
    ensures EndInv(SkippedTo(s, until), j, h, done)
  {
    CacheSkipped(s.skipped, s.recvNumber, j, h, done, until);
    IterateAdd(Chain(h, j - 2), s.recvNumber, until - s.recvNumber);
  }

  lemma OwedAfterTake(read: u32, j: nat, h: Spine, done: Ledger, i: nat, m: nat)
    requires WellFormed(h) && 2 <= j < |h.keys| && read < U32_MAX
    requires DoneWithinReach(read, j, h, done)
    ensures Owed(read + 1, j, h, done + {(j - 2, read)}, i, m) <==> Owed(read, j, h, done, i, m)
  {
  }

  /** Opening the message at the head of the current chain. */
  lemma TakeKeeps(s: State, j: nat, h: Spine, done: Ledger)
    requires EndInv(s, j, h, done) && j >= 2 && s.recvNumber < h.lengths[j - 2]
    ensures EndInv(s.(receivingChain := Some(NextChain(s.receivingChain.value)), recvNumber := s.recvNumber + 1),
                   j, h, done + {(j - 2, s.recvNumber)})
  {
    var n := s.recvNumber;
    forall i: nat, m: nat
      ensures Owed(n + 1, j, h, done + {(j - 2, n)}, i, m) <==> Owed(n, j, h, done, i, m)
    {
      OwedAfterTake(n, j, h, done, i, m);
    }
    CacheTransfer(s.skipped, n, j, h, done, n + 1, j, h, done + {(j - 2, n)});
  }

  /** The DH ratchet step onto the peer's new chain, from a fully read current chain. */
  lemma RatchetKeeps(s: State, j: nat, h: Spine, done: Ledger, generated: KeyId)
    requires EndInv(s, j, h, done) && j + 2 == |h.keys|
    requires j >= 2 ==> s.recvNumber == h.lengths[j - 2]
    ensures var r := Ratcheted(s, Point(h.keys[j + 1]), generated);
            r.result.Success? && r.state.recvNumber == 0 && EndInv(r.state, j + 2, Extended(h, generated), done)
  {
    var h' := Extended(h, generated);
    EvenSteps(j);
    RatchetSynchronises(s, j, h, generated);
    forall i: nat, m: nat
      ensures Owed(0, j + 2, h', done, i, m) <==> Owed(s.recvNumber, j, h, done, i, m)
    {
      assert FromPeer(j + 2, i) == FromPeer(j, i);
    }
    CacheTransfer(s.skipped, s.recvNumber, j, h, done, 0, j + 2, h', done);
    forall p | p in done && FromPeer(j + 2, p.0)
      ensures p.0 + 2 <= j + 2 && p.1 < Reach(0, j + 2, h', p.0)
    {
      assert FromPeer(j, p.0);
    }
  }

  lemma RatchetSynchronises(s: State, j: nat, h: Spine, generated: KeyId)
    requires WellFormed(h) && j + 2 == |h.keys| && Synchronised(s, j, h)
    ensures var r := Ratcheted(s, Point(h.keys[j + 1]), generated);
            r.result.Success? && r.state.recvNumber == 0 && r.state.skipped == s.skipped
            && WellFormed(Extended(h, generated)) && Synchronised(r.state, j + 2, Extended(h, generated))
  {
    RootPrefix(h.secret, h.keys, h.keys + [generated], j);
    RootPrefix(h.secret, h.keys, h.keys + [generated], j + 1);
    SharedPointAgreement(generated, h.keys[j + 1], h.keys[j + 1], generated);
  }
}
