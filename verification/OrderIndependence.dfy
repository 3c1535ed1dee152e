/** Messages of one chain may be delivered in any order: the answers and the final state, cache included,
    are those of in-order delivery. */
module OrderIndependence {
  import opened Crypto
  import opened DoubleRatchet
  import opened AtMostOnce

  /** `s` is on a chain whose next `count` messages are `bodies`, none of them seen. */
  ghost predicate Ready(s: State, bodies: seq<Ciphertext>, ad: seq<byte>) {
    && s.remoteKey.Some? && s.receivingChain.Some?
    && s.recvNumber + |bodies| <= U32_MAX
    && (forall x :: x in s.skipped && x.key == s.remoteKey.value ==> x.number < s.recvNumber)
    && (forall d :: 0 <= d < |bodies| ==>
          bodies[d].Sealed? && bodies[d].key == MessageKey(Iterate(s.receivingChain.value, d)) && bodies[d].ad == ad)
  }

  /** Slot `x` belongs to one of the first `high` messages, and that one is not among `got`. */
  predicate Missed(s: State, got: set<nat>, high: nat, x: Slot) {
    && s.remoteKey == Some(x.key)
    && s.recvNumber <= x.number < s.recvNumber + high && (x.number - s.recvNumber) !in got
  }

  /** What becomes of slot `x` when the messages `got` are opened, the highest of them `high - 1`. */
  predicate SlotMidway(cache: map<Slot, Term>, s: State, got: set<nat>, high: nat, x: Slot)
    requires s.receivingChain.Some?
  {
    if Missed(s, got, high, x) then
      x in cache && cache[x] == MessageKey(Iterate(s.receivingChain.value, x.number - s.recvNumber))
    else
      (x in cache <==> x in s.skipped) && (x in cache ==> cache[x] == s.skipped[x])
  }

  ghost predicate MidwayCache(cache: map<Slot, Term>, s: State, got: set<nat>, high: nat)
    requires s.receivingChain.Some?
  {
    forall x: Slot :: SlotMidway(cache, s, got, high, x)
  }

  ghost predicate Midway(t: State, s: State, got: set<nat>, high: nat)
    requires s.receivingChain.Some?
  {
    && s.recvNumber + high <= U32_MAX
    && t == s.(skipped := t.skipped, receivingChain := Some(Iterate(s.receivingChain.value, high)),
               recvNumber := s.recvNumber + high)
    && MidwayCache(t.skipped, s, got, high)
  }

  function DeliverOne(t: State, s: State, bodies: seq<Ciphertext>, ad: seq<byte>, prev: u32, g: KeyId, d: nat)
    : Outcome<seq<byte>>
    requires s.remoteKey.Some? && d < |bodies| && s.recvNumber + |bodies| <= U32_MAX
  {
    Decrypted(t, Header(s.remoteKey.value, prev, s.recvNumber + d), bodies[d], ad, g)
  }

  lemma CacheLate(cache: map<Slot, Term>, s: State, got: set<nat>, high: nat, x: Slot)
    requires s.receivingChain.Some? && MidwayCache(cache, s, got, high) && Missed(s, got, high, x) && x !in s.skipped
    ensures MidwayCache(cache - {x}, s, got + {x.number - s.recvNumber}, high)
  {
    var cache', got' := cache - {x}, got + {x.number - s.recvNumber};
    forall y: Slot
      ensures SlotMidway(cache', s, got', high, y)
    {
      assert SlotMidway(cache, s, got, high, y);
      assert y.key == x.key && y.number == x.number ==> y == x;
    }
  }

  lemma CacheAhead(cache: map<Slot, Term>, s: State, got: set<nat>, high: nat, d: nat)
    requires s.remoteKey.Some? && s.receivingChain.Some? && s.recvNumber + d < U32_MAX && high <= d
    requires MidwayCache(cache, s, got, high) && forall e :: e in got ==> e < high
    ensures var base := s.recvNumber;
            var more := KeysBetween(s.remoteKey.value, Iterate(s.receivingChain.value, high), base + high, base + d);
            MidwayCache(cache + more, s, got + {d}, d + 1)
  {
    var base := s.recvNumber;
    var more := KeysBetween(s.remoteKey.value, Iterate(s.receivingChain.value, high), base + high, base + d);
    var cache', got', high' := cache + more, got + {d}, d + 1;
    forall x: Slot
      ensures SlotMidway(cache', s, got', high', x)
    {
      SlotAhead(cache, s, got, high, d, x);
    }
  }

  lemma SlotAhead(cache: map<Slot, Term>, s: State, got: set<nat>, high: nat, d: nat, x: Slot)
    requires s.remoteKey.Some? && s.receivingChain.Some? && s.recvNumber + d < U32_MAX && high <= d
    requires SlotMidway(cache, s, got, high, x) && forall e :: e in got ==> e < high
    ensures var base := s.recvNumber;
            var more := KeysBetween(s.remoteKey.value, Iterate(s.receivingChain.value, high), base + high, base + d);
            SlotMidway(cache + more, s, got + {d}, d + 1, x)
  {
    var remote, chain, base := s.remoteKey.value, s.receivingChain.value, s.recvNumber;
    KeysBetweenAt(remote, Iterate(chain, high), base + high, base + d, x);
    if base + high <= x.number {
      IterateAdd(chain, high, x.number - (base + high));
    }
  }

  /** The `d`-th of the next messages, not yet delivered. */
  ghost predicate Next(s: State, got: set<nat>, d: nat, body: Ciphertext, ad: seq<byte>) {
    && s.remoteKey.Some? && s.receivingChain.Some? && s.recvNumber + d < U32_MAX && d !in got
    && Slot(s.remoteKey.value, s.recvNumber + d) !in s.skipped
    && body.Sealed? && body.key == MessageKey(Iterate(s.receivingChain.value, d)) && body.ad == ad
  }

  /** One delivery, late or ahead. */
  lemma OneDelivery(t: State, s: State, body: Ciphertext, ad: seq<byte>, prev: u32, g: KeyId,
                    got: set<nat>, high: nat, d: nat)
    requires Next(s, got, d, body, ad) && Midway(t, s, got, high) && d - high <= MAX_SKIP
    requires forall e :: e in got ==> e < high
    ensures var o := Decrypted(t, Header(s.remoteKey.value, prev, s.recvNumber + d), body, ad, g);
            o.result == Success(body.plaintext) && Midway(o.state, s, got + {d}, if d < high then high else d + 1)
  {
    if d < high {
      OneLate(t, s, body, ad, prev, g, got, high, d);
    } else {
      OneAhead(t, s, body, ad, prev, g, got, high, d);
    }
  }

  lemma OneLate(t: State, s: State, body: Ciphertext, ad: seq<byte>, prev: u32, g: KeyId,
                got: set<nat>, high: nat, d: nat)
    requires Next(s, got, d, body, ad) && Midway(t, s, got, high) && d < high
    ensures var o := Decrypted(t, Header(s.remoteKey.value, prev, s.recvNumber + d), body, ad, g);
            o.result == Success(body.plaintext) && Midway(o.state, s, got + {d}, high)
  {
    var x := Slot(s.remoteKey.value, s.recvNumber + d);
    assert SlotMidway(t.skipped, s, got, high, x) && Missed(s, got, high, x);
    CacheLate(t.skipped, s, got, high, x);
  }

  lemma OneAhead(t: State, s: State, body: Ciphertext, ad: seq<byte>, prev: u32, g: KeyId,
                 got: set<nat>, high: nat, d: nat)
    requires Next(s, got, d, body, ad) && Midway(t, s, got, high) && high <= d && d - high <= MAX_SKIP
    requires forall e :: e in got ==> e < high
    ensures var o := Decrypted(t, Header(s.remoteKey.value, prev, s.recvNumber + d), body, ad, g);
            o.result == Success(body.plaintext) && Midway(o.state, s, got + {d}, d + 1)
  {
    var x := Slot(s.remoteKey.value, s.recvNumber + d);
    assert SlotMidway(t.skipped, s, got, high, x) && x !in t.skipped;
    IterateAdd(s.receivingChain.value, high, d - high);
    CacheAhead(t.skipped, s, got, high, d);
  }

  ghost predicate Permutation(order: seq<nat>, count: nat) {
    NoRepeats(order) && forall d: nat :: d in order <==> d < count
  }

  ghost predicate Within(order: seq<nat>, count: nat) {
    forall i :: 0 <= i < |order| ==> order[i] < count
  }

  /** The state after delivering the first `k` messages of `order`. */
  ghost function DeliverMany(s: State, bodies: seq<Ciphertext>, ad: seq<byte>, prev: u32, g: KeyId,
                             order: seq<nat>, k: nat): State
    requires s.remoteKey.Some? && k <= |order| && s.recvNumber + |bodies| <= U32_MAX && Within(order, |bodies|)
  {
    if k == 0 then s
    else DeliverOne(DeliverMany(s, bodies, ad, prev, g, order, k - 1), s, bodies, ad, prev, g, order[k - 1]).state
  }

  /** The `k`-th message of `order` is opened when its turn comes. */
  ghost predicate OpensAt(s: State, bodies: seq<Ciphertext>, ad: seq<byte>, prev: u32, g: KeyId,
                          order: seq<nat>, k: nat)
    requires s.remoteKey.Some? && k < |order| && s.recvNumber + |bodies| <= U32_MAX && Within(order, |bodies|)
    requires bodies[order[k]].Sealed?
  {
    DeliverOne(DeliverMany(s, bodies, ad, prev, g, order, k), s, bodies, ad, prev, g, order[k]).result
      == Success(bodies[order[k]].plaintext)
  }

  /** `got` is what the first `k` deliveries bring, all below `high`. */
  ghost predicate Brought(order: seq<nat>, k: nat, got: set<nat>, high: nat)
    requires k <= |order|
  {
    forall e :: (e in got <==> e in order[..k]) && (e in got ==> e < high)
  }

  lemma BroughtNext(order: seq<nat>, k: nat, got: set<nat>, high: nat)
    requires k < |order| && Brought(order, k, got, high)
    ensures Brought(order, k + 1, got + {order[k]}, if order[k] < high then high else order[k] + 1)
  {
    assert order[..k + 1] == order[..k] + [order[k]];
  }

  lemma NextInOrder(s: State, bodies: seq<Ciphertext>, ad: seq<byte>, order: seq<nat>, k: nat, got: set<nat>, high: nat)
    requires Ready(s, bodies, ad) && NoRepeats(order) && Within(order, |bodies|)
    requires k < |order| && Brought(order, k, got, high)
    ensures Next(s, got, order[k], bodies[order[k]], ad)
  {
    assert order[k] !in order[..k];
  }

  /** After a prefix of the deliveries, the state is that of the set of messages delivered. */
  lemma {:induction false} AfterPrefix(s: State, bodies: seq<Ciphertext>, ad: seq<byte>, prev: u32, g: KeyId,
                                       order: seq<nat>, k: nat)
    returns (got: set<nat>, high: nat)
    requires Ready(s, bodies, ad) && |bodies| <= MAX_SKIP + 1 && NoRepeats(order) && Within(order, |bodies|)
    requires k <= |order|
    ensures high <= |bodies| && Brought(order, k, got, high)
    ensures Midway(DeliverMany(s, bodies, ad, prev, g, order, k), s, got, high)
  {
    got, high := {}, 0;
    MidwayStart(s);
    for i := 0 to k
      invariant high <= |bodies| && Brought(order, i, got, high)
      invariant Midway(DeliverMany(s, bodies, ad, prev, g, order, i), s, got, high)
    {
      NextInOrder(s, bodies, ad, order, i, got, high);
      got, high := DeliveryAfter(DeliverMany(s, bodies, ad, prev, g, order, i),
                                 s, bodies, ad, prev, g, order, i, got, high);
    }
  }

  lemma MidwayStart(s: State)
    requires s.receivingChain.Some?
    ensures Midway(s, s, {}, 0)
  {
  }

  /** One delivery more. */
  lemma DeliveryAfter(t: State, s: State, bodies: seq<Ciphertext>, ad: seq<byte>, prev: u32, g: KeyId,
                      order: seq<nat>, k: nat, got: set<nat>, high: nat)
    returns (got': set<nat>, high': nat)
    requires k < |order| && order[k] < |bodies| <= MAX_SKIP + 1 && s.recvNumber + |bodies| <= U32_MAX
    requires Next(s, got, order[k], bodies[order[k]], ad)
    requires Brought(order, k, got, high) && high <= |bodies| && Midway(t, s, got, high)
    ensures high' <= |bodies| && Brought(order, k + 1, got', high')
    ensures var o := DeliverOne(t, s, bodies, ad, prev, g, order[k]);
            o.result == Success(bodies[order[k]].plaintext) && Midway(o.state, s, got', high')
  {
    var d := order[k];
    OneDelivery(t, s, bodies[d], ad, prev, g, got, high, d);
    BroughtNext(order, k, got, high);
    got', high' := got + {d}, if d < high then high else d + 1;
  }

  lemma EachOpens(s: State, bodies: seq<Ciphertext>, ad: seq<byte>, prev: u32, g: KeyId, order: seq<nat>, k: nat)
    requires Ready(s, bodies, ad) && |bodies| <= MAX_SKIP + 1 && NoRepeats(order) && Within(order, |bodies|)
    requires k < |order|
    ensures OpensAt(s, bodies, ad, prev, g, order, k)
  {
    var got, high := AfterPrefix(s, bodies, ad, prev, g, order, k);
    NextInOrder(s, bodies, ad, order, k, got, high);
    got, high := DeliveryAfter(DeliverMany(s, bodies, ad, prev, g, order, k),
                               s, bodies, ad, prev, g, order, k, got, high);
  }

  /** Any order of the next messages of a chain: every one is opened, and the end state does not depend on
      the order. */
  lemma AnyOrder(s: State, bodies: seq<Ciphertext>, ad: seq<byte>, prev: u32, g: KeyId, order: seq<nat>)
    requires Ready(s, bodies, ad) && |bodies| <= MAX_SKIP + 1 && Permutation(order, |bodies|)
    ensures Within(order, |bodies|)
    ensures forall k :: 0 <= k < |order| ==> OpensAt(s, bodies, ad, prev, g, order, k)
    ensures DeliverMany(s, bodies, ad, prev, g, order, |order|)
         == s.(receivingChain := Some(Iterate(s.receivingChain.value, |bodies|)), recvNumber := s.recvNumber + |bodies|)
  {
    assert forall i :: 0 <= i < |order| ==> order[i] in order;
    forall k | 0 <= k < |order|
      ensures OpensAt(s, bodies, ad, prev, g, order, k)
    {
      EachOpens(s, bodies, ad, prev, g, order, k);
    }
    var got, high := AfterPrefix(s, bodies, ad, prev, g, order, |order|);
    assert order[..|order|] == order;
    FullyRead(s, |bodies|, got, high, order, DeliverMany(s, bodies, ad, prev, g, order, |order|));
  }

  lemma FullyRead(s: State, count: nat, got: set<nat>, high: nat, order: seq<nat>, t: State)
    requires s.receivingChain.Some? && s.recvNumber + count <= U32_MAX && Midway(t, s, got, high)
    requires Permutation(order, count) && high <= count && (forall e :: e in got <==> e in order)
    requires forall e :: e in got ==> e < high
    ensures t == s.(receivingChain := Some(Iterate(s.receivingChain.value, count)), recvNumber := s.recvNumber + count)
  {
    if count > 0 {
      assert count - 1 in order;
    }
    assert high == count;
    forall x: Slot
      ensures (x in t.skipped <==> x in s.skipped) && (x in t.skipped ==> t.skipped[x] == s.skipped[x])
    {
      assert SlotMidway(t.skipped, s, got, high, x);
      assert !Missed(s, got, high, x) by {
        if s.recvNumber <= x.number < s.recvNumber + high {
          assert (x.number - s.recvNumber) in order;
        }
      }
    }
    assert t.skipped.Keys == s.skipped.Keys;
    assert t.skipped == s.skipped;
  }

  /** With more messages than that, delivering the last one first is refused. */
  lemma OneTooMany(s: State, bodies: seq<Ciphertext>, ad: seq<byte>, prev: u32, g: KeyId)
    requires Ready(s, bodies, ad) && |bodies| > MAX_SKIP + 1
    ensures DeliverOne(s, s, bodies, ad, prev, g, |bodies| - 1).result == Failure(TooManySkipped)
    ensures DeliverOne(s, s, bodies, ad, prev, g, |bodies| - 1).state == s
  {
    assert Slot(s.remoteKey.value, s.recvNumber + (|bodies| - 1)) !in s.skipped;
  }

  ghost predicate AllOpen(s: State, bodies: seq<Ciphertext>, ad: seq<byte>, prev: u32, g: KeyId, order: seq<nat>)
    requires Ready(s, bodies, ad)
  {
    Within(order, |bodies|) && forall k :: 0 <= k < |order| ==> OpensAt(s, bodies, ad, prev, g, order, k)
  }

  function LastFirst(count: nat): seq<nat>
    requires count > 0
  {
    seq(count, i requires 0 <= i < count => if i == 0 then count - 1 else i - 1 as nat)
  }

  lemma LastFirstPermutes(count: nat)
    requires count > 0
    ensures Permutation(LastFirst(count), count)
  {
    forall d: nat
      ensures d in LastFirst(count) <==> d < count
    {
      if d < count {
        assert LastFirst(count)[if d == count - 1 then 0 else d + 1] == d;
      }
    }
  }

  /** The bound is exact: all orders of the next messages open them all if and only if there are at most
      MAX_SKIP + 1 of them. */
  lemma AnyOrderExact(s: State, bodies: seq<Ciphertext>, ad: seq<byte>, prev: u32, g: KeyId)
    requires Ready(s, bodies, ad)
    ensures (forall order | Permutation(order, |bodies|) :: AllOpen(s, bodies, ad, prev, g, order))
       <==> |bodies| <= MAX_SKIP + 1
  {
    if |bodies| <= MAX_SKIP + 1 {
      forall order | Permutation(order, |bodies|)
        ensures AllOpen(s, bodies, ad, prev, g, order)
      {
        AnyOrder(s, bodies, ad, prev, g, order);
      }
    } else {
      var order := LastFirst(|bodies|);
      LastFirstPermutes(|bodies|);
      OneTooMany(s, bodies, ad, prev, g);
      assert Within(order, |bodies|) ==> !OpensAt(s, bodies, ad, prev, g, order, 0);
    }
  }
}
