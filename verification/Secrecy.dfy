/** Message keys: no two are equal, and none can be recomputed once used. */
module Secrecy {
  import opened Crypto
  import opened DoubleRatchet
  import opened SessionBook
  import opened Runs

  // ---- keys never repeat ----

  lemma {:induction false} RootDepthOf(h: Spine, i: nat)
    requires i < |h.keys|
    ensures RootDepth(Root(h.secret, h.keys, i)) == RootDepth(h.secret) + i
  {
    if i > 0 {
      RootDepthOf(h, i - 1);
    }
  }

  /** A place on a chain is determined by the chain key there. */
  lemma ChainKeysDistinct(h: Spine, i: nat, m: nat, k: nat, n: nat)
    requires i + 1 < |h.keys| && k + 1 < |h.keys|
    requires Iterate(Chain(h, i), m) == Iterate(Chain(h, k), n)
    ensures i == k && m == n
  {
    RootDepthOf(h, i);
    RootDepthOf(h, k);
    IterateStamp(Chain(h, i), m);
    IterateStamp(Chain(h, k), n);
  }

  ghost predicate Includes(net: seq<seq<Packet>>, net': seq<seq<Packet>>) {
    |net| <= |net'| && forall i :: 0 <= i < |net| ==> net[i] <= net'[i]
  }

  /** The network, the ledger and the common history only grow. */
  ghost predicate Grows(w: World, w': World) {
    && Includes(w.net, w'.net) && w.done <= w'.done
    && w.spine.secret == w'.spine.secret && w.spine.keys <= w'.spine.keys
  }

  lemma EventGrows(w: World, e: Event)
    requires Legal(w, e)
    ensures Grows(w, After(w, e))
  {
  }

  ghost predicate Later(w: World, w': World) {
    WorldInv(w') && Grows(w, w')
  }

  lemma GrowsOn(u: World, v: World, e: Event)
    requires Grows(u, v)
    ensures Grows(u, Step(v, e))
  {
    if Legal(v, e) {
      EventGrows(v, e);
    }
  }

  lemma {:induction false} RunGrows(w: World, events: seq<Event>, k: nat)
    requires k <= |events|
    ensures Grows(w, Run(w, events, k))
  {
    if k > 0 {
      RunGrows(w, events, k - 1);
      GrowsOn(w, Run(w, events, k - 1), events[k - 1]);
    }
  }

  lemma RunLater(w: World, events: seq<Event>, k: nat)
    requires WorldInv(w) && k <= |events|
    ensures Later(w, Run(w, events, k))
  {
    RunInv(w, events, k);
    RunGrows(w, events, k);
  }

  function SendOf(w: World, e: Event): Outcome<(Header, Ciphertext)>
    requires e.Send?
  {
    Encrypted(End(w, e.party), e.plaintext, w.ad, e.nonce)
  }

  /** The key of a successful send: the next one of the sender's chain. */
  lemma SendKey(w: World, e: Event)
    requires WorldInv(w) && Legal(w, e) && e.Send? && SendOf(w, e).result.Success?
    ensures 1 <= NodeOf(w, e.party).position <= |w.net| == |w.spine.lengths|
    ensures var c, body := NodeOf(w, e.party).position - 1, SendOf(w, e).result.value.1;
            body.Sealed? && body.key == KeyOf(w.spine, c, |w.net[c]|)
  {
    PlacedBounds(w, e.party);
    assert NodeInv(NodeOf(w, e.party), w.spine, w.done);
    SendResult(End(w, e.party), NodeOf(w, e.party).position, w.spine, e.plaintext, w.ad, e.nonce);
  }

  lemma SendAppends(w: World, e: Event)
    requires Legal(w, e) && e.Send? && SendOf(w, e).result.Success?
    requires 1 <= NodeOf(w, e.party).position <= |w.net| == |w.spine.lengths|
    ensures var c, w' := NodeOf(w, e.party).position - 1, After(w, e);
            && |w'.net| == |w.net| && |w'.net[c]| == |w.net[c]| + 1
            && w'.net[c][|w.net[c]|].body == SendOf(w, e).result.value.1
  {
  }

  /** A new encryption differs from everything already on the network. */
  lemma SendKeyNew(w: World, e: Event, i: nat, m: nat)
    requires WorldInv(w) && Legal(w, e) && e.Send? && SendOf(w, e).result.Success?
    requires i < |w.net| && m < |w.net[i]|
    ensures w.net[i][m].body.Sealed? && SendOf(w, e).result.value.1.Sealed?
    ensures w.net[i][m].body.key != SendOf(w, e).result.value.1.key
  {
    SendKey(w, e);
    var k := NodeOf(w, e.party).position - 1;
    assert PacketOk(w.spine, w.ad, i, m, w.net[i][m]);
    if KeyOf(w.spine, i, m) == KeyOf(w.spine, k, |w.net[k]|) {
      ChainKeysDistinct(w.spine, i, m, k, |w.net[k]|);
    }
  }

  lemma SendKeyNewLater(w: World, e: Event, v: World, f: Event)
    requires WorldInv(w) && Legal(w, e) && e.Send? && SendOf(w, e).result.Success? && Later(After(w, e), v)
    requires Legal(v, f) && f.Send? && SendOf(v, f).result.Success?
    ensures var x, y := SendOf(w, e).result.value.1, SendOf(v, f).result.value.1;
            x.Sealed? && y.Sealed? && x.key != y.key
  {
    SendKey(w, e);
    SendAppends(w, e);
    var c := NodeOf(w, e.party).position - 1;
    assert After(w, e).net[c] <= v.net[c];
    SendKeyNew(v, f, c, |w.net[c]|);
  }

  /** No two encryptions, by the same end or by both, use the same message key: not after any further
      events in between. */
  lemma EncryptionKeysDistinct(w: World, e: Event, events: seq<Event>, f: Event)
    requires WorldInv(w) && Legal(w, e) && e.Send? && SendOf(w, e).result.Success?
    requires var v := Run(After(w, e), events, |events|); Legal(v, f) && f.Send? && SendOf(v, f).result.Success?
    ensures var x, y := SendOf(w, e).result.value.1, SendOf(Run(After(w, e), events, |events|), f).result.value.1;
            x.Sealed? && y.Sealed? && x.key != y.key
  {
    EventCorrect(w, e);
    RunLater(After(w, e), events, |events|);
    SendKeyNewLater(w, e, Run(After(w, e), events, |events|), f);
  }

  // ---- the two ends stay one root step apart ----

  ghost predicate OneStepAhead(ahead: State, behind: State) {
    && ahead.keypair.Some? && behind.keypair.Some?
    && ahead.rootKey == NextRoot(behind.rootKey, SharedPoint(ahead.keypair.value.secret, behind.keypair.value.secret))
  }

  lemma RootsAdjacent(w: World)
    requires WorldInv(w)
    ensures OneStepAhead(w.initiator.state, w.responder.state) || OneStepAhead(w.responder.state, w.initiator.state)
  {
    assert NodeInv(w.initiator, w.spine, w.done) && NodeInv(w.responder, w.spine, w.done);
    PlacedBounds(w, Initiator);
    var j, k := w.initiator.position, w.responder.position;
    SharedPointAgreement(w.spine.keys[j], w.spine.keys[k], w.spine.keys[k], w.spine.keys[j]);
  }

  /** An end on the peer's current chain can be brought level with the peer by the chain KDF alone. */
  ghost predicate Level(s: State, t: State) {
    t.keypair.Some? && s.remoteKey == Some(t.keypair.value.public) && s.receivingChain.Some? ==>
      && s.recvNumber <= t.sendNumber && t.sendingChain.Some?
      && Iterate(s.receivingChain.value, t.sendNumber - s.recvNumber) == t.sendingChain.value
  }

  lemma LevelAt(s: State, j: nat, t: State, k: nat, h: Spine)
    requires WellFormed(h) && Distinct(h.keys) && j < |h.keys| && k < |h.keys| && (k == j + 1 || j == k + 1)
    requires Synchronised(s, j, h) && Synchronised(t, k, h)
    ensures Level(s, t)
  {
    if j >= 2 && k + 1 == j {
      IterateAdd(Chain(h, j - 2), s.recvNumber, h.lengths[j - 2] - s.recvNumber);
    }
  }

  lemma ChainsAgree(w: World, p: Party)
    requires WorldInv(w)
    ensures Level(End(w, p), End(w, PeerOf(p)))
  {
    assert NodeInv(NodeOf(w, p), w.spine, w.done) && NodeInv(NodeOf(w, PeerOf(p)), w.spine, w.done);
    PlacedBounds(w, p);
    LevelAt(End(w, p), NodeOf(w, p).position, End(w, PeerOf(p)), NodeOf(w, PeerOf(p)).position, w.spine);
  }

  // ---- what can be computed from an end's secrets ----

  /** The terms computable from `held` and the secret key `own`, with every public key known: the KDFs are
      one-way, so a term is held or built from computable parts. */
  predicate Derives(held: set<Term>, own: KeyId, t: Term) {
    || t in held
    || match t
       case Atom(_) => false
       case Dh(owners) => own in owners
       case X3dhSecret(parts) => forall p | p in parts :: Derives(held, own, p)
       case NextRoot(root, dh) => Derives(held, own, root) && Derives(held, own, dh)
       case ChainStart(root, dh) => Derives(held, own, root) && Derives(held, own, dh)
       case NextChain(chain) => Derives(held, own, chain)
       case MessageKey(chain) => Derives(held, own, chain)
  }

  /** `known` is closed under every computation available to the owner of `own`. */
  ghost predicate Closed(known: iset<Term>, own: KeyId) {
    && (forall owners {:trigger Dh(owners)} :: own in owners ==> Dh(owners) in known)
    && (forall parts {:trigger X3dhSecret(parts)} ::
          (forall p | p in parts :: p in known) ==> X3dhSecret(parts) in known)
    && (forall root, dh {:trigger NextRoot(root, dh)} {:trigger ChainStart(root, dh)} ::
          root in known && dh in known ==> NextRoot(root, dh) in known && ChainStart(root, dh) in known)
    && (forall chain {:trigger NextChain(chain)} {:trigger MessageKey(chain)} ::
          chain in known ==> NextChain(chain) in known && MessageKey(chain) in known)
  }

  ghost function Derivable(held: set<Term>, own: KeyId): iset<Term> {
    iset t | Derives(held, own, t)
  }

  /** What is derivable is closed, contains what is held ... */
  lemma DerivesIsClosed(held: set<Term>, own: KeyId)
    ensures Closed(Derivable(held, own), own)
    ensures forall t :: t in held ==> Derives(held, own, t)
  {
  }

  /** ... and is the least such set. */
  lemma {:induction false} DerivesIsLeast(held: set<Term>, own: KeyId, known: iset<Term>, t: Term)
    requires Closed(known, own) && (forall x :: x in held ==> x in known) && Derives(held, own, t)
    ensures t in known
    decreases t
  {
    if t !in held {
      match t
      case Dh(_) =>
      case X3dhSecret(parts) =>
        forall p | p in parts ensures p in known {
          DerivesIsLeast(held, own, known, p);
        }
      case NextRoot(root, dh) =>
        DerivesIsLeast(held, own, known, root);
        DerivesIsLeast(held, own, known, dh);
      case ChainStart(root, dh) =>
        DerivesIsLeast(held, own, known, root);
        DerivesIsLeast(held, own, known, dh);
      case NextChain(chain) => DerivesIsLeast(held, own, known, chain);
      case MessageKey(chain) => DerivesIsLeast(held, own, known, chain);
    }
  }

  function Secrets(s: State): set<Term> {
    {s.rootKey}
    + (if s.sendingChain.Some? then {s.sendingChain.value} else {})
    + (if s.receivingChain.Some? then {s.receivingChain.value} else {})
    + s.skipped.Values
  }

  /** `h'` is `h` after any further events. */
  ghost predicate Continues(h: Spine, h': Spine) {
    h.secret == h'.secret && h.keys <= h'.keys && Distinct(h'.keys)
  }

  /** An end that has not ratcheted yet holds the session secret itself, which is then a handshake's or an
      unrelated one, not a term of the ratchet. */
  ghost predicate Opened(j: nat, h: Spine) {
    j >= 1 || h.secret.X3dhSecret? || h.secret.Atom?
  }

  /** What an honest end holds. */
  lemma HeldForms(s: State, j: nat, h: Spine, done: Ledger, h': Spine, t: Term) returns (i: nat, n: nat)
    requires EndInv(s, j, h, done) && Continues(h, h') && t in Secrets(s)
    ensures || t == Root(h'.secret, h'.keys, j)
            || (j >= 1 && t == Iterate(Chain(h', j - 1), s.sendNumber))
            || (j >= 2 && t == Iterate(Chain(h', j - 2), s.recvNumber))
            || (Owed(s.recvNumber, j, h, done, i, n) && t == KeyOf(h', i, n))
  {
    i, n := 0, 0;
    RootPrefix(h.secret, h.keys, h'.keys, j);
    if j >= 1 {
      ChainPrefix(h, h', j - 1);
    }
    if j >= 2 {
      ChainPrefix(h, h', j - 2);
    }
    if t in s.skipped.Values {
      i, n := CachedForm(s, j, h, done, h', t);
    }
  }

  lemma CachedForm(s: State, j: nat, h: Spine, done: Ledger, h': Spine, t: Term) returns (i: nat, n: nat)
    requires EndInv(s, j, h, done) && Continues(h, h') && t in s.skipped.Values
    ensures Owed(s.recvNumber, j, h, done, i, n) && t == KeyOf(h', i, n)
  {
    var x :| x in s.skipped && s.skipped[x] == t;
    assert SlotOwed(s.recvNumber, j, h, done, x);
    i :| Owed(s.recvNumber, j, h, done, i, x.number) && x.key == Point(h.keys[i + 1]);
    n := x.number;
    assert Holds(s.skipped, h, i, x.number);
    ChainPrefix(h, h', i);
  }

  lemma KeyForm(h: Spine, i: nat, n: nat)
    requires i + 1 < |h.keys|
    ensures Iterate(Chain(h, i), n).ChainStart? || Iterate(Chain(h, i), n).NextChain?
  {
  }

  /** An exchange it can compute only with its own key. */
  lemma ExchangeInReach(s: State, j: nat, h: Spine, done: Ledger, h': Spine, owners: set<KeyId>)
    requires EndInv(s, j, h, done) && Continues(h, h') && Opened(j, h)
    ensures Derives(Secrets(s), h.keys[j], Dh(owners)) <==> h.keys[j] in owners
  {
    if Dh(owners) in Secrets(s) {
      var a, b := HeldForms(s, j, h, done, h', Dh(owners));
    }
  }

  /** Of all chain keys it holds those at the heads of its two current chains. */
  lemma ChainKeyHeld(s: State, j: nat, h: Spine, done: Ledger, h': Spine, i: nat, n: nat)
    requires EndInv(s, j, h, done) && Continues(h, h') && Opened(j, h) && i + 1 < |h'.keys|
    ensures Iterate(Chain(h', i), n) in Secrets(s)
       <==> (i + 1 == j && n == s.sendNumber) || (i + 2 == j && n == s.recvNumber)
  {
    var t := Iterate(Chain(h', i), n);
    KeyForm(h', i, n);
    if t in Secrets(s) {
      var a, b := HeldForms(s, j, h, done, h', t);
      if j >= 1 && t == Iterate(Chain(h', j - 1), s.sendNumber) {
        ChainKeysDistinct(h', i, n, j - 1, s.sendNumber);
      } else if j >= 2 && t == Iterate(Chain(h', j - 2), s.recvNumber) {
        ChainKeysDistinct(h', i, n, j - 2, s.recvNumber);
      }
    }
    if i + 1 == j || i + 2 == j {
      ChainPrefix(h, h', i);
    }
  }

  /** Of all message keys it holds those it owes. */
  lemma MessageKeyHeld(s: State, j: nat, h: Spine, done: Ledger, h': Spine, i: nat, n: nat)
    requires EndInv(s, j, h, done) && Continues(h, h') && Opened(j, h) && i + 1 < |h'.keys|
    ensures KeyOf(h', i, n) in Secrets(s) <==> Owed(s.recvNumber, j, h, done, i, n)
  {
    if KeyOf(h', i, n) in Secrets(s) {
      var a, b := HeldForms(s, j, h, done, h', KeyOf(h', i, n));
      KeyForm(h', i, n);
      if j >= 1 {
        KeyForm(h', j - 1, s.sendNumber);
      }
      if j >= 2 {
        KeyForm(h', j - 2, s.recvNumber);
      }
      ChainKeysDistinct(h', i, n, a, b);
    }
    if Owed(s.recvNumber, j, h, done, i, n) {
      assert Holds(s.skipped, h, i, n);
      ChainPrefix(h, h', i);
    }
  }

  /** Of the roots it can compute the present one; the one before only if that is a secret it can compute. */
  lemma RootInReach(s: State, j: nat, h: Spine, done: Ledger, h': Spine)
    requires EndInv(s, j, h, done) && Continues(h, h') && Opened(j, h)
    ensures Derives(Secrets(s), h.keys[j], Root(h'.secret, h'.keys, j))
    ensures j >= 1 ==>
              (Derives(Secrets(s), h.keys[j], Root(h'.secret, h'.keys, j - 1)) <==>
                 j == 1 && Derives(Secrets(s), h.keys[j], h'.secret))
  {
    RootPrefix(h.secret, h.keys, h'.keys, j);
    if j >= 2 {
      var root := Root(h'.secret, h'.keys, j - 1);
      RootDepthOf(h', j);
      RootDepthOf(h', j - 1);
      if root in Secrets(s) {
        var a, b := HeldForms(s, j, h, done, h', root);
      }
      ExchangeInReach(s, j, h, done, h', {h'.keys[j - 2], h'.keys[j - 1]});
    }
  }

  /** The chain keys an end at position `j` can compute: those of the chain onto its own key, and its current
      sending and receiving chain from where it stands on.  The initiator's first sending chain starts from the
      session secret, and so is as safe as that. */
  predicate ChainReach(s: State, j: nat, secretKnown: bool, i: nat, n: nat) {
    || i == j
    || (i + 1 == j && (n >= s.sendNumber || (j == 1 && secretKnown)))
    || (i + 2 == j && n >= s.recvNumber)
  }

  lemma {:induction false} ChainKeysInReach(s: State, j: nat, h: Spine, done: Ledger, h': Spine, i: nat, n: nat)
    requires EndInv(s, j, h, done) && Continues(h, h') && Opened(j, h) && i + 1 < |h'.keys|
    ensures Derives(Secrets(s), h.keys[j], Iterate(Chain(h', i), n))
       <==> ChainReach(s, j, Derives(Secrets(s), h.keys[j], h.secret), i, n)
    decreases n
  {
    ChainKeyHeld(s, j, h, done, h', i, n);
    if n > 0 {
      ChainKeysInReach(s, j, h, done, h', i, n - 1);
    } else {
      ExchangeInReach(s, j, h, done, h', {h'.keys[i], h'.keys[i + 1]});
      RootInReach(s, j, h, done, h');
    }
  }

  /** The message keys an end can compute: those, and the owed ones. */
  lemma MessageKeysInReach(s: State, j: nat, h: Spine, done: Ledger, h': Spine, i: nat, n: nat)
    requires EndInv(s, j, h, done) && Continues(h, h') && Opened(j, h) && i + 1 < |h'.keys|
    ensures Derives(Secrets(s), h.keys[j], KeyOf(h', i, n))
       <==> || ChainReach(s, j, Derives(Secrets(s), h.keys[j], h.secret), i, n)
            || Owed(s.recvNumber, j, h, done, i, n)
  {
    ChainKeysInReach(s, j, h, done, h', i, n);
    MessageKeyHeld(s, j, h, done, h', i, n);
  }

  /** In a world: chain keys in reach, and the packets gone past without decrypting them. */
  predicate InReach(w: World, p: Party, i: nat, n: nat)
    requires End(w, p).keypair.Some?
  {
    var s := End(w, p);
    || ChainReach(s, NodeOf(w, p).position, Derives(Secrets(s), s.keypair.value.secret, w.spine.secret), i, n)
    || (i < |w.net| && n < |w.net[i]| && ReceiverOf(i) == p && GonePast(w, p, i, n) && (i, n) !in w.done)
  }

  lemma OwedOnNetwork(w: World, p: Party, i: nat, n: nat)
    requires Placed(w.initiator.position, w.responder.position, |w.net|)
    requires WellFormed(w.spine) && NetOk(w.spine, w.ad, w.net)
    requires i + 2 == NodeOf(w, p).position <= |w.net| ==> End(w, p).recvNumber <= w.spine.lengths[i]
    ensures NodeOf(w, p).position <= |w.net|
    ensures Owed(End(w, p).recvNumber, NodeOf(w, p).position, w.spine, w.done, i, n)
       <==> i < |w.net| && n < |w.net[i]| && ReceiverOf(i) == p && GonePast(w, p, i, n) && (i, n) !in w.done
  {
    if ReceiverOf(i) == p {
      PlacedParity(w, i);
    } else if FromPeer(NodeOf(w, p).position, i) {
      PlacedReceiver(w, p, i);
    }
    PlacedBounds(w, p);
  }

  lemma KeysInReachAt(w: World, p: Party, h': Spine, i: nat, n: nat)
    requires Placed(w.initiator.position, w.responder.position, |w.net|)
    requires WellFormed(w.spine) && NetOk(w.spine, w.ad, w.net) && NodeInv(NodeOf(w, p), w.spine, w.done)
    requires Continues(w.spine, h') && Opened(NodeOf(w, p).position, w.spine) && i + 1 < |h'.keys|
    ensures var s := End(w, p);
            && s.keypair.Some?
            && (Derives(Secrets(s), s.keypair.value.secret, KeyOf(h', i, n)) <==> InReach(w, p, i, n))
  {
    OwedOnNetwork(w, p, i, n);
    MessageKeysInReach(End(w, p), NodeOf(w, p).position, w.spine, w.done, h', i, n);
  }

  lemma KeysInReachLater(w: World, p: Party, w': World, i: nat, n: nat)
    requires WorldInv(w) && Opened(NodeOf(w, p).position, w.spine)
    requires Later(w, w') && i + 1 < |w'.spine.keys|
    ensures var s := End(w, p);
            && s.keypair.Some?
            && (Derives(Secrets(s), s.keypair.value.secret, KeyOf(w'.spine, i, n)) <==> InReach(w, p, i, n))
  {
    assert NodeInv(NodeOf(w, p), w.spine, w.done);
    KeysInReachAt(w, p, w'.spine, i, n);
  }

  /** Everything an end holds, its present ratchet key included, gives exactly these message keys, of all that
      the session has used and will use in any further events. */
  lemma KeysInReach(w: World, p: Party, events: seq<Event>, i: nat, n: nat)
    requires WorldInv(w) && Opened(NodeOf(w, p).position, w.spine)
    requires i + 1 < |Run(w, events, |events|).spine.keys|
    ensures var s := End(w, p);
            && s.keypair.Some?
            && (InReach(w, p, i, n) <==>
                  Derives(Secrets(s), s.keypair.value.secret, KeyOf(Run(w, events, |events|).spine, i, n)))
  {
    RunLater(w, events, |events|);
    KeysInReachLater(w, p, Run(w, events, |events|), i, n);
  }

  /** Recovery: whoever takes everything an end holds cannot compute any key of a chain that starts after the
      end has made its next ratchet key. */
  lemma Recovery(w: World, p: Party, events: seq<Event>, i: nat, n: nat)
    requires WorldInv(w) && Opened(NodeOf(w, p).position, w.spine)
    requires NodeOf(w, p).position < i && i + 1 < |Run(w, events, |events|).spine.keys|
    ensures var s := End(w, p);
            && s.keypair.Some?
            && !Derives(Secrets(s), s.keypair.value.secret, KeyOf(Run(w, events, |events|).spine, i, n))
  {
    KeysInReach(w, p, events, i, n);
  }

  // ---- used keys are gone ----

  /** A decrypted message's key cannot be computed from anything its receiver still holds. */
  lemma ReceivedKeyGone(s: State, j: nat, h: Spine, done: Ledger, i: nat, n: nat)
    requires EndInv(s, j, h, done) && Distinct(h.keys) && FromPeer(j, i) && (i, n) in done
    ensures i + 1 < |h.keys| && !Derives(Secrets(s), h.keys[j], KeyOf(h, i, n))
  {
    MessageKeysInReach(s, j, h, done, h, i, n);
  }

  lemma KeyGone(w: World, i: nat, n: nat)
    requires WorldInv(w) && i < |w.net| && n < |w.net[i]| && (i, n) in w.done
    ensures var s := End(w, ReceiverOf(i));
            && s.keypair.Some? && w.net[i][n].body.Sealed?
            && !Derives(Secrets(s), s.keypair.value.secret, w.net[i][n].body.key)
  {
    var node := NodeOf(w, ReceiverOf(i));
    assert NodeInv(node, w.spine, w.done);
    PlacedParity(w, i);
    assert PacketOk(w.spine, w.ad, i, n, w.net[i][n]);
    ReceivedKeyGone(node.state, node.position, w.spine, w.done, i, n);
  }

  lemma KeyGoneLater(w: World, i: nat, n: nat, v: World)
    requires i < |w.net| && n < |w.net[i]| && (i, n) in w.done && Later(w, v)
    ensures var s := End(v, ReceiverOf(i));
            && s.keypair.Some? && w.net[i][n].body.Sealed?
            && !Derives(Secrets(s), s.keypair.value.secret, w.net[i][n].body.key)
  {
    assert w.net[i] <= v.net[i];
    KeyGone(v, i, n);
  }

  /** From the moment a message is decrypted, and after any further events, its key cannot be computed from
      anything its receiver holds. */
  lemma KeyDeletion(w: World, i: nat, n: nat, events: seq<Event>)
    requires WorldInv(w) && Legal(w, Deliver(i, n)) && DeliverOutcome(w, i, n).result.Success?
    ensures var s := End(Run(AfterDeliver(w, i, n), events, |events|), ReceiverOf(i));
            && s.keypair.Some? && w.net[i][n].body.Sealed?
            && !Derives(Secrets(s), s.keypair.value.secret, w.net[i][n].body.key)
  {
    DeliverCorrect(w, i, n);
    EventGrows(w, Deliver(i, n));
    var w' := AfterDeliver(w, i, n);
    assert w.net[i] <= w'.net[i];
    RunLater(w', events, |events|);
    KeyGoneLater(w', i, n, Run(w', events, |events|));
  }

  lemma SentKeyReach(s: State, j: nat, h: Spine, done: Ledger, i: nat, n: nat)
    requires EndInv(s, j, h, done) && Distinct(h.keys) && i + 1 <= j && !FromPeer(j, i) && n < h.lengths[i]
    ensures Derives(Secrets(s), h.keys[j], KeyOf(h, i, n)) <==> j == 1 && Derives(Secrets(s), h.keys[j], h.secret)
  {
    EvenSteps(i);
    MessageKeysInReach(s, j, h, done, h, i, n);
  }

  /** A message's key cannot be computed from anything its sender holds after sending it, except, on the
      initiator's first chain until its first ratchet step, from the session secret. */
  lemma SentKeyGone(w: World, i: nat, n: nat)
    requires WorldInv(w) && i < |w.net| && n < |w.net[i]|
    ensures var node := NodeOf(w, PeerOf(ReceiverOf(i))); var s := node.state;
            && s.keypair.Some? && w.net[i][n].body.Sealed?
            && (Derives(Secrets(s), s.keypair.value.secret, w.net[i][n].body.key) <==>
                  node.position == 1 && Derives(Secrets(s), s.keypair.value.secret, w.spine.secret))
  {
    var node := NodeOf(w, PeerOf(ReceiverOf(i)));
    assert NodeInv(node, w.spine, w.done);
    PlacedParity(w, i);
    assert PacketOk(w.spine, w.ad, i, n, w.net[i][n]);
    SentKeyReach(node.state, node.position, w.spine, w.done, i, n);
  }

  /** A session secret that no ratchet key helps to compute: an unrelated one, or the output of a handshake
      with an exchange that `own` has no part in. */
  ghost predicate Independent(secret: Term, own: KeyId) {
    || secret.Atom?
    || (secret.X3dhSecret? && exists p :: p in secret.parts && p.Dh? && own !in p.owners)
  }

  /** Such a secret is out of reach, even of the initiator on its first chain. */
  lemma SecretGone(s: State, h: Spine, done: Ledger)
    requires EndInv(s, 1, h, done) && Distinct(h.keys) && Independent(h.secret, h.keys[1])
    ensures !Derives(Secrets(s), h.keys[1], h.secret)
  {
    if h.secret in Secrets(s) {
      var a, b := HeldForms(s, 1, h, done, h, h.secret);
    }
    if h.secret.X3dhSecret? {
      var p :| p in h.secret.parts && p.Dh? && h.keys[1] !in p.owners;
      ExchangeInReach(s, 1, h, done, h, p.owners);
    }
  }

  /** So in a session that a handshake started a sent message's key is gone at once. */
  lemma SentKeyGoneIndependent(w: World, i: nat, n: nat)
    requires WorldInv(w) && i < |w.net| && n < |w.net[i]| && Independent(w.spine.secret, w.spine.keys[1])
    ensures var s := End(w, PeerOf(ReceiverOf(i)));
            && s.keypair.Some? && w.net[i][n].body.Sealed?
            && !Derives(Secrets(s), s.keypair.value.secret, w.net[i][n].body.key)
  {
    SentKeyGone(w, i, n);
    var node := NodeOf(w, PeerOf(ReceiverOf(i)));
    if node.position == 1 {
      assert NodeInv(node, w.spine, w.done);
      SecretGone(node.state, w.spine, w.done);
    }
  }
}
