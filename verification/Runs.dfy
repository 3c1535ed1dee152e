/** Every run of two ends over a network that may delay, reorder, drop and re-deliver. */
module Runs {
  import opened Crypto
  import opened DoubleRatchet
  import opened SessionBook
  import opened Session
  import opened Answers

  datatype Party = Initiator | Responder

  datatype Packet = Packet(header: Header, body: Ciphertext, plaintext: seq<byte>)

  /** One end, with its place in the history. */
  datatype Node = Node(state: State, position: nat)

  /** Both ends, what was sent on each chain (nothing is ever removed: the network may deliver any of it
      at any time), the key generator's next name, and the history kept for the statement only. */
  datatype World = World(
    initiator: Node,
    responder: Node,
    ad: seq<byte>,
    net: seq<seq<Packet>>,
    supply: nat,
    spine: Spine,
    done: Ledger)

  datatype Event =
    | Send(party: Party, plaintext: seq<byte>, nonce: nat)
    | Deliver(chain: nat, number: nat)

  function NodeOf(w: World, p: Party): Node {
    match p
    case Initiator => w.initiator
    case Responder => w.responder
  }

  function End(w: World, p: Party): State {
    NodeOf(w, p).state
  }

  function WithNode(w: World, p: Party, node: Node): World {
    match p
    case Initiator => w.(initiator := node)
    case Responder => w.(responder := node)
  }

  /** The initiator sends on the even chains. */
  function ReceiverOf(chain: nat): Party {
    if Even(chain) then Responder else Initiator
  }

  function PeerOf(p: Party): Party {
    if p.Initiator? then Responder else Initiator
  }

  /** The session X3DH starts: the responder's signed prekey is its first ratchet key. */
  function Opening(secret: Term, ad: seq<byte>, prekey: nat, supply: nat): World {
    World(Node(SenderState(secret, Point(Curve(prekey)), Curve(supply)).value, 1),
          Node(ReceiverState(secret, GenKeypair(Curve(prekey))), 0),
          ad, [[]], supply + 1, Spine(secret, [Curve(prekey), Curve(supply)], [0]), {})
  }

  /** A send that produced `packet` and left its end at `s`. */
  function WithSent(w: World, p: Party, s: State, packet: Packet): World
    requires |w.net| == |w.spine.lengths| && 1 <= NodeOf(w, p).position <= |w.net|
  {
    var c := NodeOf(w, p).position - 1;
    WithNode(w, p, Node(s, c + 1)).(
      net := w.net[c := w.net[c] + [packet]],
      spine := w.spine.(lengths := w.spine.lengths[c := Increment(w.spine.lengths[c])]))
  }

  function AfterSend(w: World, p: Party, plaintext: seq<byte>, nonce: nat): World {
    var o, j := Encrypted(End(w, p), plaintext, w.ad, nonce), NodeOf(w, p).position;
    if o.result.Success? && |w.net| == |w.spine.lengths| && 1 <= j <= |w.net| then
      WithSent(w, p, o.state, Packet(o.result.value.0, o.result.value.1, plaintext))
    else
      WithNode(w, p, Node(o.state, j))
  }

  /** A delivery of message `n` of chain `i` that left its end at `s`, accepted or not.  A new key pair
      there starts a new chain. */
  function WithDelivered(w: World, i: nat, n: nat, s: State, accepted: bool): World {
    var p := ReceiverOf(i);
    var w' := w.(supply := w.supply + 1, done := LedgerAfter(w.done, i, n, accepted));
    if s.keypair == End(w, p).keypair then WithNode(w', p, Node(s, NodeOf(w, p).position))
    else WithNode(w', p, Node(s, NodeOf(w, p).position + 2)).(
           spine := Extended(w.spine, Curve(w.supply)), net := w.net + [[]])
  }

  function LedgerAfter(done: Ledger, i: nat, n: nat, accepted: bool): Ledger {
    if accepted then done + {(i, n)} else done
  }

  function DeliverOutcome(w: World, i: nat, n: nat): Outcome<seq<byte>>
    requires i < |w.net| && n < |w.net[i]|
  {
    Decrypted(End(w, ReceiverOf(i)), w.net[i][n].header, w.net[i][n].body, w.ad, Curve(w.supply))
  }

  function AfterDeliver(w: World, i: nat, n: nat): World
    requires i < |w.net| && n < |w.net[i]|
  {
    var o := DeliverOutcome(w, i, n);
    WithDelivered(w, i, n, o.state, o.result.Success?)
  }

  ghost predicate PacketOk(h: Spine, ad: seq<byte>, i: nat, n: nat, p: Packet)
    requires WellFormed(h) && i < |h.lengths| && n < h.lengths[i]
  {
    p.header == HeaderOf(h, i, n) && p.body.Sealed? && p.body.key == KeyOf(h, i, n)
    && p.body.ad == ad && p.body.plaintext == p.plaintext
  }

  ghost predicate NetOk(h: Spine, ad: seq<byte>, net: seq<seq<Packet>>)
    requires WellFormed(h)
  {
    && |net| == |h.lengths|
    && (forall i :: 0 <= i < |net| ==> |net[i]| == h.lengths[i])
    && (forall i, n :: 0 <= i < |net| && 0 <= n < |net[i]| ==> PacketOk(h, ad, i, n, net[i][n]))
  }

  ghost predicate KeysBelow(keys: seq<KeyId>, supply: nat) {
    forall i :: 0 <= i < |keys| ==> keys[i].Curve? && keys[i].n < supply
  }

  ghost predicate SharedInv(h: Spine, supply: nat, ad: seq<byte>, net: seq<seq<Packet>>) {
    WellFormed(h) && Distinct(h.keys) && KeysBelow(h.keys, supply) && NetOk(h, ad, net)
  }

  ghost predicate NodeInv(node: Node, h: Spine, done: Ledger) {
    EndInv(node.state, node.position, h, done)
  }

  /** The ends are always at the last two positions, the initiator at the odd one. */
  predicate Placed(initiator: nat, responder: nat, chains: nat) {
    && FromPeer(initiator, 1) && FromPeer(responder, 0)
    && chains >= 1 && (initiator == chains || responder == chains) && initiator + responder == 2 * chains - 1
  }

  ghost predicate WorldInv(w: World) {
    && SharedInv(w.spine, w.supply, w.ad, w.net)
    && Placed(w.initiator.position, w.responder.position, |w.net|)
    && NodeInv(w.initiator, w.spine, w.done)
    && NodeInv(w.responder, w.spine, w.done)
  }

  /** Which events a run may contain: a counter must not be exhausted, and an already decrypted message may
      be delivered again only while its chain is still the receiver's current one. */
  predicate Legal(w: World, e: Event) {
    match e
    case Send(p, _, _) => End(w, p).sendNumber < U32_MAX
    case Deliver(i, n) =>
      i < |w.net| && n < |w.net[i]|
      && ((i, n) in w.done ==> End(w, ReceiverOf(i)).remoteKey == Some(w.net[i][n].header.ratchetKey))
  }

  function After(w: World, e: Event): World
    requires Legal(w, e)
  {
    match e
    case Send(p, plaintext, nonce) => AfterSend(w, p, plaintext, nonce)
    case Deliver(i, n) => AfterDeliver(w, i, n)
  }

  /** What the event must answer. */
  ghost predicate Correct(w: World, e: Event)
    requires Legal(w, e)
  {
    match e
    case Send(p, plaintext, nonce) =>
      Encrypted(End(w, p), plaintext, w.ad, nonce).result.Success? <==> End(w, p).sendingChain.Some?
    case Deliver(i, n) =>
      var o, s, packet := DeliverOutcome(w, i, n), End(w, ReceiverOf(i)), w.net[i][n];
      if (i, n) in w.done then
        o.result == Failure(AlreadyConsumed) && o.state == s && o.tried == []
      else
        o.result == if WithinGaps(s, packet.header) then Success(packet.plaintext) else Failure(TooManySkipped)
  }

  // ---- what an event leaves alone ----

  lemma FrameDone(s: State, j: nat, h: Spine, done: Ledger, i: nat, n: nat)
    requires EndInv(s, j, h, done) && !FromPeer(j, i)
    ensures EndInv(s, j, h, done + {(i, n)})
  {
    CacheTransfer(s.skipped, s.recvNumber, j, h, done, s.recvNumber, j, h, done + {(i, n)});
  }

  lemma FrameExtended(s: State, j: nat, h: Spine, done: Ledger, key: KeyId)
    requires EndInv(s, j, h, done)
    ensures EndInv(s, j, Extended(h, key), done)
  {
    var h' := Extended(h, key);
    RootPrefix(h.secret, h.keys, h'.keys, j);
    if j >= 1 {
      ChainPrefix(h, h', j - 1);
    }
    if j >= 2 {
      ChainPrefix(h, h', j - 2);
    }
    CacheTransfer(s.skipped, s.recvNumber, j, h, done, s.recvNumber, j, h', done);
  }

  function Lengthened(h: Spine, c: nat): Spine
    requires c < |h.lengths| && h.lengths[c] < U32_MAX
  {
    h.(lengths := h.lengths[c := h.lengths[c] + 1])
  }

  /** The peer of the end that sent on chain `c`. */
  lemma FrameSent(s: State, j: nat, h: Spine, done: Ledger, c: nat)
    requires EndInv(s, j, h, done) && c < |h.lengths| && h.lengths[c] < U32_MAX
    requires j == c || j == c + 2
    ensures EndInv(s, j, Lengthened(h, c), done)
  {
    CacheTransfer(s.skipped, s.recvNumber, j, h, done, s.recvNumber, j, Lengthened(h, c), done);
  }

  /** What an end at position `j` sends next. */
  lemma SendResult(s: State, j: nat, h: Spine, plaintext: seq<byte>, ad: seq<byte>, nonce: nat)
    requires WellFormed(h) && 1 <= j < |h.keys| && SendingOn(s, j - 1, h)
    requires s.keypair == Some(Keypair(Point(h.keys[j]), h.keys[j]))
    ensures var o, n := Encrypted(s, plaintext, ad, nonce), h.lengths[j - 1];
            o.result == Success((HeaderOf(h, j - 1, n), Sealed(nonce, KeyOf(h, j - 1, n), ad, plaintext)))
  {
  }

  lemma SendKeeps(s: State, j: nat, h: Spine, done: Ledger, plaintext: seq<byte>, ad: seq<byte>, nonce: nat)
    requires EndInv(s, j, h, done) && j >= 1 && h.lengths[j - 1] < U32_MAX
    ensures var o, n := Encrypted(s, plaintext, ad, nonce), h.lengths[j - 1];
            && o.result == Success((HeaderOf(h, j - 1, n), Sealed(nonce, KeyOf(h, j - 1, n), ad, plaintext)))
            && EndInv(o.state, j, Lengthened(h, j - 1), done)
  {
    CacheTransfer(s.skipped, s.recvNumber, j, h, done, s.recvNumber, j, Lengthened(h, j - 1), done);
  }

  lemma NetSent(h: Spine, ad: seq<byte>, net: seq<seq<Packet>>, c: nat, p: Packet)
    requires WellFormed(h) && NetOk(h, ad, net) && c < |h.lengths| <= c + 2 && h.lengths[c] < U32_MAX
    requires PacketOk(Lengthened(h, c), ad, c, h.lengths[c], p)
    ensures NetOk(Lengthened(h, c), ad, net[c := net[c] + [p]])
  {
    var h', net' := Lengthened(h, c), net[c := net[c] + [p]];
    forall i, n | 0 <= i < |net'| && 0 <= n < |net'[i]|
      ensures PacketOk(h', ad, i, n, net'[i][n])
    {
      if i != c || n < |net[c]| {
        assert PacketOk(h, ad, i, n, net[i][n]);
      }
    }
  }

  lemma NetExtended(h: Spine, ad: seq<byte>, net: seq<seq<Packet>>, key: KeyId)
    requires WellFormed(h) && NetOk(h, ad, net)
    ensures NetOk(Extended(h, key), ad, net + [[]])
  {
    var h', net' := Extended(h, key), net + [[]];
    forall i, n | 0 <= i < |net'| && 0 <= n < |net'[i]|
      ensures PacketOk(h', ad, i, n, net'[i][n])
    {
      assert PacketOk(h, ad, i, n, net[i][n]);
      ChainPrefix(h, h', i);
    }
  }

  // ---- each event keeps the invariant and answers correctly ----

  lemma OpeningInv(secret: Term, ad: seq<byte>, prekey: nat, supply: nat)
    requires prekey < supply
    ensures WorldInv(Opening(secret, ad, prekey, supply))
  {
    var w := Opening(secret, ad, prekey, supply);
    SharedPointAgreement(Curve(supply), Curve(prekey), Curve(prekey), Curve(supply));
    assert Root(secret, w.spine.keys, 0) == secret;
    assert Synchronised(w.initiator.state, 1, w.spine);
    assert Synchronised(w.responder.state, 0, w.spine);
  }

  lemma SentShared(w: World, c: nat, packet: Packet)
    requires SharedInv(w.spine, w.supply, w.ad, w.net) && c < |w.net| <= c + 2 && w.spine.lengths[c] < U32_MAX
    requires PacketOk(Lengthened(w.spine, c), w.ad, c, w.spine.lengths[c], packet)
    ensures SharedInv(Lengthened(w.spine, c), w.supply, w.ad, w.net[c := w.net[c] + [packet]])
  {
    NetSent(w.spine, w.ad, w.net, c, packet);
  }

  lemma PlacedBounds(w: World, p: Party)
    requires Placed(w.initiator.position, w.responder.position, |w.net|)
    ensures var j, k := NodeOf(w, p).position, NodeOf(w, PeerOf(p)).position;
            j <= |w.net| <= j + 1 && (k == j + 1 || j == k + 1)
  {
  }

  /** A receiver's position has the parity of the chains it receives, its peer's has not. */
  lemma PlacedParity(w: World, i: nat)
    requires Placed(w.initiator.position, w.responder.position, |w.net|)
    ensures FromPeer(NodeOf(w, ReceiverOf(i)).position, i) && !FromPeer(NodeOf(w, PeerOf(ReceiverOf(i))).position, i)
    ensures i < |w.net| ==> i + 1 <= NodeOf(w, PeerOf(ReceiverOf(i))).position
  {
  }

  lemma PlacedReceiver(w: World, p: Party, i: nat)
    requires Placed(w.initiator.position, w.responder.position, |w.net|) && FromPeer(NodeOf(w, p).position, i)
    ensures ReceiverOf(i) == p
  {
  }

  lemma SentNodes(w: World, p: Party, s: State, packet: Packet)
    requires |w.net| == |w.spine.lengths| && 1 <= NodeOf(w, p).position <= |w.net|
    requires var j, k := NodeOf(w, p).position, NodeOf(w, PeerOf(p)).position;
             && w.spine.lengths[j - 1] < U32_MAX && (k == j + 1 || j == k + 1)
             && EndInv(s, j, Lengthened(w.spine, j - 1), w.done) && NodeInv(NodeOf(w, PeerOf(p)), w.spine, w.done)
    ensures var w' := WithSent(w, p, s, packet);
            NodeInv(w'.initiator, w'.spine, w'.done) && NodeInv(w'.responder, w'.spine, w'.done)
  {
    var j, peer := NodeOf(w, p).position, NodeOf(w, PeerOf(p));
    FrameSent(peer.state, peer.position, w.spine, w.done, j - 1);
    assert WithSent(w, p, s, packet).spine == Lengthened(w.spine, j - 1);
  }

  /** A send moves neither end. */
  lemma SentFrame(w: World, p: Party, s: State, packet: Packet)
    requires |w.net| == |w.spine.lengths| && 1 <= NodeOf(w, p).position <= |w.net|
    requires w.spine.lengths[NodeOf(w, p).position - 1] < U32_MAX
    ensures var c, w' := NodeOf(w, p).position - 1, WithSent(w, p, s, packet);
            && w'.spine == Lengthened(w.spine, c) && w'.net == w.net[c := w.net[c] + [packet]]
            && w'.supply == w.supply && w'.ad == w.ad
            && w'.initiator.position == w.initiator.position && w'.responder.position == w.responder.position
  {
  }

  lemma SentKeeps(w: World, p: Party, s: State, packet: Packet)
    requires WorldInv(w) && NodeOf(w, p).position >= 1
    requires var j := NodeOf(w, p).position;
             && j - 1 < |w.spine.lengths| && w.spine.lengths[j - 1] < U32_MAX
             && EndInv(s, j, Lengthened(w.spine, j - 1), w.done)
             && PacketOk(Lengthened(w.spine, j - 1), w.ad, j - 1, w.spine.lengths[j - 1], packet)
    ensures |w.net| == |w.spine.lengths| && NodeOf(w, p).position <= |w.net|
    ensures WorldInv(WithSent(w, p, s, packet))
  {
    PlacedBounds(w, p);
    SentFrame(w, p, s, packet);
    SentNodes(w, p, s, packet);
    SentShared(w, NodeOf(w, p).position - 1, packet);
  }

  lemma NoChainYet(node: Node, h: Spine, done: Ledger)
    requires NodeInv(node, h, done)
    ensures node.state.sendingChain.None? <==> node.position == 0
  {
  }

  /** A send of an end that has no sending chain yet changes nothing. */
  lemma SendRefused(w: World, p: Party, plaintext: seq<byte>, nonce: nat)
    requires End(w, p).sendingChain.None?
    ensures AfterSend(w, p, plaintext, nonce) == w && Encrypted(End(w, p), plaintext, w.ad, nonce).result.Failure?
  {
  }

  /** A successful send appends its packet to the sender's chain. */
  lemma SendIsSent(w: World, p: Party, plaintext: seq<byte>, nonce: nat)
    requires |w.net| == |w.spine.lengths| && 1 <= NodeOf(w, p).position <= |w.net|
    requires Encrypted(End(w, p), plaintext, w.ad, nonce).result.Success?
    ensures var o := Encrypted(End(w, p), plaintext, w.ad, nonce);
            AfterSend(w, p, plaintext, nonce)
              == WithSent(w, p, o.state, Packet(o.result.value.0, o.result.value.1, plaintext))
  {
  }

  lemma SendAccepted(w: World, p: Party, plaintext: seq<byte>, nonce: nat)
    requires WorldInv(w) && NodeOf(w, p).position >= 1 && End(w, p).sendNumber < U32_MAX
    ensures End(w, p).sendingChain.Some? && Encrypted(End(w, p), plaintext, w.ad, nonce).result.Success?
    ensures WorldInv(AfterSend(w, p, plaintext, nonce))
  {
    var s, j := End(w, p), NodeOf(w, p).position;
    assert NodeInv(NodeOf(w, p), w.spine, w.done);
    SendKeeps(s, j, w.spine, w.done, plaintext, w.ad, nonce);
    var o := Encrypted(s, plaintext, w.ad, nonce);
    SentKeeps(w, p, o.state, Packet(o.result.value.0, o.result.value.1, plaintext));
    SendIsSent(w, p, plaintext, nonce);
  }

  lemma SendCorrect(w: World, p: Party, plaintext: seq<byte>, nonce: nat)
    requires WorldInv(w) && Legal(w, Send(p, plaintext, nonce))
    ensures WorldInv(AfterSend(w, p, plaintext, nonce)) && Correct(w, Send(p, plaintext, nonce))
  {
    NoChainYet(NodeOf(w, p), w.spine, w.done);
    if NodeOf(w, p).position == 0 {
      SendRefused(w, p, plaintext, nonce);
    } else {
      SendAccepted(w, p, plaintext, nonce);
    }
  }

  /** What a delivery of message `n` of chain `i` leaves at an end that was at position `j`. */
  ghost predicate Received(before: State, s: State, j: nat, h: Spine, done: Ledger, i: nat, key: KeyId) {
    if s.keypair == before.keypair then EndInv(s, j, h, done) else i == j && EndInv(s, j + 2, Extended(h, key), done)
  }

  /** One end receives one genuine packet: first, or again on its current chain. */
  lemma EndReceives(s: State, j: nat, h: Spine, done: Ledger, i: nat, n: u32, packet: Packet, ad: seq<byte>, key: KeyId)
    requires EndInv(s, j, h, done) && Distinct(h.keys) && j + 2 >= |h.keys| && key !in h.keys
    requires i < |h.lengths| && FromPeer(j, i) && n < h.lengths[i] && PacketOk(h, ad, i, n, packet)
    requires (i, n as nat) in done ==> s.remoteKey == Some(packet.header.ratchetKey)
    ensures var o := Decrypted(s, packet.header, packet.body, ad, key);
            && Received(s, o.state, j, h, LedgerAfter(done, i, n, o.result.Success?), i, key)
            && if (i, n as nat) in done then
                 o.result == Failure(AlreadyConsumed) && o.state == s && o.tried == []
               else
                 o.result == if WithinGaps(s, packet.header) then Success(packet.plaintext) else Failure(TooManySkipped)
  {
    if (i, n as nat) in done {
      assert i + 2 == j;
      ReceiveAgain(s, j, h, done, i, n, packet.body, ad, key);
    } else {
      ReceiveFirst(s, j, h, done, i, n, packet.body, ad, key);
    }
  }

  lemma DeliveredNodes(w: World, i: nat, n: nat, s: State, accepted: bool)
    requires var peer := NodeOf(w, PeerOf(ReceiverOf(i)));
             NodeInv(peer, w.spine, w.done) && !FromPeer(peer.position, i)
    requires Received(End(w, ReceiverOf(i)), s, NodeOf(w, ReceiverOf(i)).position, w.spine,
                      LedgerAfter(w.done, i, n, accepted), i, Curve(w.supply))
    ensures var w' := WithDelivered(w, i, n, s, accepted);
            NodeInv(w'.initiator, w'.spine, w'.done) && NodeInv(w'.responder, w'.spine, w'.done)
  {
    var peer := NodeOf(w, PeerOf(ReceiverOf(i)));
    FrameDelivered(peer.state, peer.position, w.spine, w.done, i, n, accepted, Curve(w.supply));
  }

  /** The peer of the end that receives message `n` of chain `i`. */
  lemma FrameDelivered(s: State, j: nat, h: Spine, done: Ledger, i: nat, n: nat, accepted: bool, key: KeyId)
    requires EndInv(s, j, h, done) && !FromPeer(j, i)
    ensures EndInv(s, j, h, LedgerAfter(done, i, n, accepted))
    ensures EndInv(s, j, Extended(h, key), LedgerAfter(done, i, n, accepted))
  {
    FrameDone(s, j, h, done, i, n);
    FrameExtended(s, j, h, LedgerAfter(done, i, n, accepted), key);
  }

  lemma DeliveredShared(w: World, i: nat, n: nat, s: State, accepted: bool)
    requires SharedInv(w.spine, w.supply, w.ad, w.net)
    ensures var w' := WithDelivered(w, i, n, s, accepted); SharedInv(w'.spine, w'.supply, w'.ad, w'.net)
  {
    if s.keypair != End(w, ReceiverOf(i)).keypair {
      NetExtended(w.spine, w.ad, w.net, Curve(w.supply));
      DistinctExtended(w.spine.keys, Curve(w.supply));
    }
  }

  lemma PlacedStep(initiator: nat, responder: nat, chains: nat)
    requires Placed(initiator, responder, chains)
    ensures initiator < chains ==> Placed(initiator + 2, responder, chains + 1)
    ensures responder < chains ==> Placed(initiator, responder + 2, chains + 1)
  {
  }

  /** Only the end that is behind can ratchet, and it then leads. */
  lemma DeliveredPlaced(w: World, i: nat, n: nat, s: State, accepted: bool)
    requires Placed(w.initiator.position, w.responder.position, |w.net|)
    requires s.keypair != End(w, ReceiverOf(i)).keypair ==> NodeOf(w, ReceiverOf(i)).position < |w.net|
    ensures var w' := WithDelivered(w, i, n, s, accepted);
            Placed(w'.initiator.position, w'.responder.position, |w'.net|)
  {
    PlacedStep(w.initiator.position, w.responder.position, |w.net|);
    DeliveredPositions(w, i, n, s, accepted);
  }

  lemma DeliveredPositions(w: World, i: nat, n: nat, s: State, accepted: bool)
    ensures var w', p := WithDelivered(w, i, n, s, accepted), ReceiverOf(i);
            var step := if s.keypair == End(w, p).keypair then 0 else 1;
            && |w'.net| == |w.net| + step && NodeOf(w', p).position == NodeOf(w, p).position + 2 * step
            && NodeOf(w', PeerOf(p)) == NodeOf(w, PeerOf(p))
  {
  }

  lemma DeliveredKeeps(w: World, i: nat, n: nat, s: State, accepted: bool)
    requires WorldInv(w) && i < |w.net|
    requires Received(End(w, ReceiverOf(i)), s, NodeOf(w, ReceiverOf(i)).position, w.spine,
                      LedgerAfter(w.done, i, n, accepted), i, Curve(w.supply))
    ensures WorldInv(WithDelivered(w, i, n, s, accepted))
  {
    PlacedParity(w, i);
    DeliveredNodes(w, i, n, s, accepted);
    DeliveredShared(w, i, n, s, accepted);
    DeliveredPlaced(w, i, n, s, accepted);
  }

  lemma DeliverCorrect(w: World, i: nat, n: nat)
    requires WorldInv(w) && Legal(w, Deliver(i, n))
    ensures WorldInv(AfterDeliver(w, i, n)) && Correct(w, Deliver(i, n))
  {
    var s, j, key := End(w, ReceiverOf(i)), NodeOf(w, ReceiverOf(i)).position, Curve(w.supply);
    PlacedParity(w, i);
    assert NodeInv(NodeOf(w, ReceiverOf(i)), w.spine, w.done);
    assert PacketOk(w.spine, w.ad, i, n, w.net[i][n]);
    EndReceives(s, j, w.spine, w.done, i, n, w.net[i][n], w.ad, key);
    var o := DeliverOutcome(w, i, n);
    DeliveredKeeps(w, i, n, o.state, o.result.Success?);
  }

  /** A genuine packet under other associated data is refused, and costs the receiver just what delivering it
      properly would have. */
  lemma WrongAdRefused(w: World, i: nat, n: nat, ad: seq<byte>)
    requires WorldInv(w) && i < |w.net| && n < |w.net[i]| && ad != w.ad
    ensures var o := Decrypted(End(w, ReceiverOf(i)), w.net[i][n].header, w.net[i][n].body, ad, Curve(w.supply));
            o.result.Failure? && o.state == DeliverOutcome(w, i, n).state
  {
    var s, packet := End(w, ReceiverOf(i)), w.net[i][n];
    assert PacketOk(w.spine, w.ad, i, n, packet);
    OtherAdRefused(s, packet.header, packet.body, ad, w.ad, Curve(w.supply));
  }

  /** A receiver's cache, seen from the network: a packet's slot is cached exactly when the receiver has gone
      past the packet without opening it, with the key that sealed it, and nothing else is cached. */
  lemma CacheOfNetwork(w: World, p: Party)
    requires WorldInv(w)
    ensures forall i, n :: 0 <= i < |w.net| && 0 <= n < |w.net[i]| && ReceiverOf(i) == p ==> PacketCached(w, p, i, n)
    ensures forall x :: x in End(w, p).skipped ==> SlotOnNetwork(w, p, x)
  {
    forall i, n | 0 <= i < |w.net| && 0 <= n < |w.net[i]| && ReceiverOf(i) == p
      ensures PacketCached(w, p, i, n)
    {
      CacheOfPacket(w, p, i, n);
    }
    forall x | x in End(w, p).skipped
      ensures SlotOnNetwork(w, p, x)
    {
      CacheOfSlot(w, p, x);
    }
  }

  lemma CacheOfPacket(w: World, p: Party, i: nat, n: nat)
    requires WorldInv(w) && i < |w.net| && n < |w.net[i]| && ReceiverOf(i) == p
    ensures PacketCached(w, p, i, n)
  {
    PlacedParity(w, i);
    assert NodeInv(NodeOf(w, p), w.spine, w.done);
    assert PacketOk(w.spine, w.ad, i, n, w.net[i][n]);
    PacketCachedAt(End(w, p), NodeOf(w, p).position, w.spine, w.done, i, n);
    CachedFromSlot(w, p, i, n);
  }

  lemma CachedFromSlot(w: World, p: Party, i: nat, n: u32)
    requires i < |w.net| && n < |w.net[i]| && i + 1 < |w.spine.keys| && w.net[i][n].body.Sealed?
    requires SlotOfPacket(w.net[i][n]) == SlotOf(w.spine, i, n)
    requires var x, cache := SlotOf(w.spine, i, n), End(w, p).skipped;
             && (x in cache <==> GonePast(w, p, i, n) && (i, n as nat) !in w.done)
             && (x in cache ==> cache[x] == w.net[i][n].body.key)
    ensures PacketCached(w, p, i, n)
  {
  }

  lemma CacheOfSlot(w: World, p: Party, x: Slot)
    requires WorldInv(w) && x in End(w, p).skipped
    ensures SlotOnNetwork(w, p, x)
  {
    assert NodeInv(NodeOf(w, p), w.spine, w.done);
    var i := SlotSource(End(w, p), NodeOf(w, p).position, w.spine, w.done, x);
    assert PacketOk(w.spine, w.ad, i, x.number, w.net[i][x.number]);
    PlacedReceiver(w, p, i);
  }

  lemma SlotSource(s: State, j: nat, h: Spine, done: Ledger, x: Slot) returns (i: nat)
    requires EndInv(s, j, h, done) && x in s.skipped
    ensures i < |h.lengths| && FromPeer(j, i) && x.number < h.lengths[i] && x == SlotOf(h, i, x.number)
  {
    assert SlotOwed(s.recvNumber, j, h, done, x);
    i :| Owed(s.recvNumber, j, h, done, i, x.number) && x.key == Point(h.keys[i + 1]);
  }

  function SlotOfPacket(p: Packet): Slot {
    Slot(p.header.ratchetKey, p.header.messageNumber)
  }

  /** It is the slot of a packet sent to that end. */
  ghost predicate SlotOnNetwork(w: World, p: Party, x: Slot) {
    exists i, n :: 0 <= i < |w.net| && 0 <= n < |w.net[i]| && ReceiverOf(i) == p && SlotOfPacket(w.net[i][n]) == x
  }

  /** The receiver has entered chain `i`, and left it or read beyond message `n`. */
  predicate GonePast(w: World, p: Party, i: nat, n: nat) {
    i + 2 < NodeOf(w, p).position || (i + 2 == NodeOf(w, p).position && n < End(w, p).recvNumber)
  }

  predicate PacketCached(w: World, p: Party, i: nat, n: nat)
    requires i < |w.net| && n < |w.net[i]|
  {
    var packet, cache := w.net[i][n], End(w, p).skipped;
    && (SlotOfPacket(packet) in cache <==> GonePast(w, p, i, n) && (i, n) !in w.done)
    && (SlotOfPacket(packet) in cache ==> packet.body.Sealed? && cache[SlotOfPacket(packet)] == packet.body.key)
  }

  lemma PacketCachedAt(s: State, j: nat, h: Spine, done: Ledger, i: nat, n: u32)
    requires EndInv(s, j, h, done) && Distinct(h.keys) && i < |h.lengths| && FromPeer(j, i) && n < h.lengths[i]
    ensures SlotOf(h, i, n) in s.skipped <==>
              (i + 2 < j || (i + 2 == j && n < s.recvNumber)) && (i, n as nat) !in done
    ensures SlotOf(h, i, n) in s.skipped ==> s.skipped[SlotOf(h, i, n)] == KeyOf(h, i, n)
  {
    SlotCached(s.skipped, s.recvNumber, j, h, done, i, n);
    if Owed(s.recvNumber, j, h, done, i, n) {
      assert Holds(s.skipped, h, i, n);
    }
  }

  // ---- runs ----

  /** An event that is not legal is skipped. */
  function Step(w: World, e: Event): World {
    if Legal(w, e) then After(w, e) else w
  }

  /** The world after the first `k` events. */
  function Run(w: World, events: seq<Event>, k: nat): World
    requires k <= |events|
  {
    if k == 0 then w else Step(Run(w, events, k - 1), events[k - 1])
  }

  ghost predicate LegalRun(w: World, events: seq<Event>) {
    forall k :: 0 <= k < |events| ==> Legal(Run(w, events, k), events[k])
  }

  lemma EventCorrect(w: World, e: Event)
    requires WorldInv(w) && Legal(w, e)
    ensures WorldInv(After(w, e)) && Correct(w, e)
  {
    match e
    case Send(p, plaintext, nonce) => SendCorrect(w, p, plaintext, nonce);
    case Deliver(i, n) => DeliverCorrect(w, i, n);
  }

  lemma StepInv(w: World, e: Event, w': World)
    requires WorldInv(w) && w' == Step(w, e)
    ensures WorldInv(w')
  {
    if Legal(w, e) {
      EventCorrect(w, e);
    }
  }

  lemma {:induction false} RunInv(w: World, events: seq<Event>, k: nat)
    requires WorldInv(w) && k <= |events|
    ensures WorldInv(Run(w, events, k))
  {
    for i := 0 to k
      invariant WorldInv(Run(w, events, i))
    {
      StepInv(Run(w, events, i), events[i], Run(w, events, i + 1));
    }
  }

  /** Every event of every legal run answers correctly. */
  lemma RunCorrect(w: World, events: seq<Event>)
    requires WorldInv(w) && LegalRun(w, events)
    ensures forall k :: 0 <= k < |events| ==> Correct(Run(w, events, k), events[k])
  {
    forall k | 0 <= k < |events|
      ensures Correct(Run(w, events, k), events[k])
    {
      RunInv(w, events, k);
      EventCorrect(Run(w, events, k), events[k]);
    }
  }

  /** The run theorem, from the two initial states. */
  lemma SessionCorrect(secret: Term, ad: seq<byte>, prekey: nat, supply: nat, events: seq<Event>)
    requires prekey < supply && LegalRun(Opening(secret, ad, prekey, supply), events)
    ensures forall k :: 0 <= k < |events| ==> Correct(Run(Opening(secret, ad, prekey, supply), events, k), events[k])
  {
    OpeningInv(secret, ad, prekey, supply);
    RunCorrect(Opening(secret, ad, prekey, supply), events);
  }

  // ---- the objects ----

  /** Sending from a session object keeps it in step with the run. */
  method SendFrom(end: RatchetState, plaintext: seq<byte>, ad: seq<byte>, nonce: nat, ghost w: World, ghost p: Party)
    returns (r: Result<(Header, Ciphertext)>)
    requires WorldInv(w) && Legal(w, Send(p, plaintext, nonce)) && end.View() == End(w, p) && ad == w.ad
    modifies end
    ensures var w' := AfterSend(w, p, plaintext, nonce); WorldInv(w') && end.View() == End(w', p)
    ensures r.Success? <==> old(end.sendingChainKey).Some?
    ensures r == Encrypted(old(end.View()), plaintext, ad, nonce).result
  {
    SendCorrect(w, p, plaintext, nonce);
    r := end.Encrypt(plaintext, ad, nonce);
  }

  /** A delivery to a session object answers the plaintext, unless a gap is too wide, or refuses a repeat without
      any change, and keeps the object in step with the run. */
  method DeliverTo(end: RatchetState, packet: Packet, ad: seq<byte>, generated: KeyId,
                   ghost w: World, ghost i: nat, ghost n: nat)
    returns (r: Result<seq<byte>>)
    requires WorldInv(w) && Legal(w, Deliver(i, n))
    requires end.View() == End(w, ReceiverOf(i)) && packet == w.net[i][n] && ad == w.ad && generated == Curve(w.supply)
    modifies end
    ensures var w' := AfterDeliver(w, i, n); WorldInv(w') && end.View() == End(w', ReceiverOf(i))
    ensures if (i, n) in w.done then
              r == Failure(AlreadyConsumed) && end.View() == old(end.View())
            else
              r == if old(WithinGaps(end.View(), packet.header)) then Success(packet.plaintext)
                   else Failure(TooManySkipped)
  {
    DeliverCorrect(w, i, n);
    r := end.Decrypt(packet.header, packet.body, ad, generated);
  }
}
