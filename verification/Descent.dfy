/** Sessions with different secrets have nothing in common: under arbitrary calls every key that an end seals or opens
    with descends from its own session secret. */
module Descent {
  import opened Crypto
  import opened DoubleRatchet
  import opened AtMostOnce

  /** What a term of the ratchet was derived from: the innermost root. */
  function Source(t: Term): Term {
    match t
    case NextRoot(root, _) => Source(root)
    case ChainStart(root, _) => Source(root)
    case NextChain(chain) => Source(chain)
    case MessageKey(chain) => Source(chain)
    case _ => t
  }

  lemma {:induction false} IterateSource(chain: Term, n: nat)
    ensures Source(Iterate(chain, n)) == Source(chain)
  {
    if n > 0 {
      IterateSource(chain, n - 1);
    }
  }

  ghost predicate Descends(s: State, source: Term) {
    && Source(s.rootKey) == source
    && (s.sendingChain.Some? ==> Source(s.sendingChain.value) == source)
    && (s.receivingChain.Some? ==> Source(s.receivingChain.value) == source)
    && (forall x :: x in s.skipped ==> Source(s.skipped[x]) == source)
  }

  lemma SkipDescends(s: State, source: Term, until: u32)
    requires Descends(s, source) && s.receivingChain.Some? && s.remoteKey.Some? && s.recvNumber <= until
    ensures Descends(SkippedTo(s, until), source)
  {
    var chain := s.receivingChain.value;
    IterateSource(chain, until - s.recvNumber);
    forall x | x in SkippedTo(s, until).skipped
      ensures Source(SkippedTo(s, until).skipped[x]) == source
    {
      KeysBetweenAt(s.remoteKey.value, chain, s.recvNumber, until, x);
      if s.recvNumber <= x.number {
        IterateSource(chain, x.number - s.recvNumber);
      }
    }
  }

  lemma RatchetDescends(s: State, source: Term, theirs: PublicKey, generated: KeyId)
    requires Descends(s, source)
    ensures Descends(Ratcheted(s, theirs, generated).state, source)
  {
  }

  lemma CloseDescends(s: State, source: Term, until: u32)
    requires Descends(s, source)
    ensures Descends(ChainClosed(s, until).state, source)
  {
    if ChainClosed(s, until).state != s {
      SkipDescends(s, source, until);
    }
  }

  lemma EnterDescends(s: State, source: Term, header: Header, generated: KeyId)
    requires Descends(s, source)
    ensures Descends(Entered(s, header, generated).state, source)
  {
    CloseDescends(s, source, header.previousChainLength);
    RatchetDescends(ChainClosed(s, header.previousChainLength).state, source, header.ratchetKey, generated);
  }

  lemma AdvanceDescends(s: State, source: Term, number: u32, body: Ciphertext, ad: seq<byte>)
    requires Descends(s, source)
    ensures var o := Advanced(s, number, body, ad);
            Descends(o.state, source) && forall k :: k in o.tried ==> Source(k) == source
  {
    if SkippedAhead(s, number).result.Success? {
      SkipDescends(s, source, number);
    }
  }

  lemma CallDescends(s: State, source: Term, c: Call)
    requires Descends(s, source)
    ensures Descends(StateAfter(s, c), source)
    ensures forall k :: k in TriedBy(s, c) ==> Source(k) == source
    ensures forall body :: body in SealedBy(s, c) ==> body.Sealed? && Source(body.key) == source
  {
    if c.DecryptCall? && Slot(c.header.ratchetKey, c.header.messageNumber) !in s.skipped {
      EnterDescends(s, source, c.header, c.generated);
      var entered := Entered(s, c.header, c.generated);
      if entered.result.Success? {
        AdvanceDescends(entered.state, source, c.header.messageNumber, c.body, c.ad);
      }
    }
  }

  lemma {:induction false} RunDescends(s: State, source: Term, calls: seq<Call>)
    requires Descends(s, source)
    ensures forall body :: body in Accepted(s, calls) ==> body.Sealed? && Source(body.key) == source
    ensures forall body :: body in Sent(s, calls) ==> body.Sealed? && Source(body.key) == source
    decreases calls
  {
    if calls != [] {
      CallDescends(s, source, calls[0]);
      AcceptedWasTried(s, calls[0]);
      RunDescends(StateAfter(s, calls[0]), source, calls[1..]);
    }
  }

  /** Whatever an end is given, what it accepts and what it sends is sealed with keys from its own secret. */
  lemma KeysDescend(s: State, secret: Term, calls: seq<Call>)
    requires StartedFrom(s, secret)
    ensures forall body :: body in Accepted(s, calls) || body in Sent(s, calls) ==>
              body.Sealed? && Source(body.key) == Source(secret)
  {
    RunDescends(s, Source(secret), calls);
  }

  /** So two ends whose secrets are not derived from one another's accept nothing of each other. */
  lemma SessionsApart(s: State, secret: Term, calls: seq<Call>, s': State, secret': Term, calls': seq<Call>)
    requires StartedFrom(s, secret) && StartedFrom(s', secret') && Source(secret) != Source(secret')
    ensures forall body :: body in Sent(s, calls) ==> body !in Accepted(s', calls')
    ensures forall body :: body in Sent(s', calls') ==> body !in Accepted(s, calls)
  {
    KeysDescend(s, secret, calls);
    KeysDescend(s', secret', calls');
  }
}
