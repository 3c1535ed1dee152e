/** Saving a ratchet state to bytes and restoring it. */
module Persistence {
  import opened Crypto
  import opened DoubleRatchet
  import opened AtMostOnce

  datatype Entry = Entry(key: PublicKey, number: u32, messageKey: Term)

  /** The serialised form: the key pair as two options, the cache as a list in no particular order. */
  datatype Record = Record(
    rootKey: Term,
    sendingChainKey: Option<Term>,
    receivingChainKey: Option<Term>,
    sendingPublicKey: Option<PublicKey>,
    sendingSecretKey: Option<KeyId>,
    remoteRatchetKey: Option<PublicKey>,
    sendMessageNumber: u32,
    recvMessageNumber: u32,
    previousChainLength: u32,
    skippedKeys: seq<Entry>)

  /** The map that inserting the entries in order builds. */
  function Inserted(entries: seq<Entry>): map<Slot, Term> {
    if entries == [] then map[]
    else
      var last := entries[|entries| - 1];
      Inserted(entries[..|entries| - 1])[Slot(last.key, last.number) := last.messageKey]
  }

  function Restored(r: Record): State {
    State(r.rootKey, r.sendingChainKey, r.receivingChainKey,
          match (r.sendingPublicKey, r.sendingSecretKey) {
            case (Some(pk), Some(sk)) => Some(Keypair(pk, sk))
            case _ => None
          },
          r.remoteRatchetKey, r.sendMessageNumber, r.recvMessageNumber, r.previousChainLength, Inserted(r.skippedKeys))
  }

  /** The entries list the map, in some order. */
  ghost predicate Lists(entries: seq<Entry>, m: map<Slot, Term>) {
    && (forall i :: 0 <= i < |entries| ==>
          Slot(entries[i].key, entries[i].number) in m
          && m[Slot(entries[i].key, entries[i].number)] == entries[i].messageKey)
    && (forall x :: x in m ==> Entry(x.key, x.number, m[x]) in entries)
  }

  /** `r` is a record of `s`, whatever order the cache was iterated in. */
  ghost predicate RecordOf(r: Record, s: State) {
    && r.rootKey == s.rootKey && r.sendingChainKey == s.sendingChain && r.receivingChainKey == s.receivingChain
    && r.sendingPublicKey == (if s.keypair.Some? then Some(s.keypair.value.public) else None)
    && r.sendingSecretKey == (if s.keypair.Some? then Some(s.keypair.value.secret) else None)
    && r.remoteRatchetKey == s.remoteKey
    && r.sendMessageNumber == s.sendNumber && r.recvMessageNumber == s.recvNumber
    && r.previousChainLength == s.previousLength
    && Lists(r.skippedKeys, s.skipped)
  }

  lemma {:induction false} InsertedSound(entries: seq<Entry>, m: map<Slot, Term>)
    requires forall i :: 0 <= i < |entries| ==>
               Slot(entries[i].key, entries[i].number) in m
               && m[Slot(entries[i].key, entries[i].number)] == entries[i].messageKey
    ensures forall x :: x in Inserted(entries) ==> x in m && Inserted(entries)[x] == m[x]
    ensures forall i :: 0 <= i < |entries| ==> Slot(entries[i].key, entries[i].number) in Inserted(entries)
  {
    if entries != [] {
      InsertedSound(entries[..|entries| - 1], m);
    }
  }

  /** Of entries for one slot the last one counts. */
  lemma {:induction false} InsertedLast(entries: seq<Entry>, x: Slot)
    ensures x in Inserted(entries) <==> exists i: nat :: LastFor(entries, x, i)
    ensures forall i: nat :: LastFor(entries, x, i) ==> Inserted(entries)[x] == entries[i].messageKey
  {
    if entries != [] {
      var k := |entries| - 1;
      InsertedLast(entries[..k], x);
      if Slot(entries[k].key, entries[k].number) == x {
        assert LastFor(entries, x, k);
        assert forall i: nat :: LastFor(entries, x, i) ==> i == k;
      } else {
        forall i: nat
          ensures LastFor(entries, x, i) <==> LastFor(entries[..k], x, i)
        {
        }
      }
    }
  }

  predicate LastFor(entries: seq<Entry>, x: Slot, i: nat) {
    && i < |entries| && Slot(entries[i].key, entries[i].number) == x
    && forall k :: i < k < |entries| ==> Slot(entries[k].key, entries[k].number) != x
  }

  /** Any record is restored: half a key pair is none. */
  lemma RestoredExact(r: Record)
    ensures Restored(r).keypair.Some? <==> r.sendingPublicKey.Some? && r.sendingSecretKey.Some?
    ensures forall x, i: nat :: LastFor(r.skippedKeys, x, i) ==>
              x in Restored(r).skipped && Restored(r).skipped[x] == r.skippedKeys[i].messageKey
    ensures forall x :: x in Restored(r).skipped ==> exists i: nat :: LastFor(r.skippedKeys, x, i)
  {
    forall x: Slot
      ensures x in Inserted(r.skippedKeys) <==> exists i: nat :: LastFor(r.skippedKeys, x, i)
      ensures forall i: nat :: LastFor(r.skippedKeys, x, i) ==>
                Inserted(r.skippedKeys)[x] == r.skippedKeys[i].messageKey
    {
      InsertedLast(r.skippedKeys, x);
    }
  }

  /** Restoring a record gives back the state, for every order of the cache. */
  lemma RestoreRecord(r: Record, s: State)
    requires RecordOf(r, s)
    ensures Restored(r) == s
  {
    InsertedSound(r.skippedKeys, s.skipped);
    forall x | x in s.skipped
      ensures x in Inserted(r.skippedKeys)
    {
      var i :| 0 <= i < |r.skippedKeys| && r.skippedKeys[i] == Entry(x.key, x.number, s.skipped[x]);
      assert Slot(r.skippedKeys[i].key, r.skippedKeys[i].number) == x;
    }
    assert Inserted(r.skippedKeys).Keys == s.skipped.Keys;
    assert Inserted(r.skippedKeys) == s.skipped;
  }

  /** `to_bytes` up to the JSON encoder.  The cache is visited in an arbitrary order. */
  method ToRecord(state: RatchetState) returns (r: Record)
    ensures RecordOf(r, state.View())
  {
    var cache := state.skippedKeys;
    var entries: seq<Entry> := [];
    var left := cache.Keys;
    while left != {}
      invariant left <= cache.Keys
      invariant forall i :: 0 <= i < |entries| ==>
                  Slot(entries[i].key, entries[i].number) in cache
                  && cache[Slot(entries[i].key, entries[i].number)] == entries[i].messageKey
      invariant forall x :: x in cache && x !in left ==> Entry(x.key, x.number, cache[x]) in entries
      decreases left
    {
      var x :| x in left;
      entries := entries + [Entry(x.key, x.number, cache[x])];
      left := left - {x};
    }
    var pair := state.sendingKeypair;
    r := Record(state.rootKey, state.sendingChainKey, state.receivingChainKey,
                if pair.Some? then Some(pair.value.public) else None,
                if pair.Some? then Some(pair.value.secret) else None,
                state.remoteRatchetKey, state.sendMessageNumber, state.recvMessageNumber,
                state.previousChainLength, entries);
  }

  /** `from_bytes` after the JSON decoder. */
  method FromRecord(r: Record) returns (state: RatchetState)
    ensures fresh(state) && state.View() == Restored(r)
  {
    var pair: Option<Keypair> := None;
    if r.sendingPublicKey.Some? && r.sendingSecretKey.Some? {
      pair := Some(Keypair(r.sendingPublicKey.value, r.sendingSecretKey.value));
    }
    var skipped: map<Slot, Term> := map[];
    for i := 0 to |r.skippedKeys|
      invariant skipped == Inserted(r.skippedKeys[..i])
    {
      var e := r.skippedKeys[i];
      skipped := skipped[Slot(e.key, e.number) := e.messageKey];
      assert r.skippedKeys[..i + 1][..i] == r.skippedKeys[..i];
    }
    assert r.skippedKeys[..|r.skippedKeys|] == r.skippedKeys;
    state := new RatchetState(
      State(r.rootKey, r.sendingChainKey, r.receivingChainKey, pair, r.remoteRatchetKey,
            r.sendMessageNumber, r.recvMessageNumber, r.previousChainLength, skipped));
  }

  /** Saving and restoring an object, through any codec that decodes what it encodes. */
  method SaveAndRestore(state: RatchetState, encode: Record -> seq<byte>, decode: seq<byte> -> Option<Record>)
    returns (again: Option<RatchetState>)
    requires forall r :: decode(encode(r)) == Some(r)
    ensures again.Some? && fresh(again.value) && again.value.View() == state.View()
  {
    var r := ToRecord(state);
    RestoreRecord(r, state.View());
    var decoded := decode(encode(r));
    var restored := FromRecord(decoded.value);
    again := Some(restored);
  }

  // ---- saving between any two calls ----

  datatype Step = Do(call: Call) | Save(bytes: seq<byte>)

  datatype Answer = Encrypting(sent: Result<(Header, Ciphertext)>) | Decrypting(received: Result<seq<byte>>)

  function AnswerTo(s: State, c: Call): Answer {
    match c
    case EncryptCall(plaintext, ad, nonce) => Encrypting(Encrypted(s, plaintext, ad, nonce).result)
    case DecryptCall(header, body, ad, generated) => Decrypting(Decrypted(s, header, body, ad, generated).result)
  }

  /** The saved bytes are an encoding of the state at that moment. */
  ghost predicate SavesWhatItHas(s: State, steps: seq<Step>, encode: Record -> seq<byte>,
                                 decode: seq<byte> -> Option<Record>)
    decreases |steps|
  {
    steps == [] ||
    match steps[0]
    case Do(c) => SavesWhatItHas(StateAfter(s, c), steps[1..], encode, decode)
    case Save(bytes) =>
      (exists r :: RecordOf(r, s) && bytes == encode(r))
      && decode(bytes).Some? && SavesWhatItHas(Restored(decode(bytes).value), steps[1..], encode, decode)
  }

  /** The answers of a run that goes on from the restored state after every save. */
  function AnswersWithSaves(s: State, steps: seq<Step>, decode: seq<byte> -> Option<Record>): seq<Answer>
    decreases |steps|
  {
    if steps == [] then [] else
    match steps[0]
    case Do(c) => [AnswerTo(s, c)] + AnswersWithSaves(StateAfter(s, c), steps[1..], decode)
    case Save(bytes) =>
      if decode(bytes).None? then [] else AnswersWithSaves(Restored(decode(bytes).value), steps[1..], decode)
  }

  function AnswersWithout(s: State, steps: seq<Step>): seq<Answer>
    decreases |steps|
  {
    if steps == [] then [] else
    match steps[0]
    case Do(c) => [AnswerTo(s, c)] + AnswersWithout(StateAfter(s, c), steps[1..])
    case Save(_) => AnswersWithout(s, steps[1..])
  }

  lemma {:induction false} SavesAreInvisible(s: State, steps: seq<Step>, encode: Record -> seq<byte>,
                                             decode: seq<byte> -> Option<Record>)
    requires forall r :: decode(encode(r)) == Some(r)
    requires SavesWhatItHas(s, steps, encode, decode)
    ensures AnswersWithSaves(s, steps, decode) == AnswersWithout(s, steps)
    decreases |steps|
  {
    if steps != [] {
      match steps[0]
      case Do(c) => SavesAreInvisible(StateAfter(s, c), steps[1..], encode, decode);
      case Save(bytes) =>
        var r :| RecordOf(r, s) && bytes == encode(r);
        RestoreRecord(r, s);
        SavesAreInvisible(s, steps[1..], encode, decode);
    }
  }
}
