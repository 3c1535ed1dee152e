# Verification of the vaultex-crypto session layer

A Dafny 4.11 model of how `vaultex-crypto` keeps a Double Ratchet session, of the X3DH handshake that starts it,
and of the encodings around it (padding, payloads, safety numbers, signed requests), with proofs of what they
promise. `dafny verify dfyconfig.toml` checks everything.

## How it is modelled

* **Cryptography is symbolic** (`Crypto.dfy`). A secret is a term that says how it was computed; two secrets are
  equal exactly when they were computed the same way. That is the usual idealisation: HKDF, HMAC and SHA-256 have no
  collisions and cannot be inverted. A Diffie-Hellman result is the unordered pair of the keys it came from, so
  agreement is a theorem. AEAD opening succeeds for the sealing key and associated data only. A public key may be a
  low-order point, on which scalar multiplication fails.
* **The session is an object** (`DoubleRatchet.dfy`). `RatchetState` has the fields of the original, its methods
  update them in place with the original's branches, order of checks and partial updates on failure, and each is
  proved against a function on the abstract state. Two ghost fields record the message keys tried and the chain KDF
  calls made. Counters are u32 and wrap, as in a release build.
* **The run theorem** (`SessionBook.dfy`, `Session.dfy`, `Runs.dfy`). A world is two ends and everything ever sent;
  the network may deliver any packet at any time, any number of times, or never. `Legal` says which events a run may
  hold: a message counter is not exhausted (at most 2^32 - 1 messages per chain), and an already decrypted packet is
  delivered again only while its chain is the receiver's current one. Everything else is unrestricted, including
  gaps wider than `MAX_SKIP`. The invariant keeps one shared history: the alternating ratchet keys, the length of
  each chain, and what was decrypted.
* **Consequences** (`Secrecy.dfy`, `OrderIndependence.dfy`): message keys never repeat; which of them, past and
  future, can be computed from everything one end holds is known exactly (forward secrecy and recovery after a
  compromise both follow); and delivery order inside a chain does not matter.
* **Arbitrary input** (`Answers.dfy`, `AtMostOnce.dfy`, `Descent.dfy`, `ResourceBound.dfy`): one end alone, given any
  headers, ciphertexts and associated data: what it answers, in terms of the fields it finds, and what that costs.
* **Where the run theorem stops** (`Replay.dfy`): exactly which calls leave the receiver as it was, which headers,
  replayed or forged, make it lose its session, what it still opens after that, and what a wrapped counter does
  (`CounterWraps`).
* Randomness, generated keys and the JSON codec are parameters; the codec law (decoding inverts encoding) is a
  precondition where it is used (`JsonText.dfy` shows that it can be met by every unambiguous escaping of strings), and so is the fact that hex digits are written unescaped.

## Findings

* `decrypt` rolls nothing back: it leaves the state as it was exactly when one of its first checks fails
  (`UnchangedExactly`), whether or not the ciphertext opens. So a packet of a chain the receiver has left, delivered
  again after it was decrypted, is taken for a new ratchet key. It is refused, but unless its header's closing gap is
  refused first the root key moves on and the end is lost to its peer (`ReplayExact`, `ReplayExample`,
  `LostRefuses`). A forged header on any new point does the same (`ForgedHeaderLoses`). On the current chain a repeat
  changes nothing. The changelog speaks of replay protection without this distinction. A header on a low-order point
  is refused with the counters already reset, so the next message is numbered from zero again under the same ratchet
  key (`LowOrderResets`), and a wrong ciphertext or wrong associated data under a genuine header costs the message
  (`StateIgnoresBody`, `TriedIsSpent`).
* `MAX_SKIP` bounds each advance of a chain, not the session, though its comment promises a bound "per session". One
  header on a new ratchet key can add 2 * MAX_SKIP keys, and m of them 2 * MAX_SKIP * m (`SessionLimitExceeded`).
  `GrowthExact` gives the size of the cache after every call, and `SessionLimitExact` when it stays within MAX_SKIP.
* The padding suffix is a u32 and the buckets go up to 65536; the comments in `padding.rs` (u16, 2 bytes, 0xFFFF) and
  the size list in the protocol document under `docs` (its section 9) are out of date. A dummy of 2^32 - 1
  bytes or more would unpad (`DummyIsDummy`).
* Safety numbers use SHA-256 over the sorted keys and 24 bytes, not what the protocol document (its
  section 10) says. The hashed bytes do not say where the first key ends: two pairs with the same bytes are the same
  pair exactly when their lesser keys are equally long (`PreimageExact`), another pair has the same bytes exactly when
  these can be split in order at another place (`PreimageShared`), and that is so for any two keys that are not empty
  (`PreimageAmbiguous`). The hex entry point takes 32-byte keys only, for which the bytes determine the pair.
* A request method with a colon would make the signed message ambiguous (`ColonAmbiguous`); a method is a token
  (section 5.6.2 of RFC 9110), which has none.
* The server puts the method it rebuilds the message from in upper case and leaves the query out, the client does
  neither: a request signed with another spelling is always refused (`LowerCaseRefused`), and a signature serves for
  every query on its path (`AcceptsExactly`).

## Model

| member | source | states |
|---|---|---|
| DoubleRatchet.RatchetState.InitSender | crates/vaultex-crypto/src/double_ratchet.rs:184-205 | the initiator starts one root step ahead with a sending chain, or fails on a low-order prekey |
| DoubleRatchet.RatchetState.InitReceiver | crates/vaultex-crypto/src/double_ratchet.rs:210-225 | the responder starts with the shared secret as root and its prekey as ratchet key |
| DoubleRatchet.RatchetState.Encrypt | crates/vaultex-crypto/src/double_ratchet.rs:229-263 | new state, header and ciphertext, and the state left behind by each failure |
| DoubleRatchet.RatchetState.Decrypt | crates/vaultex-crypto/src/double_ratchet.rs:273-320 | new state, answer, keys tried and KDF calls, for every branch and partial failure |
| DoubleRatchet.RatchetState.SkipMessageKeysForCurrentChain | crates/vaultex-crypto/src/double_ratchet.rs:341-373 | closing a chain caches exactly the unread keys, or refuses too wide a gap without change |
| DoubleRatchet.RatchetState.SkipMessageKeys | crates/vaultex-crypto/src/double_ratchet.rs:377-410 | skipping caches exactly the keys passed over and leaves the counter to the caller |
| DoubleRatchet.RatchetState.CacheKeys | crates/vaultex-crypto/src/double_ratchet.rs:364-368 | the skip loop: one chain step and one cached key per number |
| DoubleRatchet.KeysBetweenAt | crates/vaultex-crypto/src/double_ratchet.rs:402-406 | the loop's cache entries: exactly the numbers in range, each with the key that many steps along |
| DoubleRatchet.RatchetState.DhRatchetStep | crates/vaultex-crypto/src/double_ratchet.rs:413-439 | two root steps, new receiving and sending chains, and the half-updated state of a failed exchange |
| Answers.AnswerExact | crates/vaultex-crypto/src/double_ratchet.rs:273-336 | for every state, header, ciphertext and associated data: the one key the header names is tried, and the plaintext is answered exactly for a ciphertext sealed with it under that associated data; otherwise the error of the first check that fails |
| Answers.DecryptAuthentic | crates/vaultex-crypto/src/double_ratchet.rs:323-336 | a plaintext is answered only for a ciphertext that seals it, under its associated data, with the key tried |
| Answers.AcceptedAuthentic | crates/vaultex-crypto/src/double_ratchet.rs:273-336 | under arbitrary calls every accepted ciphertext was delivered under the associated data it was sealed with and gave its plaintext |
| Answers.StateIgnoresBody | crates/vaultex-crypto/src/double_ratchet.rs:273-320 | what a decrypt leaves behind depends on the header alone, not on the ciphertext or whether it opens |
| Answers.TriedIsSpent | crates/vaultex-crypto/src/double_ratchet.rs:279-320 | a key that was tried, successfully or not, opens nothing in any later call |
| Answers.StepsExact | crates/vaultex-crypto/src/double_ratchet.rs:341-410 | the exact number of chain KDF calls of a decrypt |
| Answers.EncryptAnswer | crates/vaultex-crypto/src/double_ratchet.rs:229-263 | encrypt fails exactly without a chain or a key pair, and uses up a chain key even when it fails |
| Answers.InitSenderAnswer | crates/vaultex-crypto/src/double_ratchet.rs:184-205 | the initiator starts on every prekey but a low-order point |
| Answers.LowOrderResets | crates/vaultex-crypto/src/double_ratchet.rs:413-426 | a failed exchange leaves the counters reset and the ratchet key in place, so numbers repeat under one ratchet key |
| Crypto.SharedPointAgreement | crates/vaultex-crypto/src/double_ratchet.rs:112-120 | a DH result is the same for both owners and for no other pair of keys |
| Session.ReceiveFirst | crates/vaultex-crypto/src/double_ratchet.rs:273-320 | at one end: any first delivery, cached, ahead or on a new chain, is answered with the plaintext exactly when its gaps are within MAX_SKIP, and the end stays synchronised either way |
| Session.ReceiveAgain | crates/vaultex-crypto/src/double_ratchet.rs:378-382 | a repeat on the current chain is refused, tries no key and changes nothing |
| SessionBook.RatchetKeeps | crates/vaultex-crypto/src/double_ratchet.rs:413-439 | the ratchet step keeps root, chains, counters and cache synchronised with the peer |
| SessionBook.SkipKeeps | crates/vaultex-crypto/src/double_ratchet.rs:354-370 | skipping keeps the cache equal to the messages passed over and not yet decrypted |
| Runs.OpeningInv | crates/vaultex-crypto/src/double_ratchet.rs:184-225 | both initial states with one secret satisfy the run invariant |
| Runs.SendCorrect | crates/vaultex-crypto/src/double_ratchet.rs:229-263 | a send keeps the run invariant and succeeds exactly when the end has a sending chain |
| Runs.DeliverCorrect | crates/vaultex-crypto/src/double_ratchet.rs:273-320 | a delivery keeps the run invariant; first deliveries return exactly what was encrypted, or TooManySkipped exactly when a gap is too wide |
| Runs.RunInv | crates/vaultex-crypto/src/double_ratchet.rs:229-440 | the invariant holds in every world a run reaches |
| Runs.RunCorrect | crates/vaultex-crypto/src/double_ratchet.rs:229-440 | every event of every interleaving of sends and deliveries, with loss, delay, reordering and repeats on current chains, answers correctly |
| Runs.SessionCorrect | crates/vaultex-crypto/src/double_ratchet.rs:184-440 | the run theorem from the two initial states of a session |
| Runs.CacheOfNetwork | crates/vaultex-crypto/src/double_ratchet.rs:279-287 | the cache holds exactly the packets sent to this end that it has gone past and not decrypted, each with its sealing key |
| Runs.SendFrom | crates/vaultex-crypto/src/double_ratchet.rs:229-263 | an Encrypt call on a session object returns what the run records as a packet and keeps the object in step with it |
| Runs.DeliverTo | crates/vaultex-crypto/src/double_ratchet.rs:273-320 | a Decrypt call on a session object returns the plaintext sent, or refuses a repeat on the current chain without change, and keeps the object in step with the run |
| Runs.WrongAdRefused | crates/vaultex-crypto/src/double_ratchet.rs:273-336 | in any run a genuine packet under other associated data is refused and leaves the receiver as proper delivery would |
| Secrecy.RootsAdjacent | crates/vaultex-crypto/src/double_ratchet.rs:413-440 | the two root keys are always exactly one kdf_rk step apart |
| Secrecy.ChainsAgree | crates/vaultex-crypto/src/double_ratchet.rs:309-315 | a receiving chain on the peer's current chain reaches the peer's chain key by kdf_ck alone, in as many steps as messages are unread |
| Secrecy.EncryptionKeysDistinct | crates/vaultex-crypto/src/double_ratchet.rs:234-255 | no two encryptions of a session, in either direction and across ratchet steps, use one message key |
| Secrecy.KeyDeletion | crates/vaultex-crypto/src/double_ratchet.rs:280-319 | after a decryption and any further events, the message key cannot be computed from what the receiver holds |
| Secrecy.KeysInReach | crates/vaultex-crypto/src/double_ratchet.rs:184-440 | of all message keys the session has used and will use, everything an end holds gives exactly those of the chain onto its own ratchet key, of its two current chains from where it stands, and of the packets it passed over |
| Secrecy.Recovery | crates/vaultex-crypto/src/double_ratchet.rs:413-440 | after a compromise of everything an end holds, no key of any chain that starts after its next ratchet key can be computed, whatever happens next |
| Secrecy.SentKeyGone | crates/vaultex-crypto/src/double_ratchet.rs:234-239 | a sent message's key can be computed from what its sender holds only on the initiator's first chain, before its first ratchet step, and only if the session secret can |
| Secrecy.SentKeyGoneIndependent | crates/vaultex-crypto/src/double_ratchet.rs:234-239 | with a secret no ratchet key helps to compute it cannot be computed at all |
| Secrecy.DerivesIsClosed | crates/vaultex-crypto/src/double_ratchet.rs:79-120 | what is derivable is closed under the KDFs and DH with the own key |
| Secrecy.DerivesIsLeast | crates/vaultex-crypto/src/double_ratchet.rs:79-120 | it is the least such set with the held secrets in it |
| AtMostOnce.KeysTriedOnce | crates/vaultex-crypto/src/double_ratchet.rs:273-336 | under arbitrary calls, failed ones included, no derived message key is tried on a ciphertext twice |
| AtMostOnce.CiphertextsAcceptedOnce | crates/vaultex-crypto/src/double_ratchet.rs:273-336 | under arbitrary calls no ciphertext is accepted twice |
| AtMostOnce.KeysSealedOnce | crates/vaultex-crypto/src/double_ratchet.rs:229-263 | under arbitrary calls no two encryptions of an end use the same message key, over any ratchet steps and counter wraps |
| Descent.KeysDescend | crates/vaultex-crypto/src/double_ratchet.rs:229-440 | under arbitrary calls everything an end accepts or sends is sealed with a key derived from its own session secret |
| Descent.SessionsApart | crates/vaultex-crypto/src/double_ratchet.rs:184-440 | two ends whose secrets have different sources accept nothing of each other, under arbitrary calls of both |
| ResourceBound.DecryptBound | crates/vaultex-crypto/src/double_ratchet.rs:299-314 | one decrypt adds at most MAX_SKIP entries per chain it advances, two chains at most, and makes at most one KDF call more |
| ResourceBound.CacheBound | crates/vaultex-crypto/src/double_ratchet.rs:354-406 | k calls leave at most 2 * MAX_SKIP * k further entries |
| ResourceBound.GrowthExact | crates/vaultex-crypto/src/double_ratchet.rs:273-410 | the exact size of the cache after any decrypt, for every state and header: one less for a cached message, otherwise one more for each number passed over on the chain closed and on the chain read that was not cached already |
| ResourceBound.HonestNothingAhead | crates/vaultex-crypto/src/double_ratchet.rs:399-407 | in honest sessions no key of the current chain is cached at or above the counter |
| ResourceBound.HonestNoneCached | crates/vaultex-crypto/src/double_ratchet.rs:399-407 | in honest sessions no key is cached under a ratchet key that came after the end's own |
| ResourceBound.SessionLimitExact | crates/vaultex-crypto/src/double_ratchet.rs:289-410 | a header that passes the gap checks, on the current chain or a new one, grows the cache by all it passes over, so a session stays within MAX_SKIP keys if and only if both gaps together fit |
| ResourceBound.SessionLimitExceeded | crates/vaultex-crypto/src/double_ratchet.rs:18-20 | no bound holds for a session: for every m there are m + 1 headers, on ciphertexts that open under no key, that leave 2 * MAX_SKIP * m keys in a fresh one |
| OrderIndependence.AnyOrder | crates/vaultex-crypto/src/double_ratchet.rs:377-410 | up to MAX_SKIP + 1 next messages of a chain, in any permutation, are all decrypted and end in the same state, cache included |
| OrderIndependence.AnyOrderExact | crates/vaultex-crypto/src/double_ratchet.rs:377-410 | all orders of the next messages open them all if and only if there are at most MAX_SKIP + 1 of them |
| Replay.UnchangedExactly | crates/vaultex-crypto/src/double_ratchet.rs:273-440 | for every state, header and ciphertext: decrypt leaves the state as it was exactly when a gap check, the counter or a missing chain refuses the message before any field is touched |
| Replay.ForgedHeaderLoses | crates/vaultex-crypto/src/double_ratchet.rs:299-320 | one header on any ratchet key the session has not used loses an honest end, with whatever ciphertext, unless its closing gap is refused |
| Replay.ReplayExact | crates/vaultex-crypto/src/double_ratchet.rs:289-303 | a repeat on a left chain is always refused and leaves the state alone if and only if its closing gap is refused; otherwise the end is lost |
| Replay.LostRefuses | crates/vaultex-crypto/src/double_ratchet.rs:273-440 | a lost end stays lost under arbitrary calls and accepts nothing more of the session's chains, those opened later included, but with keys cached before |
| Replay.ReplayExample | crates/vaultex-crypto/src/double_ratchet.rs:289-303 | a concrete run of three deliveries in which the repeat moves the root key |
| Persistence.ToRecord | crates/vaultex-crypto/src/double_ratchet.rs:124-142 | serialisation records the state, with the cache in an arbitrary order |
| Persistence.FromRecord | crates/vaultex-crypto/src/double_ratchet.rs:145-178 | deserialisation rebuilds the state the record describes |
| Persistence.RestoreRecord | crates/vaultex-crypto/src/double_ratchet.rs:124-178 | restoring any record of a state gives that state back, for every order of the cache |
| Persistence.RestoredExact | crates/vaultex-crypto/src/double_ratchet.rs:145-178 | any record: half a key pair is none, and of entries for one slot the last counts |
| Persistence.SaveAndRestore | crates/vaultex-crypto/src/double_ratchet.rs:124-178 | saving and restoring an object gives an equal one |
| Persistence.SavesAreInvisible | crates/vaultex-crypto/src/double_ratchet.rs:124-178 | saving and restoring between any calls changes no later answer |
| X3dh.InitiateX3dh | crates/vaultex-crypto/src/x3dh.rs:101-168 | the initiator's secret from three or four exchanges, or the error of the first check that fails |
| X3dh.AcceptX3dh | crates/vaultex-crypto/src/x3dh.rs:174-230 | the responder's secret from its own keys, or the error of the first check that fails |
| X3dh.InitiatedExact | crates/vaultex-crypto/src/x3dh.rs:101-168 | the initiator succeeds exactly for a prekey signed by the bundle's identity and keys that are proper points; the exchanges of its secret in order, and the error otherwise |
| X3dh.AcceptedExact | crates/vaultex-crypto/src/x3dh.rs:174-230 | the responder succeeds exactly for an identity and an ephemeral key that are proper points; the exchanges of its secret, and the error otherwise |
| X3dh.PrekeyAuthentic | crates/vaultex-crypto/src/x3dh.rs:107-115 | when an identity signs only its own prekey, a secret derived with it used that prekey and cannot be computed with another key |
| X3dh.Agreement | crates/vaultex-crypto/src/x3dh.rs:137-226 | honest ends agree if and only if they ran with each other's keys and the same one-time key or none |
| X3dh.SessionEstablished | crates/vaultex-crypto/src/x3dh.rs:101-230 | the agreed secret opens the session of the run theorem |
| X3dh.HandshakeThenSession | crates/vaultex-crypto/src/x3dh.rs:101-230 | the initiator from its result and the responder from what it accepted start a session in which every event of every run answers correctly |
| X3dh.AgreedSecretIndependent | crates/vaultex-crypto/src/x3dh.rs:137-160 | the agreed secret does not depend on any later ratchet key |
| X3dh.DifferentSecretsRefuse | crates/vaultex-crypto/src/x3dh.rs:160-226 | with different secrets the responder accepts nothing of the first chain, over any sequence of calls and under any message numbers |
| X3dh.HandshakesApart | crates/vaultex-crypto/src/x3dh.rs:101-230 | an initiator and a responder whose handshakes gave different secrets accept nothing of each other, on any chain and under arbitrary calls |
| Padding.BucketIsLeast | crates/vaultex-crypto/src/padding.rs:90-104 | the bucket is the least wire size with room for message and suffix |
| Padding.BucketMonotone | crates/vaultex-crypto/src/padding.rs:90-104 | longer messages never get smaller buckets |
| Padding.BucketStable | crates/vaultex-crypto/src/padding.rs:90-104 | a message that exactly fills a bucket stays in it |
| Padding.PadLengthBounds | crates/vaultex-crypto/src/padding.rs:32-39 | the padding is between 4 and 65539 bytes, so the error branch is unreachable and the u32 cast exact |
| Padding.PadMessage | crates/vaultex-crypto/src/padding.rs:31-57 | padding always succeeds, with message, random fill and suffix in that order |
| Padding.PadRoundTrip | crates/vaultex-crypto/src/padding.rs:31-83 | unpadding gives back the message for every message and fill; the padded size is the bucket |
| Padding.PaddedBytewise | crates/vaultex-crypto/src/padding.rs:42-57 | byte by byte: the message, then the random bytes drawn, up to the suffix |
| Padding.UnpadShape | crates/vaultex-crypto/src/padding.rs:63-83 | unpadding reads a message off exactly the buffers made of it, some filler and the length of the rest |
| Padding.UnpadPad | crates/vaultex-crypto/src/padding.rs:63-104 | an accepted buffer is a padding of its message exactly when it has bucket size |
| Padding.LeRoundTrip | crates/vaultex-crypto/src/padding.rs:53-75 | the little-endian u32 codec round trips |
| Padding.GenerateDummyMessage | crates/vaultex-crypto/src/padding.rs:114-127 | a dummy has the clamped size, random bytes and the mark at its end |
| Padding.DummyBytewise | crates/vaultex-crypto/src/padding.rs:114-127 | the size is the one asked for but at least 256, every byte but the last four is drawn at random, those are 0xFF |
| Padding.RealIsNotDummy | crates/vaultex-crypto/src/padding.rs:119-141 | no padded message is taken for cover traffic |
| Padding.DummyIsDummy | crates/vaultex-crypto/src/padding.rs:77-141 | every dummy is recognised, and rejected by unpadding exactly when shorter than 2^32 - 1 bytes |
| Payload.MessagePayload.NormalizeGroupId | crates/vaultex-crypto/src/message_payload.rs:182-201 | placeholder and empty ids become none, proper ids stay, others are refused without change |
| Payload.MessagePayload.ToPaddedBytes | crates/vaultex-crypto/src/message_payload.rs:151-159 | the payload with the placeholder filled in, as JSON, padded |
| Payload.MessagePayload.FromPadded | crates/vaultex-crypto/src/message_payload.rs:168-174 | unpadding, decoding and normalising, with the first error met |
| Payload.NormalizeIdempotent | crates/vaultex-crypto/src/message_payload.rs:182-201 | normalising is idempotent and lets through exactly proper ids, empty ids and none |
| Payload.PayloadRoundTrip | crates/vaultex-crypto/src/message_payload.rs:151-201 | a payload is read back unchanged exactly for no group or a real one, without its group for the placeholder, refused when malformed |
| Payload.FromPaddedExact | crates/vaultex-crypto/src/message_payload.rs:168-201 | for every buffer and decoder: a payload is read exactly from a message, filler and suffix whose message decodes, with its group id normalised; the error of each refusal |
| Payload.DummyRefused | crates/vaultex-crypto/src/message_payload.rs:168-169 | a dummy shorter than 2^32 - 1 bytes never shows up as a message |
| JsonText.JsonUnique | crates/vaultex-crypto/src/message_payload.rs:40-80 | two payloads with one JSON text are the same payload, when strings are escaped unambiguously |
| JsonText.DecoderExists | crates/vaultex-crypto/src/message_payload.rs:133-140 | so a decoder that inverts the encoder exists |
| Payload.LengthHiding | crates/vaultex-crypto/src/message_payload.rs:123-159 | direct and group messages have equal length on the wire, a bucket size |
| Payload.PayloadThroughSession | crates/vaultex-crypto/src/message_payload.rs:151-174 | the payload round trip carries through any run of a session |
| SafetyNumber.Symmetric | crates/vaultex-crypto/src/safety_number.rs:22-33 | both users compute the same number, for all byte strings |
| SafetyNumber.PreimageExact | crates/vaultex-crypto/src/safety_number.rs:24-32 | two pairs have the same hashed bytes and equally long lesser keys exactly when they are the same unordered pair |
| SafetyNumber.PreimageOfEqualLengths | crates/vaultex-crypto/src/safety_number.rs:24-32 | for pairs of equally long keys the hashed bytes alone are equal exactly for equal unordered pairs |
| SafetyNumber.PreimageShared | crates/vaultex-crypto/src/safety_number.rs:24-32 | another pair has the same hashed bytes exactly when these split in order at another place |
| SafetyNumber.PreimageAmbiguous | crates/vaultex-crypto/src/safety_number.rs:22-45 | two keys that are not empty share their number with another pair, an empty key and the two in a row |
| SafetyNumber.NumberDeterminesHash | crates/vaultex-crypto/src/safety_number.rs:35-44 | two numbers are equal exactly when the first 24 hash bytes are |
| SafetyNumber.NumberShows | crates/vaultex-crypto/src/safety_number.rs:35-44 | twelve groups of five decimal digits with a space between, each the big-endian value of its two hash bytes |
| SafetyNumber.LexExact | crates/vaultex-crypto/src/safety_number.rs:24-28 | keys are ordered by their first different byte, a prefix before what it begins |
| SafetyNumber.HexAgrees | crates/vaultex-crypto/src/safety_number.rs:50-78 | hex keys give the number of the raw keys |
| SafetyNumber.HexAccepts | crates/vaultex-crypto/src/safety_number.rs:54-75 | exactly two keys of 64 hex digits give a number |
| Auth.MessageExact | crates/vaultex-crypto/src/auth.rs:27-31 | with colon-free methods the signed message determines method, path, timestamp and body hash |
| Auth.ColonAmbiguous | crates/vaultex-crypto/src/auth.rs:27-31 | a method with a colon has a second, colon-free reading |
| Text.DecimalExact | crates/vaultex-crypto/src/auth.rs:29 | the timestamp is written in decimal digits with that value and no leading zero |
| Text.HexBytewise | crates/vaultex-crypto/src/auth.rs:28 | the hash is written in lower-case hex, two digits to a byte, the high one first |
| Text.HexDecodeBytewise | crates/vaultex-crypto/src/safety_number.rs:54-61 | hex keys are read the same way, in either case |
| Auth.AcceptsExactly | extracted/server-middleware/auth.rs:97-196 | the server accepts a signature exactly for the signer, path, body hash and recent time it was made for and for a method whose upper case was signed, with any query |
| Auth.OwnRequestAccepted | crates/vaultex-crypto/src/auth.rs:48-86 | the header carries the account and the time signed, and the server accepts it for its own request exactly when the method is in upper case and the time within 300 seconds |
| Auth.LowerCaseRefused | extracted/server-middleware/auth.rs:97-196 | a signature over a method not in upper case is never accepted |

## Left out

- Legal: forged headers and repeats on left chains are not events of the run theorem; arbitrary input is covered by AtMostOnce, Descent and ResourceBound, forged headers and such repeats by Replay.
- Initial: at-most-once starts from the two constructors; a state restored from bytes that never were a saved state is not covered.
- KeysInReach: a responder that has received nothing yet holds the session secret itself, which must then be a handshake's output or an unrelated value; were it a term of the ratchet, such as an exchange of two ratchet keys, the claim would be false.
- MessageExact: text is a sequence of characters; its UTF-8 bytes are not modelled.
- CacheKeys: the two skip methods run the same loop, which is written once.
- Decrypt: the object's method calls two helpers, one for each side of line 306, which the original has inline.
- A debug build panics where a u32 counter overflows; only the wrapping of a release build is modelled.
- The inside of libsodium, HKDF, HMAC and SHA-256, and any probability of guessing or collision.
- The grammar of serde_json: the decoder is any inverse of the encoder, and the record of a ratchet state is encoded as a whole.
- Zeroisation, `Drop` and constant-time comparison: effects on memory that values do not show.
- The clock in `sign_request` and the hex form of signatures.
- Groups, media, prekey lists, identity fingerprints and sealed-sender envelopes: thin wrappers and list operations.
- AcceptsExactly: a request comes with its target already parsed into path and query; routes without authentication, the size limit of bodies and the lookup of the account's key are not modelled, and methods are ASCII.
- The rest of the server middleware, the user interface and the transports.
