/** Symbolic cryptography.  A secret is a term saying how it was computed, so that two secrets
    are equal exactly when they were computed the same way: HKDF, HMAC and SHA-256 are taken to
    be collision free.  A public key is an abstract curve point, named by its secret key. */
module Crypto {
  newtype byte = b: int | 0 <= b < 256

  type u32 = n: int | 0 <= n < 0x1_0000_0000

  const U32_MAX: u32 := 0xFFFF_FFFF

  datatype Option<+T> = None | Some(value: T)

  datatype Result<+T> = Success(value: T) | Failure(error: CryptoError) {
    predicate IsFailure() {
      Failure?
    }

    function PropagateFailure<U>(): Result<U>
      requires Failure?
    {
      Failure(error)
    }

    function Extract(): T
      requires Success?
    {
      value
    }
  }

  datatype CryptoError =
    | NoSendingChain
    | NoSendingKeypair
    | NoReceivingChain
    | NoRemoteKey
    | TooManySkipped
    | AlreadyConsumed
    | DhFailed
    | DecryptionFailed
    | HkdfExpandFailed
    | InvalidKeyLength
    | InvalidPreKeySignature
    | PaddingError
    | SerializationError

  /** The name of an X25519 secret key: one made by the key generator, or the conversion of an
      Ed25519 identity key. */
  datatype KeyId = Curve(n: nat) | FromIdentity(n: nat)

  /** 32 bytes used as a public key.  Scalar multiplication fails on a low-order point. */
  datatype PublicKey = Point(id: KeyId) | LowOrder(tag: nat)

  datatype Keypair = Keypair(public: PublicKey, secret: KeyId)

  datatype Term =
    | Atom(name: nat)
    | Dh(owners: set<KeyId>)
    | X3dhSecret(parts: seq<Term>)
    | NextRoot(root: Term, dh: Term)
    | ChainStart(root: Term, dh: Term)
    | NextChain(chain: Term)
    | MessageKey(chain: Term)

  /** What arrives as a ciphertext: too short to hold a nonce, sealed under some key, or bytes
      that were not produced by sealing. */
  datatype Ciphertext =
    | Short
    | Sealed(nonce: nat, key: Term, ad: seq<byte>, plaintext: seq<byte>)
    | Forged(tag: nat)

  function GenKeypair(id: KeyId): Keypair {
    Keypair(Point(id), id)
  }

  function SharedPoint(x: KeyId, y: KeyId): Term {
    Dh({x, y})
  }

  /** The shared point is the same whoever computes it, and only those two keys have it. */
  lemma SharedPointAgreement(x: KeyId, y: KeyId, u: KeyId, v: KeyId)
    ensures SharedPoint(x, y) == SharedPoint(u, v) <==> (x == u && y == v) || (x == v && y == u)
  {
    assert x in {x, y} && y in {x, y};
    assert u in {u, v} && v in {u, v};
    if (x == u && y == v) || (x == v && y == u) {
      assert {x, y} == {u, v};
    }
  }

  function DhExchange(ours: KeyId, theirs: PublicKey): Result<Term> {
    match theirs
    case Point(k) => Success(SharedPoint(ours, k))
    case LowOrder(_) => Failure(DhFailed)
  }

  /** AEAD opening: succeeds only for the key and associated data that sealed. */
  function Open(key: Term, c: Ciphertext, ad: seq<byte>): (r: Result<seq<byte>>)
    ensures r.Success? <==> c.Sealed? && c.key == key && c.ad == ad
    ensures r.Success? ==> r.value == c.plaintext
  {
    if c.Sealed? && c.key == key && c.ad == ad then Success(c.plaintext) else Failure(DecryptionFailed)
  }

  /** The chain key after `n` applications of the chain KDF. */
  function Iterate(chain: Term, n: nat): Term {
    if n == 0 then chain else NextChain(Iterate(chain, n - 1))
  }

  lemma {:induction false} IterateAdd(chain: Term, m: nat, n: nat)
    ensures Iterate(Iterate(chain, m), n) == Iterate(chain, m + n)
  {
    if n > 0 {
      IterateAdd(chain, m, n - 1);
    }
  }

  /** How many root steps lie behind a root key. */
  function RootDepth(t: Term): nat {
    match t
    case NextRoot(root, _) => 1 + RootDepth(root)
    case _ => 0
  }

  /** The depth of the root a chain key descends from. */
  function ChainDepth(t: Term): nat {
    match t
    case NextChain(c) => ChainDepth(c)
    case ChainStart(root, _) => RootDepth(root)
    case _ => 0
  }

  /** How far a chain key lies from the start of its chain. */
  function ChainPosition(t: Term): nat {
    match t
    case NextChain(c) => 1 + ChainPosition(c)
    case _ => 0
  }

  lemma {:induction false} IterateStamp(chain: Term, n: nat)
    ensures ChainDepth(Iterate(chain, n)) == ChainDepth(chain)
    ensures ChainPosition(Iterate(chain, n)) == ChainPosition(chain) + n
  {
    if n > 0 {
      IterateStamp(chain, n - 1);
    }
  }

  /** The start of the chain that a chain key lies on. */
  function Origin(chain: Term): Term {
    match chain
    case NextChain(c) => Origin(c)
    case _ => chain
  }

  lemma {:induction false} IterateOrigin(chain: Term, n: nat)
    ensures Origin(Iterate(chain, n)) == Origin(chain)
  {
    if n > 0 {
      IterateOrigin(chain, n - 1);
    }
  }
}
