/** Message payloads: their JSON and padded form, and the normalisation of group ids. */
module Payload {
  import opened Crypto
  import opened Session
  import opened Runs
  import opened Text
  import opened Padding

  const GROUP_ID_LEN: nat := 64

  function Zeros(n: nat): (s: string)
    ensures |s| == n && forall c :: c in s ==> c == '0'
  {
    if n == 0 then [] else ['0'] + Zeros(n - 1)
  }

  const GROUP_ID_PLACEHOLDER: string := Zeros(64)

  datatype Attachment = Attachment(
    mediaId: string,
    fileName: string,
    mimeType: string,
    fileSize: nat,
    fileKeyHex: string,
    thumbnail: Option<string>)

  /** The value of a payload. */
  datatype Fields = Fields(
    body: string,
    ttlSeconds: Option<u32>,
    groupId: Option<string>,
    mediaType: Option<string>,
    attachment: Option<Attachment>)

  function InGroup(p: Fields, id: string): Fields {
    p.(groupId := Some(id))
  }

  // ---- the JSON text ----

  /** How the encoder writes one character inside a string literal. */
  type Escape = char -> seq<byte>

  function Ascii(s: string): seq<byte> {
    seq(|s|, i requires 0 <= i < |s| => (s[i] as int % 256) as byte)
  }

  function Escaped(s: string, escape: Escape): seq<byte> {
    if s == [] then [] else escape(s[0]) + Escaped(s[1..], escape)
  }

  function Quoted(s: string, escape: Escape): seq<byte> {
    Ascii("\"") + Escaped(s, escape) + Ascii("\"")
  }

  /** A string member after the first one; absent members are not written. */
  function StringMember(name: string, value: Option<string>, escape: Escape): seq<byte> {
    if value.None? then [] else Ascii(",\"" + name + "\":") + Quoted(value.value, escape)
  }

  function AttachmentJson(a: Attachment, escape: Escape): seq<byte> {
    Ascii("{\"media_id\":") + Quoted(a.mediaId, escape)
    + StringMember("file_name", Some(a.fileName), escape)
    + StringMember("mime_type", Some(a.mimeType), escape)
    + Ascii(",\"file_size\":" + Decimal(a.fileSize))
    + StringMember("file_key_hex", Some(a.fileKeyHex), escape)
    + StringMember("thumbnail_base64", a.thumbnail, escape)
    + Ascii("}")
  }

  function JsonHead(p: Fields, escape: Escape): seq<byte> {
    Ascii("{\"body\":") + Quoted(p.body, escape)
    + (if p.ttlSeconds.None? then [] else Ascii(",\"ttl_seconds\":" + Decimal(p.ttlSeconds.value)))
  }

  function JsonTail(p: Fields, escape: Escape): seq<byte> {
    StringMember("media_type", p.mediaType, escape)
    + (if p.attachment.None? then [] else Ascii(",\"attachment\":") + AttachmentJson(p.attachment.value, escape))
    + Ascii("}")
  }

  /** The members in declaration order. */
  function Json(p: Fields, escape: Escape): seq<byte> {
    JsonHead(p, escape) + StringMember("group_id", p.groupId, escape) + JsonTail(p, escape)
  }

  /** Hex digits are written as they are. */
  ghost predicate KeepsHex(escape: Escape) {
    forall c :: IsHexDigit(c) ==> escape(c) == [c as int as byte]
  }

  type Decoder = seq<byte> -> Option<Fields>

  /** The decoder reads back what the encoder wrote for this payload. */
  predicate ReadsBack(p: Fields, escape: Escape, decode: Decoder) {
    decode(Json(p, escape)) == Some(p)
  }

  // ---- group ids ----

  predicate IsGroupId(id: string) {
    |id| == GROUP_ID_LEN && forall c :: c in id ==> IsHexDigit(c)
  }

  function NormalizedGroup(id: Option<string>): Result<Option<string>> {
    match id
    case None => Success(None)
    case Some(s) =>
      if s == GROUP_ID_PLACEHOLDER then Success(None)
      else if s == [] then Success(None)
      else if IsGroupId(s) then Success(Some(s))
      else Failure(SerializationError)
  }

  function Normalized(p: Fields): Result<Fields> {
    match NormalizedGroup(p.groupId)
    case Success(id) => Success(p.(groupId := id))
    case Failure(e) => Failure(e)
  }

  function OnWire(p: Fields): Fields {
    if p.groupId.None? then p.(groupId := Some(GROUP_ID_PLACEHOLDER)) else p
  }

  function PaddedBytes(p: Fields, escape: Escape, random: Random): seq<byte> {
    PaddedRandomly(Json(OnWire(p), escape), random)
  }

  function FromPaddedBytes(b: seq<byte>, decode: Decoder): Result<Fields> {
    match Unpadded(b)
    case Failure(e) => Failure(e)
    case Success(json) =>
      match decode(json)
      case None => Failure(SerializationError)
      case Some(p) => Normalized(p)
  }

  class MessagePayload {
    var body: string
    var ttlSeconds: Option<u32>
    var groupId: Option<string>
    var mediaType: Option<string>
    var attachment: Option<Attachment>

    function View(): Fields
      reads this
    {
      Fields(body, ttlSeconds, groupId, mediaType, attachment)
    }

    constructor (p: Fields)
      ensures View() == p
    {
      body, ttlSeconds, groupId, mediaType, attachment := p.body, p.ttlSeconds, p.groupId, p.mediaType, p.attachment;
    }

    /** A refused id is left in place. */
    method NormalizeGroupId() returns (r: Result<()>)
      modifies this`groupId
      ensures r.Success? <==> Normalized(old(View())).Success?
      ensures r.Success? ==> View() == Normalized(old(View())).value
      ensures r.Failure? ==> r.error == SerializationError && View() == old(View())
    {
      if groupId.None? {
        return Success(());
      }
      var id := groupId.value;
      if id == GROUP_ID_PLACEHOLDER {
        groupId := None;
        return Success(());
      }
      if id == [] {
        groupId := None;
        return Success(());
      }
      if IsGroupId(id) {
        return Success(());
      }
      return Failure(SerializationError);
    }

    method ToPaddedBytes(escape: Escape, random: Random) returns (r: Result<seq<byte>>)
      ensures r == Success(PaddedBytes(View(), escape, random))
    {
      var onWire := View();
      if onWire.groupId.None? {
        onWire := onWire.(groupId := Some(GROUP_ID_PLACEHOLDER));
      }
      r := PadMessage(Json(onWire, escape), random);
    }

    static method FromPadded(b: seq<byte>, decode: Decoder) returns (r: Result<MessagePayload>)
      ensures r.Success? <==> FromPaddedBytes(b, decode).Success?
      ensures r.Success? ==> fresh(r.value) && r.value.View() == FromPaddedBytes(b, decode).value
      ensures r.Failure? ==> r.error == FromPaddedBytes(b, decode).error
    {
      var unpadded := Unpadded(b);
      if unpadded.Failure? {
        return Failure(unpadded.error);
      }
      var decoded := decode(unpadded.value);
      if decoded.None? {
        return Failure(SerializationError);
      }
      var payload := new MessagePayload(decoded.value);
      var normal := payload.NormalizeGroupId();
      if normal.Failure? {
        return Failure(normal.error);
      }
      return Success(payload);
    }
  }

  lemma PlaceholderIsGroupId()
    ensures IsGroupId(GROUP_ID_PLACEHOLDER)
  {
  }

  /** Normalising twice is normalising once, and what it lets through is a proper group id or none. */
  lemma NormalizeIdempotent(p: Fields)
    ensures Normalized(p).Success? ==> Normalized(Normalized(p).value) == Normalized(p)
    ensures Normalized(p).Success? ==>
              var id := Normalized(p).value.groupId;
              id.Some? ==> IsGroupId(id.value) && id.value != GROUP_ID_PLACEHOLDER
    ensures Normalized(p).Success? <==> p.groupId.None? || p.groupId.value == [] || IsGroupId(p.groupId.value)
  {
    PlaceholderIsGroupId();
  }

  lemma ThroughCodec(p: Fields, escape: Escape, decode: Decoder, random: Random)
    requires ReadsBack(OnWire(p), escape, decode)
    ensures FromPaddedBytes(PaddedBytes(p, escape, random), decode) == Normalized(OnWire(p))
  {
    RandomRoundTrip(Json(OnWire(p), escape), random);
  }

  predicate RealGroup(id: Option<string>) {
    id.Some? && IsGroupId(id.value) && id.value != GROUP_ID_PLACEHOLDER
  }

  /** What the peer reads: the payload itself exactly when it names no group or a real one; without its group
      id when that is empty or the placeholder; nothing when it is malformed. */
  lemma PayloadRoundTrip(p: Fields, escape: Escape, decode: Decoder, random: Random)
    requires ReadsBack(OnWire(p), escape, decode)
    ensures var r := FromPaddedBytes(PaddedBytes(p, escape, random), decode);
            && (r == Success(p) <==> p.groupId.None? || RealGroup(p.groupId))
            && (p.groupId == Some([]) || p.groupId == Some(GROUP_ID_PLACEHOLDER) ==> r == Success(p.(groupId := None)))
            && (r.Failure? <==> p.groupId.Some? && p.groupId.value != [] && !IsGroupId(p.groupId.value))
            && (r.Failure? ==> r.error == SerializationError)
  {
    ThroughCodec(p, escape, decode, random);
    PlaceholderIsGroupId();
  }

  /** What becomes of a decoded payload: unchanged without a group or with a real one, without its group id when that
      is empty or the placeholder. */
  predicate NormalOf(q: Fields, p: Fields) {
    if q.groupId == Some([]) || q.groupId == Some(GROUP_ID_PLACEHOLDER) then p == q.(groupId := None)
    else p == q && (q.groupId.None? || RealGroup(q.groupId))
  }

  predicate BadGroup(q: Fields) {
    q.groupId.Some? && q.groupId.value != [] && !IsGroupId(q.groupId.value)
  }

  lemma NormalizedExact(q: Fields, p: Fields)
    ensures Normalized(q) == Success(p) <==> NormalOf(q, p)
    ensures Normalized(q).Failure? <==> BadGroup(q)
    ensures Normalized(q).Failure? ==> Normalized(q).error == SerializationError
  {
    PlaceholderIsGroupId();
    GroupExact(q.groupId);
  }

  lemma GroupExact(id: Option<string>)
    ensures NormalizedGroup(id)
         == if id == Some([]) || id == Some(GROUP_ID_PLACEHOLDER) then Success(None)
            else if id.None? || RealGroup(id) then Success(id)
            else Failure(SerializationError)
    ensures NormalizedGroup(id).Failure? <==> id.Some? && id.value != [] && !IsGroupId(id.value)
  {
    PlaceholderIsGroupId();
  }

  /** Some message, some filler and their length. */
  ghost predicate IsShaped(b: seq<byte>, json: seq<byte>) {
    exists fill :: |fill| + PAD_LEN_BYTES <= U32_MAX && b == Shaped(json, fill)
  }

  /** Reading any buffer: the payload it holds, or the error of the first step that fails. */
  lemma FromPaddedExact(b: seq<byte>, decode: Decoder, p: Fields)
    ensures FromPaddedBytes(b, decode) == Success(p)
       <==> exists json :: IsShaped(b, json) && decode(json).Some? && NormalOf(decode(json).value, p)
    ensures FromPaddedBytes(b, decode) == Failure(PaddingError) <==> forall json :: !IsShaped(b, json)
    ensures FromPaddedBytes(b, decode) == Failure(SerializationError)
       <==> exists json :: IsShaped(b, json) && (decode(json).None? || BadGroup(decode(json).value))
    ensures FromPaddedBytes(b, decode).Failure? ==>
              FromPaddedBytes(b, decode).error in {PaddingError, SerializationError}
  {
    forall json
      ensures IsShaped(b, json) <==> Unpadded(b) == Success(json)
    {
      UnpadShape(b, json);
    }
    assert Unpadded(b).Failure? ==> Unpadded(b).error == PaddingError;
    if Unpadded(b).Success? {
      var json := Unpadded(b).value;
      assert IsShaped(b, json);
      if decode(json).Some? {
        NormalizedExact(decode(json).value, p);
      }
    }
  }

  /** Cover traffic never shows up as a message. */
  lemma DummyRefused(b: seq<byte>, size: nat, random: Random, decode: Decoder)
    requires IsDummyOf(b, size, random) && |b| < U32_MAX
    ensures FromPaddedBytes(b, decode) == Failure(PaddingError)
  {
    DummyIsDummy(b, size, random);
  }

  lemma {:induction false} HexKeepsLength(s: string, escape: Escape)
    requires KeepsHex(escape) && forall c :: c in s ==> IsHexDigit(c)
    ensures |Escaped(s, escape)| == |s|
  {
    if s != [] {
      assert s[0] in s && forall c :: c in s[1..] ==> c in s;
      HexKeepsLength(s[1..], escape);
    }
  }

  /** A direct message and a group message with the same content have the same length on the wire, and that
      length is one of the bucket sizes. */
  lemma LengthHiding(p: Fields, id: string, escape: Escape, random: Random, random': Random)
    requires p.groupId.None? && IsGroupId(id) && KeepsHex(escape)
    ensures |PaddedBytes(p, escape, random)| == |PaddedBytes(InGroup(p, id), escape, random')|
    ensures IsBucket(|PaddedBytes(p, escape, random)|)
  {
    SameLength(p, id, escape);
    RandomRoundTrip(Json(OnWire(p), escape), random);
    RandomRoundTrip(Json(OnWire(InGroup(p, id)), escape), random');
    BucketIsLeast(|Json(OnWire(p), escape)|);
  }

  lemma SameLength(p: Fields, id: string, escape: Escape)
    requires p.groupId.None? && IsGroupId(id) && KeepsHex(escape)
    ensures |Json(OnWire(p), escape)| == |Json(OnWire(InGroup(p, id)), escape)|
  {
    PlaceholderIsGroupId();
    HexKeepsLength(id, escape);
    HexKeepsLength(GROUP_ID_PLACEHOLDER, escape);
    JsonLength(OnWire(p), OnWire(InGroup(p, id)), escape);
  }

  /** The group id changes nothing but its own member. */
  lemma JsonLength(p: Fields, q: Fields, escape: Escape)
    requires q == p.(groupId := q.groupId)
    ensures |Json(q, escape)| - |StringMember("group_id", q.groupId, escape)|
         == |Json(p, escape)| - |StringMember("group_id", p.groupId, escape)|
  {
    assert JsonHead(q, escape) == JsonHead(p, escape);
    assert JsonTail(q, escape) == JsonTail(p, escape);
  }

  /** A payload sent through a session comes out of any run as it would come out of the codec alone. */
  lemma PayloadThroughSession(w: World, i: nat, n: nat, p: Fields, escape: Escape, decode: Decoder, random: Random)
    requires WorldInv(w) && Legal(w, Deliver(i, n)) && (i, n) !in w.done
    ensures var o, packet := DeliverOutcome(w, i, n), w.net[i][n];
            && (o.result.Success? <==> WithinGaps(End(w, ReceiverOf(i)), packet.header))
            && (o.result.Success? && packet.plaintext == PaddedBytes(p, escape, random)
                && ReadsBack(OnWire(p), escape, decode) ==>
                  FromPaddedBytes(o.result.value, decode) == Normalized(OnWire(p)))
  {
    DeliverCorrect(w, i, n);
    if ReadsBack(OnWire(p), escape, decode) {
      ThroughCodec(p, escape, decode, random);
    }
  }
}
