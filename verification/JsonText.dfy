/** The JSON text of a payload can be read in one way only, so a decoder for it exists. */
module JsonText {
  import opened Crypto
  import opened Text
  import opened Payload

  const QUOTE: byte := 34
  const COMMA: byte := 44
  const BRACE: byte := 125

  /** No character's text begins the text of another, and none begins with a quote. */
  ghost predicate Unambiguous(escape: Escape) {
    && (forall c :: escape(c) != [] && escape(c)[0] != QUOTE)
    && (forall c, d :: escape(c) <= escape(d) ==> c == d)
  }

  lemma Cancel(a: seq<byte>, x: seq<byte>, y: seq<byte>)
    requires a + x == a + y
    ensures x == y
  {
    assert x == (a + x)[|a|..] && y == (a + y)[|a|..];
  }

  lemma Assoc(a: seq<byte>, b: seq<byte>, c: seq<byte>)
    ensures a + b + c == a + (b + c)
  {
  }

  lemma OneBeginsOther(a: seq<byte>, x: seq<byte>, b: seq<byte>, y: seq<byte>)
    requires a + x == b + y
    ensures a <= b || b <= a
  {
    assert a == (a + x)[..|a|] && b == (b + y)[..|b|];
  }

  // ---- strings ----

  function Literal(s: string, escape: Escape, x: seq<byte>): seq<byte> {
    Escaped(s, escape) + ([QUOTE] + x)
  }

  lemma LiteralStep(s: string, escape: Escape, x: seq<byte>)
    requires s != []
    ensures Literal(s, escape, x) == escape(s[0]) + Literal(s[1..], escape, x)
  {
  }

  lemma LiteralHead(s: string, escape: Escape, x: seq<byte>)
    requires Unambiguous(escape)
    ensures Literal(s, escape, x) != [] && (Literal(s, escape, x)[0] == QUOTE <==> s == [])
  {
    if s != [] {
      LiteralStep(s, escape, x);
    }
  }

  lemma {:induction false} LiteralUnique(s: string, t: string, escape: Escape, x: seq<byte>, y: seq<byte>)
    requires Unambiguous(escape) && Literal(s, escape, x) == Literal(t, escape, y)
    ensures s == t && x == y
    decreases |s|
  {
    LiteralHead(s, escape, x);
    LiteralHead(t, escape, y);
    if s == [] {
      assert Literal(s, escape, x) == [QUOTE] + x && Literal(t, escape, y) == [QUOTE] + y;
      Cancel([QUOTE], x, y);
    } else {
      LiteralStep(s, escape, x);
      LiteralStep(t, escape, y);
      OneBeginsOther(escape(s[0]), Literal(s[1..], escape, x), escape(t[0]), Literal(t[1..], escape, y));
      Cancel(escape(s[0]), Literal(s[1..], escape, x), Literal(t[1..], escape, y));
      LiteralUnique(s[1..], t[1..], escape, x, y);
      assert s == [s[0]] + s[1..] && t == [t[0]] + t[1..];
    }
  }

  lemma QuotedUnique(s: string, t: string, escape: Escape, x: seq<byte>, y: seq<byte>)
    requires Unambiguous(escape) && Quoted(s, escape) + x == Quoted(t, escape) + y
    ensures s == t && x == y
  {
    assert Ascii("\"") == [QUOTE];
    assert Quoted(s, escape) + x == [QUOTE] + Literal(s, escape, x);
    assert Quoted(t, escape) + y == [QUOTE] + Literal(t, escape, y);
    Cancel([QUOTE], Literal(s, escape, x), Literal(t, escape, y));
    LiteralUnique(s, t, escape, x, y);
  }

  // ---- numbers ----

  predicate IsDigitByte(b: byte) {
    48 <= b <= 57
  }

  /** How many digits stand in front. */
  function Leading(b: seq<byte>): nat {
    if b == [] || !IsDigitByte(b[0]) then 0 else 1 + Leading(b[1..])
  }

  lemma {:induction false} LeadingDigits(a: seq<byte>, x: seq<byte>)
    requires (forall i :: 0 <= i < |a| ==> IsDigitByte(a[i])) && (x == [] || !IsDigitByte(x[0]))
    ensures Leading(a + x) == |a|
  {
    if a == [] {
      assert a + x == x;
    } else {
      assert (a + x)[1..] == a[1..] + x;
      LeadingDigits(a[1..], x);
    }
  }

  lemma DigitsUnique(s: string, t: string, x: seq<byte>, y: seq<byte>)
    requires IsDigits(s) && IsDigits(t) && Ascii(s) + x == Ascii(t) + y
    requires (x == [] || !IsDigitByte(x[0])) && (y == [] || !IsDigitByte(y[0]))
    ensures s == t && x == y
  {
    var a, b := Ascii(s), Ascii(t);
    LeadingDigits(a, x);
    LeadingDigits(b, y);
    assert a == (a + x)[..|a|] && b == (b + y)[..|b|];
    forall i | 0 <= i < |a|
      ensures s[i] == t[i]
    {
      assert a[i] == b[i];
    }
    Cancel(a, x, y);
  }

  lemma NumberUnique(m: nat, n: nat, x: seq<byte>, y: seq<byte>)
    requires Ascii(Decimal(m)) + x == Ascii(Decimal(n)) + y
    requires (x == [] || !IsDigitByte(x[0])) && (y == [] || !IsDigitByte(y[0]))
    ensures m == n && x == y
  {
    DecimalExact(m);
    DecimalExact(n);
    DigitsUnique(Decimal(m), Decimal(n), x, y);
  }

  // ---- members ----

  /** The first letter of the member that comes next, or the brace that ends them. */
  function Tag(b: seq<byte>): byte {
    if |b| >= 3 && b[0] == COMMA then b[2] else if b == [] then 0 else b[0]
  }

  lemma AsciiAppend(s: string, t: string)
    ensures Ascii(s + t) == Ascii(s) + Ascii(t)
  {
  }

  function Label(name: string): seq<byte> {
    Ascii(",\"" + name + "\":")
  }

  lemma LabelTag(name: string, x: seq<byte>)
    requires name != []
    ensures |Label(name) + x| >= 3 && (Label(name) + x)[0] == COMMA
    ensures Tag(Label(name) + x) == (name[0] as int % 256) as byte
  {
  }

  lemma GivenUnique(name: string, s: string, t: string, escape: Escape, x: seq<byte>, y: seq<byte>)
    requires Unambiguous(escape)
    requires StringMember(name, Some(s), escape) + x == StringMember(name, Some(t), escape) + y
    ensures s == t && x == y
  {
    GivenParts(name, s, escape, x);
    GivenParts(name, t, escape, y);
    Cancel(Label(name), Quoted(s, escape) + x, Quoted(t, escape) + y);
    QuotedUnique(s, t, escape, x, y);
  }

  lemma GivenParts(name: string, s: string, escape: Escape, x: seq<byte>)
    ensures StringMember(name, Some(s), escape) + x == Label(name) + (Quoted(s, escape) + x)
  {
    Assoc(Label(name), Quoted(s, escape), x);
  }

  lemma MemberTag(name: string, v: Option<string>, escape: Escape, x: seq<byte>)
    requires name != []
    ensures v.None? ==> StringMember(name, v, escape) + x == x
    ensures v.Some? ==> Tag(StringMember(name, v, escape) + x) == (name[0] as int % 256) as byte
    ensures v.Some? ==> |StringMember(name, v, escape)| >= 3 && StringMember(name, v, escape)[0] == COMMA
  {
    if v.Some? {
      LabelTag(name, Quoted(v.value, escape) + x);
      LabelTag(name, Quoted(v.value, escape));
      GivenParts(name, v.value, escape, x);
    }
  }

  lemma MemberUnique(name: string, v: Option<string>, w: Option<string>, escape: Escape, x: seq<byte>, y: seq<byte>)
    requires Unambiguous(escape) && name != []
    requires Tag(x) != (name[0] as int % 256) as byte && Tag(y) != (name[0] as int % 256) as byte
    requires StringMember(name, v, escape) + x == StringMember(name, w, escape) + y
    ensures v == w && x == y
  {
    MemberTag(name, v, escape, x);
    MemberTag(name, w, escape, y);
    if v.Some? && w.Some? {
      GivenUnique(name, v.value, w.value, escape, x, y);
    }
  }

  // ---- attachments ----

  /** The members from the file size on, and what follows the attachment. */
  function SizeOn(a: Attachment, escape: Escape, x: seq<byte>): seq<byte> {
    Label("file_size") + (Ascii(Decimal(a.fileSize)) + KeyOn(a, escape, x))
  }

  function KeyOn(a: Attachment, escape: Escape, x: seq<byte>): seq<byte> {
    StringMember("file_key_hex", Some(a.fileKeyHex), escape)
    + (StringMember("thumbnail_base64", a.thumbnail, escape) + ([BRACE] + x))
  }

  lemma Regroup(a: seq<byte>, b: seq<byte>, c: seq<byte>, d: seq<byte>, e: seq<byte>)
    ensures a + b + c + d + e == a + (b + (c + (d + e)))
  {
  }

  lemma SizeParts(a: Attachment, escape: Escape, x: seq<byte>)
    ensures Ascii(",\"file_size\":" + Decimal(a.fileSize))
          + (StringMember("file_key_hex", Some(a.fileKeyHex), escape)
             + (StringMember("thumbnail_base64", a.thumbnail, escape) + (Ascii("}") + x)))
         == SizeOn(a, escape, x)
  {
    NumberLabel("file_size", ",\"file_size\":", a.fileSize);
    Assoc(Label("file_size"), Ascii(Decimal(a.fileSize)), KeyOn(a, escape, x));
    BraceText();
  }

  lemma BraceText()
    ensures Ascii("}") == [BRACE]
  {
  }

  lemma NumberLabel(name: string, text: string, n: nat)
    requires text == ",\"" + name + "\":"
    ensures Ascii(text + Decimal(n)) == Label(name) + Ascii(Decimal(n))
  {
    AsciiAppend(text, Decimal(n));
  }

  lemma AttachmentParts(a: Attachment, escape: Escape, x: seq<byte>)
    ensures AttachmentJson(a, escape) + x
         == Ascii("{\"media_id\":") + (Quoted(a.mediaId, escape)
            + (StringMember("file_name", Some(a.fileName), escape)
               + (StringMember("mime_type", Some(a.mimeType), escape) + SizeOn(a, escape, x))))
  {
    var start, id := Ascii("{\"media_id\":"), Quoted(a.mediaId, escape);
    var name := StringMember("file_name", Some(a.fileName), escape);
    var mime := StringMember("mime_type", Some(a.mimeType), escape);
    var size := Ascii(",\"file_size\":" + Decimal(a.fileSize));
    var key := StringMember("file_key_hex", Some(a.fileKeyHex), escape);
    var thumbnail := StringMember("thumbnail_base64", a.thumbnail, escape);
    SizeParts(a, escape, x);
    RegroupAll(start, id, name, mime, size, key, thumbnail, Ascii("}"), x);
  }

  lemma RegroupAll(a: seq<byte>, b: seq<byte>, c: seq<byte>, d: seq<byte>, e: seq<byte>, f: seq<byte>, g: seq<byte>,
                   h: seq<byte>, x: seq<byte>)
    ensures a + b + c + d + e + f + g + h + x == a + (b + (c + (d + (e + (f + (g + (h + x)))))))
  {
    Regroup(a + b + c + d + e, f, g, h, x);
    Regroup(a, b, c, d, e + (f + (g + (h + x))));
    Regroup(a + b, c, d, e, f + (g + (h + x)));
  }

  lemma KeyOnUnique(a: Attachment, b: Attachment, escape: Escape, x: seq<byte>, y: seq<byte>)
    requires Unambiguous(escape) && KeyOn(a, escape, x) == KeyOn(b, escape, y)
    ensures a.fileKeyHex == b.fileKeyHex && a.thumbnail == b.thumbnail && x == y
  {
    var u := StringMember("thumbnail_base64", a.thumbnail, escape) + ([BRACE] + x);
    var v := StringMember("thumbnail_base64", b.thumbnail, escape) + ([BRACE] + y);
    GivenUnique("file_key_hex", a.fileKeyHex, b.fileKeyHex, escape, u, v);
    MemberUnique("thumbnail_base64", a.thumbnail, b.thumbnail, escape, [BRACE] + x, [BRACE] + y);
    Cancel([BRACE], x, y);
  }

  lemma KeyOnHead(a: Attachment, escape: Escape, x: seq<byte>)
    ensures KeyOn(a, escape, x) != [] && !IsDigitByte(KeyOn(a, escape, x)[0])
  {
    MemberTag("file_key_hex", Some(a.fileKeyHex), escape, []);
  }

  lemma SizeOnUnique(a: Attachment, b: Attachment, escape: Escape, x: seq<byte>, y: seq<byte>)
    requires Unambiguous(escape) && SizeOn(a, escape, x) == SizeOn(b, escape, y)
    ensures a.fileSize == b.fileSize && a.fileKeyHex == b.fileKeyHex && a.thumbnail == b.thumbnail && x == y
  {
    var u, v := KeyOn(a, escape, x), KeyOn(b, escape, y);
    Cancel(Label("file_size"), Ascii(Decimal(a.fileSize)) + u, Ascii(Decimal(b.fileSize)) + v);
    KeyOnHead(a, escape, x);
    KeyOnHead(b, escape, y);
    NumberUnique(a.fileSize, b.fileSize, u, v);
    KeyOnUnique(a, b, escape, x, y);
  }

  lemma AttachmentUnique(a: Attachment, b: Attachment, escape: Escape, x: seq<byte>, y: seq<byte>)
    requires Unambiguous(escape) && AttachmentJson(a, escape) + x == AttachmentJson(b, escape) + y
    ensures a == b && x == y
  {
    AttachmentParts(a, escape, x);
    AttachmentParts(b, escape, y);
    var mimeA := StringMember("mime_type", Some(a.mimeType), escape) + SizeOn(a, escape, x);
    var mimeB := StringMember("mime_type", Some(b.mimeType), escape) + SizeOn(b, escape, y);
    var nameA := StringMember("file_name", Some(a.fileName), escape) + mimeA;
    var nameB := StringMember("file_name", Some(b.fileName), escape) + mimeB;
    Cancel(Ascii("{\"media_id\":"), Quoted(a.mediaId, escape) + nameA, Quoted(b.mediaId, escape) + nameB);
    QuotedUnique(a.mediaId, b.mediaId, escape, nameA, nameB);
    GivenUnique("file_name", a.fileName, b.fileName, escape, mimeA, mimeB);
    GivenUnique("mime_type", a.mimeType, b.mimeType, escape, SizeOn(a, escape, x), SizeOn(b, escape, y));
    SizeOnUnique(a, b, escape, x, y);
  }

  // ---- payloads ----

  function AttachmentOn(p: Fields, escape: Escape): seq<byte> {
    (if p.attachment.None? then [] else Label("attachment") + AttachmentJson(p.attachment.value, escape)) + [BRACE]
  }

  function MediaOn(p: Fields, escape: Escape): seq<byte> {
    StringMember("media_type", p.mediaType, escape) + AttachmentOn(p, escape)
  }

  function GroupOn(p: Fields, escape: Escape): seq<byte> {
    StringMember("group_id", p.groupId, escape) + MediaOn(p, escape)
  }

  function TtlOn(p: Fields, escape: Escape): seq<byte> {
    if p.ttlSeconds.None? then GroupOn(p, escape)
    else Label("ttl_seconds") + (Ascii(Decimal(p.ttlSeconds.value)) + GroupOn(p, escape))
  }

  lemma JsonParts(p: Fields, escape: Escape)
    ensures Json(p, escape) == Ascii("{\"body\":") + (Quoted(p.body, escape) + TtlOn(p, escape))
  {
    JsonTwoParts(p, escape);
    TtlParts(p, escape);
  }

  lemma JsonTwoParts(p: Fields, escape: Escape)
    ensures Json(p, escape) == JsonHead(p, escape) + GroupOn(p, escape)
  {
    TailParts(p, escape);
    Assoc(JsonHead(p, escape), StringMember("group_id", p.groupId, escape), JsonTail(p, escape));
  }

  lemma TtlParts(p: Fields, escape: Escape)
    ensures JsonHead(p, escape) + GroupOn(p, escape)
         == Ascii("{\"body\":") + (Quoted(p.body, escape) + TtlOn(p, escape))
  {
    var start, body, rest := Ascii("{\"body\":"), Quoted(p.body, escape), GroupOn(p, escape);
    if p.ttlSeconds.None? {
      assert start + body + [] == start + body;
      Assoc(start, body, rest);
    } else {
      var size := Ascii(Decimal(p.ttlSeconds.value));
      NumberLabel("ttl_seconds", ",\"ttl_seconds\":", p.ttlSeconds.value);
      Regroup(start, body, Label("ttl_seconds"), size, rest);
      Assoc(start + body, Label("ttl_seconds"), size);
    }
  }

  lemma TailParts(p: Fields, escape: Escape)
    ensures JsonTail(p, escape) == MediaOn(p, escape)
  {
    BraceText();
    assert ",\"attachment\":" == ",\"" + "attachment" + "\":";
    var media, brace := StringMember("media_type", p.mediaType, escape), [BRACE];
    if p.attachment.Some? {
      Assoc(media, Label("attachment") + AttachmentJson(p.attachment.value, escape), brace);
    }
  }

  lemma AttachmentTag(p: Fields, escape: Escape)
    ensures AttachmentOn(p, escape) != [] && !IsDigitByte(AttachmentOn(p, escape)[0])
    ensures Tag(AttachmentOn(p, escape)) == if p.attachment.None? then BRACE else 97
  {
    if p.attachment.Some? {
      AttachmentOnParts(p, escape);
      AttachmentLabel(AttachmentJson(p.attachment.value, escape) + [BRACE]);
    }
  }

  lemma AttachmentOnParts(p: Fields, escape: Escape)
    requires p.attachment.Some?
    ensures AttachmentOn(p, escape) == Label("attachment") + (AttachmentJson(p.attachment.value, escape) + [BRACE])
  {
    Assoc(Label("attachment"), AttachmentJson(p.attachment.value, escape), [BRACE]);
  }

  lemma AttachmentLabel(x: seq<byte>)
    ensures Label("attachment") + x != [] && (Label("attachment") + x)[0] == COMMA
    ensures Tag(Label("attachment") + x) == 97
  {
    LabelTag("attachment", x);
  }

  lemma MediaLabel(v: Option<string>, escape: Escape, x: seq<byte>)
    requires x != [] && !IsDigitByte(x[0])
    ensures StringMember("media_type", v, escape) + x != []
    ensures !IsDigitByte((StringMember("media_type", v, escape) + x)[0])
    ensures Tag(StringMember("media_type", v, escape) + x) == if v.None? then Tag(x) else 109
  {
    MemberTag("media_type", v, escape, x);
  }

  lemma GroupLabel(v: Option<string>, escape: Escape, x: seq<byte>)
    requires x != [] && !IsDigitByte(x[0])
    ensures StringMember("group_id", v, escape) + x != []
    ensures !IsDigitByte((StringMember("group_id", v, escape) + x)[0])
    ensures Tag(StringMember("group_id", v, escape) + x) == if v.None? then Tag(x) else 103
  {
    MemberTag("group_id", v, escape, x);
  }

  lemma MediaTag(p: Fields, escape: Escape)
    ensures MediaOn(p, escape) != [] && !IsDigitByte(MediaOn(p, escape)[0])
    ensures Tag(MediaOn(p, escape)) in {97, 109, BRACE}
  {
    AttachmentTag(p, escape);
    MediaLabel(p.mediaType, escape, AttachmentOn(p, escape));
  }

  lemma GroupTag(p: Fields, escape: Escape)
    ensures GroupOn(p, escape) != [] && !IsDigitByte(GroupOn(p, escape)[0])
    ensures Tag(GroupOn(p, escape)) in {97, 103, 109, BRACE}
  {
    MediaTag(p, escape);
    GroupLabel(p.groupId, escape, MediaOn(p, escape));
  }

  lemma AttachmentOnUnique(p: Fields, q: Fields, escape: Escape)
    requires Unambiguous(escape) && AttachmentOn(p, escape) == AttachmentOn(q, escape)
    ensures p.attachment == q.attachment
  {
    AttachmentTag(p, escape);
    AttachmentTag(q, escape);
    if p.attachment.Some? {
      AttachmentOnParts(p, escape);
      AttachmentOnParts(q, escape);
      LabelledUnique(Label("attachment"), p.attachment.value, q.attachment.value, escape);
    }
  }

  lemma LabelledUnique(front: seq<byte>, a: Attachment, b: Attachment, escape: Escape)
    requires Unambiguous(escape)
    requires front + (AttachmentJson(a, escape) + [BRACE]) == front + (AttachmentJson(b, escape) + [BRACE])
    ensures a == b
  {
    Cancel(front, AttachmentJson(a, escape) + [BRACE], AttachmentJson(b, escape) + [BRACE]);
    AttachmentUnique(a, b, escape, [BRACE], [BRACE]);
  }

  lemma MediaUnique(v: Option<string>, w: Option<string>, escape: Escape, x: seq<byte>, y: seq<byte>)
    requires Unambiguous(escape) && Tag(x) != 109 && Tag(y) != 109
    requires StringMember("media_type", v, escape) + x == StringMember("media_type", w, escape) + y
    ensures v == w && x == y
  {
    MemberUnique("media_type", v, w, escape, x, y);
  }

  lemma GroupUnique(v: Option<string>, w: Option<string>, escape: Escape, x: seq<byte>, y: seq<byte>)
    requires Unambiguous(escape) && Tag(x) != 103 && Tag(y) != 103
    requires StringMember("group_id", v, escape) + x == StringMember("group_id", w, escape) + y
    ensures v == w && x == y
  {
    MemberUnique("group_id", v, w, escape, x, y);
  }

  lemma MediaOnUnique(p: Fields, q: Fields, escape: Escape)
    requires Unambiguous(escape) && MediaOn(p, escape) == MediaOn(q, escape)
    ensures p.mediaType == q.mediaType && p.attachment == q.attachment
  {
    AttachmentTag(p, escape);
    AttachmentTag(q, escape);
    MediaUnique(p.mediaType, q.mediaType, escape, AttachmentOn(p, escape), AttachmentOn(q, escape));
    AttachmentOnUnique(p, q, escape);
  }

  lemma GroupOnUnique(p: Fields, q: Fields, escape: Escape)
    requires Unambiguous(escape) && GroupOn(p, escape) == GroupOn(q, escape)
    ensures p.groupId == q.groupId && p.mediaType == q.mediaType && p.attachment == q.attachment
  {
    MediaTag(p, escape);
    MediaTag(q, escape);
    GroupUnique(p.groupId, q.groupId, escape, MediaOn(p, escape), MediaOn(q, escape));
    MediaOnUnique(p, q, escape);
  }

  lemma TtlTag(p: Fields, escape: Escape)
    ensures Tag(TtlOn(p, escape)) == 116 <==> p.ttlSeconds.Some?
  {
    GroupTag(p, escape);
    if p.ttlSeconds.Some? {
      TtlLabel(Ascii(Decimal(p.ttlSeconds.value)) + GroupOn(p, escape));
    }
  }

  lemma TtlLabel(x: seq<byte>)
    ensures Tag(Label("ttl_seconds") + x) == 116
  {
    LabelTag("ttl_seconds", x);
  }

  lemma TtlOnUnique(p: Fields, q: Fields, escape: Escape)
    requires Unambiguous(escape) && TtlOn(p, escape) == TtlOn(q, escape)
    ensures p.ttlSeconds == q.ttlSeconds && GroupOn(p, escape) == GroupOn(q, escape)
  {
    TtlTag(p, escape);
    TtlTag(q, escape);
    if p.ttlSeconds.Some? {
      var m, n := p.ttlSeconds.value, q.ttlSeconds.value;
      GroupTag(p, escape);
      GroupTag(q, escape);
      Cancel(Label("ttl_seconds"), Ascii(Decimal(m)) + GroupOn(p, escape), Ascii(Decimal(n)) + GroupOn(q, escape));
      NumberUnique(m, n, GroupOn(p, escape), GroupOn(q, escape));
    }
  }

  /** Two payloads with one text are the same payload. */
  lemma JsonUnique(p: Fields, q: Fields, escape: Escape)
    requires Unambiguous(escape) && Json(p, escape) == Json(q, escape)
    ensures p == q
  {
    JsonParts(p, escape);
    JsonParts(q, escape);
    var u, v := Quoted(p.body, escape) + TtlOn(p, escape), Quoted(q.body, escape) + TtlOn(q, escape);
    Cancel(Ascii("{\"body\":"), u, v);
    QuotedUnique(p.body, q.body, escape, TtlOn(p, escape), TtlOn(q, escape));
    TtlOnUnique(p, q, escape);
    GroupOnUnique(p, q, escape);
  }

  ghost function Reading(b: seq<byte>, escape: Escape): Option<Fields> {
    if exists p :: Json(p, escape) == b then
      var p :| Json(p, escape) == b;
      Some(p)
    else None
  }

  /** So some decoder reads back every payload, and accepts nothing else. */
  lemma DecoderExists(escape: Escape) returns (decode: Decoder)
    requires Unambiguous(escape)
    ensures forall p :: ReadsBack(p, escape, decode)
    ensures forall b :: decode(b).Some? ==> Json(decode(b).value, escape) == b
  {
    decode := b => Reading(b, escape);
    forall p
      ensures ReadsBack(p, escape, decode)
    {
      JsonUnique(p, Reading(Json(p, escape), escape).value, escape);
    }
  }
}
