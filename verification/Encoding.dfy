/** The tag and primitive encodings of ASHRAE 135, section 20.2, that the local device uses. */
module Encoding {
  import opened Prelude

  /** A 32-bit float, copied and never computed with: its four bytes, most significant first. */
  type Real32 = b: Bytes | |b| == 4 witness [0, 0, 0, 0]

  const ZERO: Real32 := [0, 0, 0, 0]

  // Object types (section 21).
  const ANALOG_OUTPUT := 1
  const ANALOG_VALUE := 2
  const DEVICE := 8
  const LIGHTING_OUTPUT := 54

  const MAX_KIND := 0x400
  const MAX_INSTANCE := 0x40_0000

  type Kind = k: int | 0 <= k < MAX_KIND
  type Instance = i: int | 0 <= i < MAX_INSTANCE

  datatype ObjectId = ObjectId(kind: Kind, instance: Instance)

  /** `ObjectIdentifier::new`: an instance of more than 22 bits is an error. */
  function NewObjectId(kind: Kind, instance: u32): Option<ObjectId>
  {
    if instance < MAX_INSTANCE then Some(ObjectId(kind, instance)) else None
  }

  /** Ten bits of type and twenty-two of instance, most significant byte first. */
  function EncodeId(o: ObjectId): (b: Bytes)
    ensures |b| == 4
  {
    var word := o.kind * MAX_INSTANCE + o.instance;
    [word / 0x100_0000, word / 0x1_0000 % 0x100, word / 0x100 % 0x100, word % 0x100]
  }

  /** Four octets as one number. */
  function Word(a: int, b: int, c: int, d: int): int { a * 0x100_0000 + b * 0x1_0000 + c * 0x100 + d }

  function DecodeId(b: Bytes): (o: ObjectId)
    requires |b| == 4
  {
    var word := Word(b[0], b[1], b[2], b[3]);
    ObjectId(word / MAX_INSTANCE, word % MAX_INSTANCE)
  }

  lemma {:induction false} WordOctets(word: int)
    requires 0 <= word < 0x1_0000_0000
    ensures word == Word(word / 0x100_0000, word / 0x1_0000 % 0x100, word / 0x100 % 0x100, word % 0x100)
  {
    assert word / 0x100 / 0x100 == word / 0x1_0000 && word / 0x1_0000 / 0x100 == word / 0x100_0000;
  }

  /** Object identifiers survive encoding. */
  lemma {:induction false} IdRoundTrip(o: ObjectId)
    ensures DecodeId(EncodeId(o)) == o
  {
    WordOctets(o.kind * MAX_INSTANCE + o.instance);
  }

  /** The least number of bytes that holds n, most significant first. */
  function UnsignedBytes(n: nat): (b: Bytes)
    ensures |b| > 0
    ensures n < 0x1_0000 ==> |b| == if n < 0x100 then 1 else 2
  {
    if n < 0x100 then [n] else UnsignedBytes(n / 0x100) + [n % 0x100]
  }

  function BigEndian(b: Bytes): nat { if b == [] then 0 else BigEndian(b[..|b| - 1]) * 0x100 + b[|b| - 1] }

  lemma {:induction false} UnsignedRoundTrip(n: nat)
    ensures BigEndian(UnsignedBytes(n)) == n
  {
    if n >= 0x100 {
      UnsignedRoundTrip(n / 0x100);
      assert UnsignedBytes(n)[..|UnsignedBytes(n)| - 1] == UnsignedBytes(n / 0x100);
    } else {
      assert UnsignedBytes(n)[..0] == [];
      assert BigEndian([]) == 0;
    }
  }

  /** A primitive tag octet of a small tag number and a small length. */
  function TagOctet(number: nat, context: bool, length: nat): byte
    requires number < 15 && length < 5
  {
    number * 16 + (if context then 8 else 0) + length
  }

  /** Tag and length: one octet, or a second one for a length from 5 to 253. */
  function TagHeader(number: nat, context: bool, length: nat): Bytes
    requires number < 15 && length < 254
  {
    if length < 5 then [TagOctet(number, context, length)]
    else [number * 16 + (if context then 8 else 0) + 5, length]
  }

  function CtxObjectId(number: nat, o: ObjectId): Bytes
    requires number < 15
  {
    TagHeader(number, true, 4) + EncodeId(o)
  }

  function CtxUnsigned(number: nat, n: u16): Bytes
    requires number < 15
  {
    TagHeader(number, true, |UnsignedBytes(n)|) + UnsignedBytes(n)
  }

  function AppReal(v: Real32): Bytes { TagHeader(4, false, 4) + v }

  function AppEnumerated(n: u16): Bytes { TagHeader(9, false, |UnsignedBytes(n)|) + UnsignedBytes(n) }

  function AppObjectId(o: ObjectId): Bytes
  {
    TagHeader(12, false, 4) + EncodeId(o)
  }

  /** A boolean's value is its tag's length field. */
  function AppBoolean(b: bool): Bytes { [TagOctet(1, false, if b then 1 else 0)] }

  /** Character set zero (UTF-8), then the text. */
  function AppCharacterString(text: Bytes): Bytes
    requires |text| < 253
  {
    TagHeader(7, false, |text| + 1) + [0] + text
  }

  function AppBitString(unused: byte, bits: Bytes): Bytes
    requires |bits| < 253
  {
    TagHeader(8, false, |bits| + 1) + [unused] + bits
  }

  // Decoding tags (section 20.2.1).

  datatype TagKind = Primitive | Opening | Closing

  datatype Tag = Tag(number: nat, context: bool, kind: TagKind, length: nat)

  /** A primitive context tag of that number. */
  predicate IsContext(t: Tag, number: nat) { t.context && t.kind.Primitive? && t.number == number }

  /** The length of a primitive tag, whose octets after the initial one start at pos. */
  function DecodeLength(b: Bytes, lvt: nat, pos: nat): Option<(nat, nat)>
  {
    if lvt < 5 then Some((lvt, pos))
    else if pos >= |b| then None
    else if b[pos] < 254 then Some((b[pos], pos + 1))
    else if b[pos] == 254 then
      if pos + 3 > |b| then None else Some((Word(0, 0, b[pos + 1], b[pos + 2]), pos + 3))
    else if pos + 5 > |b| then None
    else Some((Word(b[pos + 1], b[pos + 2], b[pos + 3], b[pos + 4]), pos + 5))
  }

  /** The tag at an offset and the position after it, or nothing when the bytes end too early. */
  function DecodeTag(b: Bytes, offset: nat): Option<(Tag, nat)>
  {
    if offset >= |b| then None
    else
      var context := b[offset] / 8 % 2 == 1;
      var lvt := b[offset] % 8;
      var extended := b[offset] / 16 == 15;
      if extended && offset + 1 >= |b| then None
      else
        var number: nat := if extended then b[offset + 1] else b[offset] / 16;
        var pos := if extended then offset + 2 else offset + 1;
        if context && lvt == 6 then Some((Tag(number, true, Opening, 0), pos))
        else if context && lvt == 7 then Some((Tag(number, true, Closing, 0), pos))
        else
          match DecodeLength(b, lvt, pos)
          case None => None
          case Some((length, after)) => Some((Tag(number, context, Primitive, length), after))
  }

  /** The three fields of an initial octet. */
  lemma {:induction false} OctetFields(number: nat, flag: nat, lvt: nat)
    requires number <= 15 && flag < 2 && lvt < 8
    ensures var x := number * 16 + flag * 8 + lvt; x / 16 == number && x / 8 % 2 == flag && x % 8 == lvt
  {
    var x := number * 16 + flag * 8 + lvt;
    assert x / 8 == number * 2 + flag;
  }

  lemma {:induction false} TagAt(b: Bytes, at: nat, number: nat, context: bool, length: nat)
    requires number < 15 && length < 254
    requires var h := TagHeader(number, context, length);
             at + |h| <= |b| && forall k | 0 <= k < |h| :: b[at + k] == h[k]
    ensures DecodeTag(b, at)
         == Some((Tag(number, context, Primitive, length), at + |TagHeader(number, context, length)|))
  {
    var h := TagHeader(number, context, length);
    assert b[at + 0] == h[0];
    OctetFields(number, if context then 1 else 0, if length < 5 then length else 5);
    if length >= 5 {
      assert b[at + 1] == h[1] == length;
    }
  }

  /** A tag header reads back as its tag, wherever it stands. */
  lemma {:induction false} TagRoundTrip(pre: Bytes, number: nat, context: bool, length: nat, post: Bytes)
    requires number < 15 && length < 254
    ensures var h := TagHeader(number, context, length);
            DecodeTag(pre + h + post, |pre|) == Some((Tag(number, context, Primitive, length), |pre| + |h|))
  {
    TagAt(pre + TagHeader(number, context, length) + post, |pre|, number, context, length);
  }

  /** The length after the initial octet and the tag number: nothing, one octet, two or four. */
  function LengthOctets(length: u32): Bytes
  {
    if length < 5 then []
    else if length < 254 then [length]
    else if length < 65536 then [254, length / 256, length % 256]
    else [255, length / 0x100_0000, length / 0x1_0000 % 256, length / 256 % 256, length % 256]
  }

  /** Any primitive tag: numbers from 15 on take an octet of their own. */
  function LongTagHeader(number: byte, context: bool, length: u32): Bytes
  {
    [(if number < 15 then number else 15) * 16 + (if context then 8 else 0) + (if length < 5 then length else 5)]
    + (if number < 15 then [] else [number])
    + LengthOctets(length)
  }

  lemma {:induction false} LengthRoundTrip(b: Bytes, pos: nat, length: u32)
    requires pos + |LengthOctets(length)| <= |b|
    requires forall k | 0 <= k < |LengthOctets(length)| :: b[pos + k] == LengthOctets(length)[k]
    ensures DecodeLength(b, if length < 5 then length else 5, pos) == Some((length, pos + |LengthOctets(length)|))
  {
    var h := LengthOctets(length);
    if length >= 5 { assert b[pos + 0] == h[0]; }
    if length >= 254 { assert b[pos + 1] == h[1] && b[pos + 2] == h[2]; }
    if length >= 65536 {
      assert b[pos + 3] == h[3] && b[pos + 4] == h[4];
      WordOctets(length);
    }
  }

  /** A primitive tag by its fields, its length still to be read. */
  lemma {:induction false} PrimitiveTagAt(b: Bytes, at: nat, number: byte, context: bool, lvt: nat)
    requires at < |b| && lvt <= 5
    requires b[at] == (if number < 15 then number else 15) * 16 + (if context then 1 else 0) * 8 + lvt
    requires number >= 15 ==> at + 1 < |b| && b[at + 1] == number
    ensures DecodeTag(b, at) ==
            match DecodeLength(b, lvt, at + if number < 15 then 1 else 2)
            case None => None
            case Some((length, after)) => Some((Tag(number, context, Primitive, length), after))
  {
    OctetFields(if number < 15 then number else 15, if context then 1 else 0, lvt);
  }

  /** Every primitive tag header reads back, wherever it stands. */
  lemma {:induction false} LongTagRoundTrip(b: Bytes, at: nat, number: byte, context: bool, length: u32)
    requires var h := LongTagHeader(number, context, length);
             at + |h| <= |b| && forall k | 0 <= k < |h| :: b[at + k] == h[k]
    ensures DecodeTag(b, at)
         == Some((Tag(number, context, Primitive, length), at + |LongTagHeader(number, context, length)|))
  {
    var h, octets := LongTagHeader(number, context, length), LengthOctets(length);
    var pos := if number < 15 then 1 else 2;
    assert |h| == pos + |octets| && forall k | 0 <= k < |octets| :: h[pos + k] == octets[k];
    assert b[at + 0] == h[0];
    if number >= 15 { assert b[at + 1] == h[1] == number; }
    assert forall k | 0 <= k < |octets| :: b[at + (pos + k)] == octets[k];
    PrimitiveTagAt(b, at, number, context, if length < 5 then length else 5);
    LengthRoundTrip(b, at + pos, length);
  }

  /** An opening or closing tag of a small number is the one octet. */
  lemma {:induction false} PairedTags(b: Bytes, at: nat)
    requires at < |b| && b[at] < 0xF0
    ensures b[at] % 16 == 14 ==> DecodeTag(b, at) == Some((Tag(b[at] / 16, true, Opening, 0), at + 1))
    ensures b[at] % 16 == 15 ==> DecodeTag(b, at) == Some((Tag(b[at] / 16, true, Closing, 0), at + 1))
  {
  }

  // Reply headers (sections 20.1.3, 20.1.4, 20.1.5 and 20.1.7).

  const READ_PROPERTY := 0x0C
  const WRITE_PROPERTY := 0x0F
  const SUBSCRIBE_COV := 0x05

  const ERROR_CLASS_OBJECT := 1
  const ERROR_CLASS_PROPERTY := 2
  const UNKNOWN_OBJECT := 31
  const UNKNOWN_PROPERTY := 32
  const WRITE_ACCESS_DENIED := 40

  function SimpleAck(invokeId: byte, service: byte): Bytes { [0x20, invokeId, service] }

  function ErrorPdu(invokeId: byte, service: byte, errorClass: u16, errorCode: u16): Bytes
  {
    [0x50, invokeId, service] + AppEnumerated(errorClass) + AppEnumerated(errorCode)
  }

  /** An application enumerated value at an offset, and the position after it. */
  function ReadEnumerated(b: Bytes, offset: nat): Option<(nat, nat)>
  {
    match DecodeTag(b, offset)
    case None => None
    case Some((tag, pos)) =>
      if tag.context || tag.number != 9 || pos + tag.length > |b| then None
      else Some((BigEndian(b[pos..pos + tag.length]), pos + tag.length))
  }

  lemma {:induction false} EnumeratedRoundTrip(pre: Bytes, n: u16, post: Bytes)
    ensures ReadEnumerated(pre + AppEnumerated(n) + post, |pre|) == Some((n, |pre| + |AppEnumerated(n)|))
  {
    var octets := UnsignedBytes(n);
    var h := TagHeader(9, false, |octets|);
    assert pre + AppEnumerated(n) + post == pre + h + (octets + post) == (pre + h) + octets + post;
    TagRoundTrip(pre, 9, false, |octets|, octets + post);
    Middle(pre + h, octets, post);
    UnsignedRoundTrip(n);
  }

  datatype Failure = Failure(invokeId: byte, service: byte, errorClass: nat, errorCode: nat)

  /** What a client reads in an error reply. */
  function DecodeError(b: Bytes): Option<Failure>
  {
    if |b| < 3 || b[0] != 0x50 then None
    else
      match ReadEnumerated(b, 3)
      case None => None
      case Some((errorClass, pos)) =>
        match ReadEnumerated(b, pos)
        case Some((errorCode, end)) => if end == |b| then Some(Failure(b[1], b[2], errorClass, errorCode)) else None
        case None => None
  }

  /** An error reply reads back as the error it was built from, with nothing after it. */
  lemma {:induction false} ErrorRoundTrip(invokeId: byte, service: byte, errorClass: u16, errorCode: u16)
    ensures DecodeError(ErrorPdu(invokeId, service, errorClass, errorCode))
         == Some(Failure(invokeId, service, errorClass, errorCode))
  {
    var b := ErrorPdu(invokeId, service, errorClass, errorCode);
    var head: Bytes := [0x50, invokeId, service];
    EnumeratedRoundTrip(head, errorClass, AppEnumerated(errorCode));
    EnumeratedRoundTrip(head + AppEnumerated(errorClass), errorCode, []);
    assert b == head + AppEnumerated(errorClass) + AppEnumerated(errorCode) + [];
  }

  /** A ReadProperty acknowledgement. */
  function ReadAck(invokeId: byte, o: ObjectId, property: u16, value: Bytes): Bytes
  {
    [0x30, invokeId, 0x0C] + CtxObjectId(0, o) + CtxUnsigned(1, property) + [0x3E] + value + [0x3F]
  }

  datatype Ack = Ack(invokeId: byte, object: ObjectId, property: nat, value: Bytes)

  /** What a client reads in an acknowledgement. */
  function DecodeReadAck(b: Bytes): Option<Ack>
  {
    if |b| < 12 || b[0] != 0x30 || b[2] != 0x0C || b[3] != 0x0C then None
    else
      match DecodeTag(b, 8)
      case None => None
      case Some((tag, pos)) =>
        if !IsContext(tag, 1) || pos + tag.length + 2 > |b| then None
        else if b[pos + tag.length] != 0x3E || b[|b| - 1] != 0x3F then None
        else
          Some(Ack(b[1], DecodeId(b[4..8]), BigEndian(b[pos..pos + tag.length]), b[pos + tag.length + 1..|b| - 1]))
  }

  /** The head of an acknowledgement, up to its property id. */
  function AckHead(invokeId: byte, o: ObjectId): (b: Bytes)
    ensures |b| == 8
  {
    [0x30, invokeId, 0x0C, 0x0C] + EncodeId(o)
  }

  lemma {:induction false} AckLayout(invokeId: byte, o: ObjectId, property: u16, value: Bytes)
    ensures var n := UnsignedBytes(property);
            ReadAck(invokeId, o, property, value)
            == AckHead(invokeId, o) + TagHeader(1, true, |n|) + (n + ([0x3E] + value + [0x3F]))
  {
    var n := UnsignedBytes(property);
    assert CtxObjectId(0, o) == [0x0C] + EncodeId(o);
    assert CtxUnsigned(1, property) == TagHeader(1, true, |n|) + n;
  }

  lemma {:induction false} AckParts(head: Bytes, tag: byte, n: Bytes, value: Bytes)
    requires |head| == 8
    ensures var b := head + [tag] + (n + ([0x3E] + value + [0x3F]));
            && |b| == 11 + |n| + |value|
            && b[..8] == head && b[9..9 + |n|] == n && b[9 + |n|] == 0x3E
            && b[10 + |n|..|b| - 1] == value && b[|b| - 1] == 0x3F
  {
    var tail := [0x3E] + value + [0x3F];
    var b := head + [tag] + (n + tail);
    assert b == head + [tag] + n + tail;
    Middle(head + [tag], n, tail);
    assert b[9 + |n|] == tail[0] && b[|b| - 1] == tail[|tail| - 1];
    assert b[10 + |n|..|b| - 1] == tail[1..|tail| - 1];
  }

  /** A client reads back exactly the invoke id, object, property and value that were put in. */
  lemma {:induction false} ReadAckRoundTrip(invokeId: byte, o: ObjectId, property: u16, value: Bytes)
    ensures DecodeReadAck(ReadAck(invokeId, o, property, value)) == Some(Ack(invokeId, o, property, value))
  {
    var b := ReadAck(invokeId, o, property, value);
    var n := UnsignedBytes(property);
    var head := AckHead(invokeId, o);
    AckLayout(invokeId, o, property, value);
    AckParts(head, TagHeader(1, true, |n|)[0], n, value);
    TagRoundTrip(head, 1, true, |n|, n + ([0x3E] + value + [0x3F]));
    IdRoundTrip(o);
    UnsignedRoundTrip(property);
    assert forall k | 0 <= k < 8 :: b[k] == b[..8][k];
    assert b[4..8] == head[4..8] == EncodeId(o);
  }

  lemma {:induction false} Middle(head: Bytes, middle: Bytes, tail: Bytes)
    ensures (head + middle + tail)[|head|..|head| + |middle|] == middle
  {
  }

  /** The two acknowledgements whose bytes the source pins down. */
  lemma {:induction false} PinnedAcks()
    ensures ReadAck(1, ObjectId(DEVICE, 99999), 139, [0x21, 0x18])
         == [0x30, 0x01, 0x0C, 0x0C, 0x02, 0x01, 0x86, 0x9F, 0x19, 0x8B, 0x3E, 0x21, 0x18, 0x3F]
    ensures ReadAck(1, ObjectId(DEVICE, 99999), 97, [0x85, 5, 5, 0x84, 0x0B, 0x00, 0x20])
         == [0x30, 0x01, 0x0C, 0x0C, 0x02, 0x01, 0x86, 0x9F, 0x19, 0x61, 0x3E, 0x85, 5, 5, 0x84, 0x0B, 0x00, 0x20, 0x3F]
  {
    assert EncodeId(ObjectId(DEVICE, 99999)) == [0x02, 0x01, 0x86, 0x9F];
    assert UnsignedBytes(139) == [0x8B] && UnsignedBytes(97) == [0x61];
  }
}
