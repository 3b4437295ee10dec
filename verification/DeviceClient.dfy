/** What a client of the local device can rely on, byte for byte. */
module DeviceClient {
  import opened Prelude
  import opened Encoding
  import opened Commands
  import opened ObjectStore
  import opened Device
  import opened DeviceRuns

  // Request bytes.

  /** A ReadProperty request; the property id takes one octet or two. */
  function ReadRequest(invokeId: byte, id: ObjectId, property: u16): Bytes
  {
    [0x00, 0x05, invokeId, READ_PROPERTY] + CtxObjectId(0, id) + CtxUnsigned(1, property)
  }

  /** A real as an application value inside context tag 2, or an empty context tag 2 for null. */
  function WriteContent(value: Option<Real32>): Bytes
  {
    match value
    case Some(v) => TagHeader(2, true, 5) + AppReal(v)
    case None => TagHeader(2, true, 0)
  }

  /** A write of Present_Value in the form the device reads: the application value inside context tag 2. */
  function WriteRequest(invokeId: byte, id: ObjectId, c: Command): Bytes
  {
    [0x00, 0x05, invokeId, WRITE_PROPERTY] + CtxObjectId(0, id) + [0x19, PRESENT_VALUE]
    + WriteContent(c.value)
    + TagHeader(3, true, 1) + [c.priority]
  }

  lemma {:induction false} RequestHead(service: byte, invokeId: byte, id: ObjectId, rest: Bytes)
    ensures var b: Bytes := [0x00, 0x05, invokeId, service] + CtxObjectId(0, id) + rest;
            && |b| == 9 + |rest|
            && b[0] == 0 && b[2] == invokeId && b[3] == service
            && ParseObjectId(b) == Some(id)
            && b[9..] == rest
  {
    var b: Bytes := [0x00, 0x05, invokeId, service] + CtxObjectId(0, id) + rest;
    assert CtxObjectId(0, id) == [0x0C] + EncodeId(id);
    assert b[5..9] == EncodeId(id);
    IdRoundTrip(id);
  }

  /** A property id of one octet or two is read back from its place in a request. */
  lemma {:induction false} PropertyOctets(b: Bytes, property: u16)
    requires |b| >= 9 && CtxUnsigned(1, property) <= b[9..]
    ensures |b| >= 11 && ParseProperty(b) == PropertyId(property)
    ensures 10 + b[9] % 8 == 9 + |CtxUnsigned(1, property)|
  {
    var field := CtxUnsigned(1, property);
    if property < 0x100 {
      assert field == [0x19, property];
      assert b[9] == b[9..][0] && b[10] == b[9..][1];
    } else {
      assert UnsignedBytes(property / 0x100) == [property / 0x100];
      assert field == [0x1A, property / 0x100, property % 0x100];
      assert b[9] == b[9..][0] && b[10] == b[9..][1] && b[11] == b[9..][2];
    }
  }

  /** A read request reads as the request it was built to be. */
  lemma {:induction false} ReadRequestParses(invokeId: byte, id: ObjectId, property: u16)
    ensures var b := ReadRequest(invokeId, id, property);
            && Classify(b) == ReadProperty && |b| >= 11 && b[2] == invokeId
            && ParseObjectId(b) == Some(id) && ParseProperty(b) == PropertyId(property)
  {
    var b := ReadRequest(invokeId, id, property);
    RequestHead(READ_PROPERTY, invokeId, id, CtxUnsigned(1, property));
    PropertyOctets(b, property);
  }

  /** The value and priority of a write request come out as they went in, null and every octet of priority too. */
  lemma {:induction false} WriteValueParses(pre: Bytes, c: Command)
    ensures ParseWriteValue(pre + WriteContent(c.value) + TagHeader(3, true, 1) + [c.priority], |pre|) == Some(c)
  {
    var tail := TagHeader(3, true, 1) + [c.priority];
    match c.value
    case None =>
      var b := pre + TagHeader(2, true, 0) + TagHeader(3, true, 1) + [c.priority];
      assert b == pre + TagHeader(2, true, 0) + tail;
      TagRoundTrip(pre, 2, true, 0, tail);
      TagRoundTrip(pre + TagHeader(2, true, 0), 3, true, 1, [c.priority]);
    case Some(v) =>
      var h := TagHeader(2, true, 5);
      var b := pre + (h + AppReal(v)) + TagHeader(3, true, 1) + [c.priority];
      assert b == pre + h + (AppReal(v) + tail);
      TagRoundTrip(pre, 2, true, 5, AppReal(v) + tail);
      assert b == (pre + h) + TagHeader(4, false, 4) + (v + tail);
      TagRoundTrip(pre + h, 4, false, 4, v + tail);
      assert b[|pre| + 3..|pre| + 7] == v;
      assert b == (pre + h + AppReal(v)) + TagHeader(3, true, 1) + [c.priority];
      TagRoundTrip(pre + h + AppReal(v), 3, true, 1, [c.priority]);
  }

  lemma {:induction false} WriteAccepted(cfg: DeviceConfig, b: Bytes, id: ObjectId, c: Command)
    requires id in OBJECT_IDS && DeviceOid(cfg).Some?
    requires |b| >= 14 && ParseObjectId(b) == Some(id) && b[9] == 0x19 && b[10] == PRESENT_VALUE
    requires ParseWriteValue(b, 11) == Some(c)
    ensures Write(cfg, OBJECT_IDS, b) == Accepted(id, Commanding(c))
  {
    assert ParseProperty(b) == PropertyId(PRESENT_VALUE);
  }

  /** A write request to one of the device's objects is accepted as the command it was built from. */
  lemma {:induction false} WriteRequestParses(cfg: DeviceConfig, invokeId: byte, id: ObjectId, c: Command)
    requires id in OBJECT_IDS && DeviceOid(cfg).Some?
    ensures var b := WriteRequest(invokeId, id, c);
            && Classify(b) == WriteProperty && |b| > 2 && b[2] == invokeId
            && Write(cfg, OBJECT_IDS, b) == Accepted(id, Commanding(c))
  {
    var b := WriteRequest(invokeId, id, c);
    WriteRequestShape(invokeId, id, c);
    WriteAccepted(cfg, b, id, c);
  }

  lemma {:induction false} WriteRequestShape(invokeId: byte, id: ObjectId, c: Command)
    ensures var b := WriteRequest(invokeId, id, c);
            && |b| >= 14 && b[0] == 0 && b[2] == invokeId && b[3] == WRITE_PROPERTY
            && ParseObjectId(b) == Some(id) && b[9] == 0x19 && b[10] == PRESENT_VALUE
            && ParseWriteValue(b, 11) == Some(c)
  {
    var content := WriteContent(c.value);
    var rest := content + TagHeader(3, true, 1) + [c.priority];
    var pre: Bytes := [0x00, 0x05, invokeId, WRITE_PROPERTY] + CtxObjectId(0, id) + [0x19, PRESENT_VALUE];
    assert WriteRequest(invokeId, id, c) == pre + content + TagHeader(3, true, 1) + [c.priority];
    assert WriteRequest(invokeId, id, c) == pre + rest;
    var b := WriteRequest(invokeId, id, c);
    assert b == [0x00, 0x05, invokeId, WRITE_PROPERTY] + CtxObjectId(0, id) + ([0x19, PRESENT_VALUE] + rest);
    RequestHead(WRITE_PROPERTY, invokeId, id, [0x19, PRESENT_VALUE] + rest);
    assert b[9] == b[9..][0] && b[10] == b[9..][1];
    WriteValueParses(pre, c);
  }

  // Replies.

  /** A request for a property the addressed object has; without an object id the device object is meant. */
  predicate Supported(cfg: DeviceConfig, objects: Objects, m: Message, id: ObjectId, property: u16)
  {
    && IsRead(m) && ParseProperty(m.apdu) == PropertyId(property)
    && DeviceOid(cfg).Some? && id == ParseObjectId(m.apdu).UnwrapOr(DeviceOid(cfg).value)
    && if id == DeviceOid(cfg).value then DeviceValue(cfg, property).Some?
       else id in objects && ObjectValue(objects[id], property).Some?
  }

  function SupportedValue(cfg: DeviceConfig, objects: Objects, m: Message, id: ObjectId, property: u16): Bytes
    requires Supported(cfg, objects, m, id, property)
  {
    if id == DeviceOid(cfg).value then DeviceValue(cfg, property).value else ObjectValue(objects[id], property).value
  }

  /**
   Acknowledgements echo their request: after any run, a supported ReadProperty with a new invoke id is
   answered by one frame to the requester, and a client decodes from it the request's invoke id, object id
   and property id, and the value.
   */
  lemma {:induction false} AckEchoes(
    cfg: DeviceConfig, ms: seq<Message>, m: Message, id: ObjectId, property: u16)
    requires !Run(cfg, true, Boot(), ms).halted
    requires IsRead(m) && FirstKept(cfg, BootObjects(), ms, m.apdu[2]).None?
    requires Supported(cfg, ObjectsAfter(cfg, BootObjects(), ms), m, id, property)
    ensures var value := SupportedValue(cfg, ObjectsAfter(cfg, BootObjects(), ms), m, id, property);
            var ack := ReadAck(m.apdu[2], id, property, value);
            && ReadStep(cfg, true, Run(cfg, true, Boot(), ms), m).1 == [ReplyTo(cfg, m, ack)]
            && DecodeReadAck(ack) == Some(Ack(m.apdu[2], id, property, value))
  {
    var objects := ObjectsAfter(cfg, BootObjects(), ms);
    WellKeyedAfter(cfg, BootObjects(), ms);
    ReadReply(cfg, Boot(), ms, m);
    ReadAckRoundTrip(m.apdu[2], id, property, SupportedValue(cfg, objects, m, id, property));
  }

  /**
   The other reads: after any run, a ReadProperty with a new invoke id that is not supported gets an error a
   client can decode, naming the object or the property as unknown; only the device object's are cached.
   */
  lemma {:induction false} UnsupportedReads(
    cfg: DeviceConfig, ms: seq<Message>, m: Message, id: ObjectId, property: u16)
    requires !Run(cfg, true, Boot(), ms).halted
    requires IsRead(m) && FirstKept(cfg, BootObjects(), ms, m.apdu[2]).None? && DeviceOid(cfg).Some?
    requires ParseProperty(m.apdu) == PropertyId(property) && id == ParseObjectId(m.apdu).UnwrapOr(DeviceOid(cfg).value)
    requires !Supported(cfg, ObjectsAfter(cfg, BootObjects(), ms), m, id, property)
    ensures var (after, out) := ReadStep(cfg, true, Run(cfg, true, Boot(), ms), m);
            var known := id == DeviceOid(cfg).value || id in OBJECT_IDS;
            && |out| == 1
            && DecodeError(out[0].payload) == Some(Failure(m.apdu[2], READ_PROPERTY,
                                                           if known then ERROR_CLASS_PROPERTY else ERROR_CLASS_OBJECT,
                                                           if known then UNKNOWN_PROPERTY else UNKNOWN_OBJECT))
            && (m.apdu[2] in after.cache <==> id == DeviceOid(cfg).value)
  {
    WellKeyedAfter(cfg, BootObjects(), ms);
    ReadReply(cfg, Boot(), ms, m);
    CacheHistory(cfg, Boot(), ms, m.apdu[2]);
    ObjectsOfRun(cfg, true, Boot(), ms);
    ErrorRoundTrip(m.apdu[2], READ_PROPERTY, ERROR_CLASS_PROPERTY, UNKNOWN_PROPERTY);
    ErrorRoundTrip(m.apdu[2], READ_PROPERTY, ERROR_CLASS_OBJECT, UNKNOWN_OBJECT);
  }

  /** A read of a supported property is answered and its answer kept under its invoke id. */
  lemma {:induction false} SupportedIsKept(cfg: DeviceConfig, objects: Objects, m: Message, id: ObjectId, property: u16)
    requires Supported(cfg, objects, m, id, property)
    ensures KeptId(cfg, objects, m) == Some(m.apdu[2])
    ensures |FrameOf(FreshRead(cfg, objects, m))| == 1
  {
  }

  /**
   Two clients that use one invoke id: the second one's read is answered by one frame, and it goes to the
   first.
   */
  lemma {:induction false} ReplyGoesElsewhere(cfg: DeviceConfig, a: Message, b: Message)
    requires DeviceOid(cfg).Some?
    requires a == Message(ReadRequest(7, ObjectId(ANALOG_VALUE, 1), PRESENT_VALUE), [1], None)
    requires b == Message(ReadRequest(7, ObjectId(ANALOG_VALUE, 1), PRESENT_VALUE), [2], None)
    ensures var out := Step(cfg, true, Run(cfg, true, Boot(), [a]), b).1;
            |out| == 1 && !Addressed(out[0], b) && Addressed(out[0], a)
  {
    var id := ObjectId(ANALOG_VALUE, 1);
    ReadRequestParses(7, id, PRESENT_VALUE);
    assert [a] == [] + [a];
    assert Supported(cfg, BootObjects(), a, id, PRESENT_VALUE);
    SupportedIsKept(cfg, BootObjects(), a, id, PRESENT_VALUE);
    RunExtends(cfg, true, Boot(), [], a);
    HaltsHere(cfg, Boot(), a);
    FirstKeptStep(cfg, BootObjects(), [], a, 7);
    KeptFrameStep(cfg, BootObjects(), [], a, 7);
    ReadReply(cfg, Boot(), [a], b);
    ReplyGoesHome(cfg, Boot(), [a], b);
    FreshReadCarries(cfg, BootObjects(), a);
  }

  // Writes in the form of section 15.9.

  /** A Present_Value or other write of section 15.9: the value inside context tag 3, the priority under tag 4. */
  function StandardWrite(invokeId: byte, id: ObjectId, property: u16, value: Bytes, priority: byte): Bytes
  {
    [0x00, 0x05, invokeId, WRITE_PROPERTY] + CtxObjectId(0, id) + CtxUnsigned(1, property)
    + ([0x3E] + value + [0x3F] + TagHeader(4, true, 1) + [priority])
  }

  /** Where the value is expected stands an opening tag 3. */
  predicate OpensValue(b: Bytes, property: u16)
  {
    && |b| >= 14 && ParseProperty(b) == PropertyId(property)
    && b[10 + b[9] % 8] == 0x3E
  }

  /** The device takes no value from such a write: it refuses it or, for the out-of-service flag, ignores it. */
  lemma {:induction false} OpeningTagIgnored(cfg: DeviceConfig, b: Bytes, id: ObjectId, property: u16)
    requires id in OBJECT_IDS && DeviceOid(cfg).Some? && ParseObjectId(b) == Some(id) && OpensValue(b, property)
    ensures Write(cfg, OBJECT_IDS, b) ==
            if property == 81 then Accepted(id, NoChange) else Refused(ERROR_CLASS_PROPERTY, WRITE_ACCESS_DENIED)
    ensures forall objects: Objects | WellKeyed(objects) :: WriteEffect(objects, Write(cfg, OBJECT_IDS, b)) == objects
  {
    var end := 10 + b[9] % 8;
    assert DecodeTag(b, end) == Some((Tag(3, true, Opening, 0), end + 1));
  }

  lemma {:induction false} StandardWriteOpens(invokeId: byte, id: ObjectId, property: u16, value: Bytes, priority: byte)
    ensures var b := StandardWrite(invokeId, id, property, value, priority);
            && Classify(b) == WriteProperty && b[2] == invokeId
            && ParseObjectId(b) == Some(id) && OpensValue(b, property)
  {
    var field := CtxUnsigned(1, property);
    var rest := [0x3E] + value + [0x3F] + TagHeader(4, true, 1) + [priority];
    var b := StandardWrite(invokeId, id, property, value, priority);
    var pre: Bytes := [0x00, 0x05, invokeId, WRITE_PROPERTY] + CtxObjectId(0, id);
    assert b == pre + (field + rest);
    RequestHead(WRITE_PROPERTY, invokeId, id, field + rest);
    assert b[9..][..|field|] == field && b[9..][|field|] == rest[0] == 0x3E;
    PropertyOctets(b, property);
  }

  /**
   A well-formed write of section 15.9 never changes one of the objects, in any state: Present_Value and all
   other properties are refused, and a write of the out-of-service flag is acknowledged and ignored.
   */
  lemma {:induction false} StandardWriteIgnored(
    cfg: DeviceConfig, s: DeviceState, m: Message,
    invokeId: byte, id: ObjectId, property: u16, value: Bytes, priority: byte)
    requires id in OBJECT_IDS && DeviceOid(cfg).Some? && WellKeyed(s.objects) && !s.halted
    requires m.apdu == StandardWrite(invokeId, id, property, value, priority)
    ensures Step(cfg, true, s, m) ==
            (s, [ReplyTo(cfg, m, if property == 81 then SimpleAck(invokeId, WRITE_PROPERTY)
                                 else ErrorPdu(invokeId, WRITE_PROPERTY, ERROR_CLASS_PROPERTY, WRITE_ACCESS_DENIED))])
  {
    StandardWriteOpens(invokeId, id, property, value, priority);
    OpeningTagIgnored(cfg, m.apdu, id, property);
  }

  /** The device object's name as the source sends it. */
  function NameText(cfg: DeviceConfig): Bytes { if cfg.deviceName == [] then FALLBACK_NAME else cfg.deviceName }

  lemma {:induction false} ShortTextReadable(text: Bytes)
    ensures DecodeTag(ShortText(text), 0) == Some((Tag(7, false, Primitive, |text|), 2)) <==> |text| < 254
  {
    var b := ShortText(text);
    assert b[0] == 0x75 && b[1] == |text| % 0x100;
  }

  /**
   The name's one length octet tells a client the name's length exactly when that is less than 254: 254 and
   255 announce a longer length field, and from 256 on the octet has lost the high bits.
   */
  lemma {:induction false} DeviceNameReadable(cfg: DeviceConfig)
    ensures DeviceValue(cfg, 75).Some?
    ensures DecodeTag(DeviceValue(cfg, 75).value, 0) == Some((Tag(7, false, Primitive, |NameText(cfg)|), 2))
       <==> |NameText(cfg)| < 254
  {
    ShortTextReadable(NameText(cfg));
  }

  /** With a name of 256 octets a client reads an empty one. */
  lemma {:induction false} LongNameReadsEmpty(cfg: DeviceConfig)
    requires |cfg.deviceName| == 256
    ensures DecodeTag(DeviceValue(cfg, 75).value, 0) == Some((Tag(7, false, Primitive, 0), 2))
  {
    var b := ShortText(cfg.deviceName);
    assert b[0] == 0x75 && b[1] == 0;
  }

  /** A read of one of the three objects. */
  predicate ReadsObject(cfg: DeviceConfig, m: Message, id: ObjectId, property: u16)
  {
    && IsRead(m) && ParseProperty(m.apdu) == PropertyId(property) && DeviceOid(cfg).Some?
    && ParseObjectId(m.apdu) == Some(id) && id in OBJECT_IDS
  }

  /** The value a client decodes from the reply to a read after a run. */
  function ValueRead(cfg: DeviceConfig, ms: seq<Message>, m: Message): Option<Bytes>
    requires IsRead(m)
  {
    var out := ReadStep(cfg, true, Run(cfg, true, Boot(), ms), m).1;
    if |out| != 1 then None
    else match DecodeReadAck(out[0].payload) case Some(ack) => Some(ack.value) case None => None
  }

  /** A read of one of the objects after a run returns the property of an object that obeyed the run's commands. */
  lemma {:induction false} ValueOfRead(cfg: DeviceConfig, ms: seq<Message>, m: Message, id: ObjectId, property: u16)
    returns (o: Object, value: Bytes)
    requires !Run(cfg, true, Boot(), ms).halted
    requires ReadsObject(cfg, m, id, property) && FirstKept(cfg, BootObjects(), ms, m.apdu[2]).None?
    requires forall any: Object :: ObjectValue(any, property).Some?
    ensures SameCommandState(o, ObeyAll(MakeObject(id), CommandsFor(cfg, id, ms)))
    ensures ObjectValue(o, property) == Some(value) && ValueRead(cfg, ms, m) == Some(value)
  {
    ObjectObeys(cfg, BootObjects(), ms, id);
    o := ObjectsAfter(cfg, BootObjects(), ms)[id];
    value := ObjectValue(o, property).value;
    AckEchoes(cfg, ms, m, id, property);
  }

  lemma {:induction false} PresentValueBytes(o: Object, value: Bytes)
    requires ObjectValue(o, PRESENT_VALUE) == Some(value)
    ensures value == AppReal(o.presentValue)
  {
  }

  lemma {:induction false} PriorityArrayBytesOf(o: Object, value: Bytes)
    requires ObjectValue(o, PRIORITY_ARRAY) == Some(value)
    ensures DecodeSlots(value, 0) == Some(o.slots)
  {
    PriorityArrayIsReadable(o.slots, value);
  }

  /**
   End to end over any run of received bytes: a read of Present_Value with a new invoke id returns the real
   that the run's parsed commands left; CommandHistory says what the commands left.
   */
  lemma {:induction false} PresentValueAfterRun(cfg: DeviceConfig, ms: seq<Message>, m: Message, id: ObjectId)
    requires !Run(cfg, true, Boot(), ms).halted
    requires ReadsObject(cfg, m, id, PRESENT_VALUE) && FirstKept(cfg, BootObjects(), ms, m.apdu[2]).None?
    ensures ValueRead(cfg, ms, m) == Some(AppReal(ObeyAll(MakeObject(id), CommandsFor(cfg, id, ms)).presentValue))
  {
    var o, value := ValueOfRead(cfg, ms, m, id, PRESENT_VALUE);
    PresentValueBytes(o, value);
  }

  /** And a read of the priority array returns bytes from which every slot is recovered. */
  lemma {:induction false} PriorityArrayAfterRun(cfg: DeviceConfig, ms: seq<Message>, m: Message, id: ObjectId)
    requires !Run(cfg, true, Boot(), ms).halted
    requires ReadsObject(cfg, m, id, PRIORITY_ARRAY) && FirstKept(cfg, BootObjects(), ms, m.apdu[2]).None?
    ensures ValueRead(cfg, ms, m).Some?
    ensures DecodeSlots(ValueRead(cfg, ms, m).value, 0) == Some(ObeyAll(MakeObject(id), CommandsFor(cfg, id, ms)).slots)
  {
    var o, value := ValueOfRead(cfg, ms, m, id, PRIORITY_ARRAY);
    PriorityArrayBytesOf(o, value);
  }

  /** A value commanded in range resolves to itself unless a lower slot is commanded; then the lowest decides. */
  lemma {:induction false} CommandResolves(o: Object, p: byte, v: Real32)
    requires InRange(p)
    ensures var value := Obey(o, Command(p, Some(v))).presentValue;
            && ((forall k | 0 <= k < p - 1 :: o.slots[k].None?) ==> value == v)
            && (forall i: nat | i < p - 1 && Decides(o.slots, i) :: value == o.slots[i].value)
  {
    var slots := o.slots[p - 1 := Some(v)];
    ResolveIsLowest(slots, o.relinquishDefault);
    if forall k | 0 <= k < p - 1 :: o.slots[k].None? {
      assert Decides(slots, p - 1);
    }
    forall i: nat | i < p - 1 && Decides(o.slots, i)
      ensures Obey(o, Command(p, Some(v))).presentValue == o.slots[i].value
    {
      assert Decides(slots, i);
    }
  }

  lemma {:induction false} CommandsExtend(cfg: DeviceConfig, id: ObjectId, ms: seq<Message>, w: Message, c: Command)
    requires CommandIn(cfg, id, w) == Some(c)
    ensures ObeyAll(MakeObject(id), CommandsFor(cfg, id, ms + [w]))
         == Obey(ObeyAll(MakeObject(id), CommandsFor(cfg, id, ms)), c)
  {
    var cs := CommandsFor(cfg, id, ms);
    assert (ms + [w])[..|ms|] == ms;
    assert CommandsFor(cfg, id, ms + [w]) == cs + [c];
    assert (cs + [c])[..|cs|] == cs;
  }

  /**
   Write, then read, both as bytes: after any run, a WriteProperty that carries real v at priority p of an
   object, followed by a ReadProperty of Present_Value with a new invoke id, returns v's four bytes when no
   slot below p is commanded, and otherwise those of the lowest commanded slot.
   */
  lemma {:induction false} WriteThenRead(
    cfg: DeviceConfig, ms: seq<Message>, w: Message, m: Message, id: ObjectId, p: byte, v: Real32)
    requires !Run(cfg, true, Boot(), ms + [w]).halted
    requires CommandIn(cfg, id, w) == Some(Command(p, Some(v))) && InRange(p)
    requires ReadsObject(cfg, m, id, PRESENT_VALUE) && FirstKept(cfg, BootObjects(), ms + [w], m.apdu[2]).None?
    ensures var slots := ObeyAll(MakeObject(id), CommandsFor(cfg, id, ms)).slots;
            && ((forall k | 0 <= k < p - 1 :: slots[k].None?) ==> ValueRead(cfg, ms + [w], m) == Some(AppReal(v)))
            && (forall i: nat | i < p - 1 && Decides(slots, i) ::
                  ValueRead(cfg, ms + [w], m) == Some(AppReal(slots[i].value)))
  {
    PresentValueAfterRun(cfg, ms + [w], m, id);
    CommandsExtend(cfg, id, ms, w, Command(p, Some(v)));
    CommandResolves(ObeyAll(MakeObject(id), CommandsFor(cfg, id, ms)), p, v);
  }

  lemma {:induction false} WriteKeepsCacheOpen(cfg: DeviceConfig, ms: seq<Message>, w: Message, invokeId: byte)
    requires !Run(cfg, true, Boot(), ms).halted && Classify(w.apdu) == WriteProperty
    ensures !Run(cfg, true, Boot(), ms + [w]).halted
    ensures FirstKept(cfg, BootObjects(), ms + [w], invokeId) == FirstKept(cfg, BootObjects(), ms, invokeId)
  {
    assert (ms + [w])[..|ms|] == ms;
    HaltsHere(cfg, Run(cfg, true, Boot(), ms), w);
    FirstKeptStep(cfg, BootObjects(), ms, w, invokeId);
  }

  /**
   The same on the wire: whatever was received before, from whomever, the bytes of a write request followed
   by the bytes of a read request bring back the written real, or that of the lowest commanded slot below.
   */
  lemma {:induction false} WireWriteThenRead(
    cfg: DeviceConfig, ms: seq<Message>, w: Message, m: Message, id: ObjectId, p: byte, v: Real32, i: byte, j: byte)
    requires !Run(cfg, true, Boot(), ms).halted && DeviceOid(cfg).Some? && id in OBJECT_IDS && 1 <= p <= 16
    requires w.apdu == WriteRequest(i, id, Command(p, Some(v))) && m.apdu == ReadRequest(j, id, PRESENT_VALUE)
    requires j !in Run(cfg, true, Boot(), ms).cache
    ensures IsRead(m)
    ensures var slots := ObeyAll(MakeObject(id), CommandsFor(cfg, id, ms)).slots;
            && ((forall k | 0 <= k < p - 1 :: slots[k].None?) ==> ValueRead(cfg, ms + [w], m) == Some(AppReal(v)))
            && (forall k: nat | k < p - 1 && Decides(slots, k) ::
                  ValueRead(cfg, ms + [w], m) == Some(AppReal(slots[k].value)))
  {
    WriteRequestParses(cfg, i, id, Command(p, Some(v)));
    ReadRequestParses(j, id, PRESENT_VALUE);
    CacheHistory(cfg, Boot(), ms, j);
    WriteKeepsCacheOpen(cfg, ms, w, j);
    WriteThenRead(cfg, ms, w, m, id, p, v);
  }

  // A retry is answered from the past.

  lemma {:induction false} SameAckSameValue(invokeId: byte, o: ObjectId, property: u16, u: Bytes, v: Bytes)
    requires ReadAck(invokeId, o, property, u) == ReadAck(invokeId, o, property, v)
    ensures u == v
  {
    ReadAckRoundTrip(invokeId, o, property, u);
    ReadAckRoundTrip(invokeId, o, property, v);
  }

  lemma {:induction false} ReadOfObject(cfg: DeviceConfig, objects: Objects, m: Message, id: ObjectId, property: u16)
    requires ReadsObject(cfg, m, id, property) && WellKeyed(objects)
    ensures FreshRead(cfg, objects, m) == ReadObject(cfg, objects[id], m, property) && objects[id].id == id
  {
  }

  /** The present objects answer a read as earlier ones did exactly when its property's value is what it was. */
  lemma {:induction false} SameAnswer(
    cfg: DeviceConfig, a: Objects, b: Objects, m: Message, id: ObjectId, property: u16)
    requires ReadsObject(cfg, m, id, property) && WellKeyed(a) && WellKeyed(b)
    requires ObjectValue(a[id], property).Some? && ObjectValue(b[id], property).Some?
    ensures FrameOf(FreshRead(cfg, a, m)) == FrameOf(FreshRead(cfg, b, m))
       <==> ObjectValue(a[id], property) == ObjectValue(b[id], property)
  {
    ReadOfObject(cfg, a, m, id, property);
    ReadOfObject(cfg, b, m, id, property);
    var u, v := ObjectValue(a[id], property).value, ObjectValue(b[id], property).value;
    if ReadAck(m.apdu[2], id, property, u) == ReadAck(m.apdu[2], id, property, v) {
      SameAckSameValue(m.apdu[2], id, property, u, v);
    }
  }

  lemma {:induction false} PropertySupport(o: Object, p: Object, property: u16)
    ensures ObjectValue(o, property).Some? <==> ObjectValue(p, property).Some?
  {
  }

  /**
   A repeated read, invoke id included, is answered as the present objects would answer it exactly when the
   property still has the value it had at the first read.
   */
  lemma {:induction false} RetryIsCurrent(cfg: DeviceConfig, ms: seq<Message>, j: nat, id: ObjectId, property: u16)
    requires !Run(cfg, true, Boot(), ms).halted
    requires j < |ms| && ReadsObject(cfg, ms[j], id, property)
    requires FirstKept(cfg, BootObjects(), ms, ms[j].apdu[2]) == Some(j)
    ensures var first, now := ObjectsAfter(cfg, BootObjects(), ms[..j]), ObjectsAfter(cfg, BootObjects(), ms);
            && id in first && id in now
            && (ReadStep(cfg, true, Run(cfg, true, Boot(), ms), ms[j]).1 == FrameOf(FreshRead(cfg, now, ms[j]))
                <==> ObjectValue(first[id], property) == ObjectValue(now[id], property))
  {
    var first, now := ObjectsAfter(cfg, BootObjects(), ms[..j]), ObjectsAfter(cfg, BootObjects(), ms);
    WellKeyedAfter(cfg, BootObjects(), ms[..j]);
    WellKeyedAfter(cfg, BootObjects(), ms);
    KeptIdAt(cfg, BootObjects(), ms, j);
    ReadReply(cfg, Boot(), ms, ms[j]);
    ReadOfObject(cfg, first, ms[j], id, property);
    PropertySupport(first[id], now[id], property);
    SameAnswer(cfg, first, now, ms[j], id, property);
  }

  lemma {:induction false} FirstReadKept(cfg: DeviceConfig, r: Message, w: Message, id: ObjectId)
    requires DeviceOid(cfg).Some? && id in OBJECT_IDS
    requires r.apdu == ReadRequest(7, id, PRESENT_VALUE) && Classify(w.apdu) == WriteProperty
    ensures ReadsObject(cfg, r, id, PRESENT_VALUE)
    ensures !Run(cfg, true, Boot(), [r] + [w]).halted
    ensures FirstKept(cfg, BootObjects(), [r] + [w], 7) == Some(0)
  {
    ReadRequestParses(7, id, PRESENT_VALUE);
    assert [r] == [] + [r];
    assert Supported(cfg, BootObjects(), r, id, PRESENT_VALUE);
    SupportedIsKept(cfg, BootObjects(), r, id, PRESENT_VALUE);
    RunExtends(cfg, true, Boot(), [], r);
    HaltsHere(cfg, Boot(), r);
    FirstKeptStep(cfg, BootObjects(), [], r, 7);
    WriteKeepsCacheOpen(cfg, [r], w, 7);
  }

  lemma {:induction false} ReadCommandsNothing(cfg: DeviceConfig, r: Message, id: ObjectId)
    requires Classify(r.apdu) == ReadProperty
    ensures CommandsFor(cfg, id, [r]) == []
  {
    assert [r][..0] == [];
  }

  lemma {:induction false} WrittenValue(cfg: DeviceConfig, r: Message, w: Message, id: ObjectId, p: byte, v: Real32)
    requires id in OBJECT_IDS && InRange(p) && Classify(r.apdu) == ReadProperty
    requires CommandIn(cfg, id, w) == Some(Command(p, Some(v)))
    ensures id in ObjectsAfter(cfg, BootObjects(), [r] + [w])
    ensures ObjectsAfter(cfg, BootObjects(), [r] + [w])[id].presentValue == v
  {
    var o := MakeObject(id);
    ObjectObeys(cfg, BootObjects(), [r] + [w], id);
    CommandsExtend(cfg, id, [r], w, Command(p, Some(v)));
    ReadCommandsNothing(cfg, r, id);
    assert ObeyAll(o, []) == o && forall k | 0 <= k < p - 1 :: o.slots[k].None?;
    CommandResolves(o, p, v);
  }

  lemma {:induction false} OtherPresentValue(o: Object, q: Object)
    requires o.presentValue != q.presentValue
    ensures ObjectValue(o, PRESENT_VALUE) != ObjectValue(q, PRESENT_VALUE)
  {
    assert AppReal(o.presentValue)[1..] == o.presentValue && AppReal(q.presentValue)[1..] == q.presentValue;
  }

  /** Read, write, and the first read again: the object holds the new value and the reply is the old one. */
  lemma {:induction false} RetryMissesWrite(cfg: DeviceConfig, r: Message, w: Message, id: ObjectId, p: byte, v: Real32)
    requires DeviceOid(cfg).Some? && id in OBJECT_IDS && InRange(p) && v != ZERO
    requires r.apdu == ReadRequest(7, id, PRESENT_VALUE) && w.apdu == WriteRequest(8, id, Command(p, Some(v)))
    ensures var ms := [r] + [w];
            var now := ObjectsAfter(cfg, BootObjects(), ms);
            && id in now && now[id].presentValue == v
            && IsRead(r)
            && ReadStep(cfg, true, Run(cfg, true, Boot(), ms), r).1 != FrameOf(FreshRead(cfg, now, r))
  {
    WriteRequestParses(cfg, 8, id, Command(p, Some(v)));
    ReadRequestParses(7, id, PRESENT_VALUE);
    FirstReadKept(cfg, r, w, id);
    WrittenValue(cfg, r, w, id, p, v);
    RetryAfter(cfg, [r] + [w], id);
  }

  lemma {:induction false} RetryAfter(cfg: DeviceConfig, ms: seq<Message>, id: ObjectId)
    requires ms != [] && !Run(cfg, true, Boot(), ms).halted && ReadsObject(cfg, ms[0], id, PRESENT_VALUE)
    requires FirstKept(cfg, BootObjects(), ms, ms[0].apdu[2]) == Some(0)
    requires id in ObjectsAfter(cfg, BootObjects(), ms) && ObjectsAfter(cfg, BootObjects(), ms)[id].presentValue != ZERO
    ensures ReadStep(cfg, true, Run(cfg, true, Boot(), ms), ms[0]).1
         != FrameOf(FreshRead(cfg, ObjectsAfter(cfg, BootObjects(), ms), ms[0]))
  {
    assert ms[..0] == [];
    RetryIsCurrent(cfg, ms, 0, id, PRESENT_VALUE);
    OtherPresentValue(BootObjects()[id], ObjectsAfter(cfg, BootObjects(), ms)[id]);
  }
}
