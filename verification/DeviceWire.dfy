/** The local device octet for octet: the forms of its requests, values and replies, by their literal octets. */
module DeviceWire {
  import opened Prelude
  import opened Encoding
  import opened Commands
  import opened ObjectStore
  import opened Device
  import opened DeviceRuns
  import opened DeviceClient
  import Decimal

  // Which requests are heard.

  /** The confirmed services the device knows, by their numbers. */
  function ServiceKind(service: byte): Request
  {
    match service
    case 12 => ReadProperty
    case 15 => WriteProperty
    case 5 => SubscribeCov
    case _ => Unhandled
  }

  /** Where the service number stands: in a segmented request after the sequence number and window. */
  lemma {:induction false} Dispatch(b: Bytes)
    ensures |b| < 2 || b[0] >= 0x20 ==> Classify(b) == Unhandled
    ensures |b| >= 2 && 0x10 <= b[0] < 0x20 ==> Classify(b) == if b[1] == 8 then WhoIs else Unhandled
    ensures 2 <= |b| <= 3 && b[0] < 0x10 ==> Classify(b) == ServiceKind(b[1])
    ensures |b| >= 4 && b[0] < 0x10 && (b[0] < 0x08 || |b| < 6) ==> Classify(b) == ServiceKind(b[3])
    ensures |b| >= 6 && 0x08 <= b[0] < 0x10 ==> Classify(b) == ServiceKind(b[5])
  {
  }

  /** The object identifier: ten bits of type, twenty-two of instance, after the octet 0x0C. */
  lemma {:induction false} ObjectIdField(b: Bytes)
    ensures ParseObjectId(b).Some? <==> |b| >= 9 && b[4] == 0x0C
    ensures ParseObjectId(b).Some? ==>
              && ParseObjectId(b).value.kind == Word(0, 0, 0, b[5]) * 4 + b[6] / 64
              && ParseObjectId(b).value.instance == Word(0, b[6] % 64, b[7], b[8])
  {
    if |b| >= 9 && b[4] == 0x0C {
      var kind: int, rest: int := Word(0, 0, 0, b[5]) * 4 + b[6] / 64, Word(0, b[6] % 64, b[7], b[8]);
      assert Word(b[5], b[6], b[7], b[8]) == kind * 4194304 + rest;
      assert 0 <= rest < 4194304;
      assert b[5..9] == [b[5], b[6], b[7], b[8]];
    }
  }

  lemma {:induction false} PropertyField(b: Bytes)
    requires |b| >= 11
    ensures b[9] % 8 == 1 ==> ParseProperty(b) == PropertyId(b[10])
    ensures b[9] % 8 == 2 ==> ParseProperty(b) == if |b| == 11 then CutShort else PropertyId(Word(0, 0, b[10], b[11]))
    ensures b[9] % 8 != 1 && b[9] % 8 != 2 ==> ParseProperty(b) == NoProperty
  {
  }

  /** The objects by type and instance, and the device's own identifier. */
  lemma {:induction false} KnownIds(cfg: DeviceConfig, id: ObjectId)
    ensures id in OBJECT_IDS <==> id.instance == 1 && (id.kind == 1 || id.kind == 2 || id.kind == 54)
    ensures DeviceOid(cfg) == Some(id) <==> id.kind == 8 && id.instance == cfg.deviceId
    ensures DeviceOid(cfg).Some? <==> cfg.deviceId < 4194304
  {
  }

  // What a write carries.

  /** The priority is the octet after a context tag 3 of one to four octets; without one it is 0. */
  lemma {:induction false} PriorityForms(b: Bytes, pos: nat)
    ensures pos >= |b| ==> ParsePriority(b, pos) == 0
    ensures pos < |b| && b[pos] / 16 != 3 && b[pos] / 16 != 15 ==> ParsePriority(b, pos) == 0
    ensures pos < |b| && b[pos] / 16 == 3 && (b[pos] % 16 <= 8 || b[pos] % 16 >= 14) ==> ParsePriority(b, pos) == 0
    ensures pos + 1 == |b| && 0x39 <= b[pos] <= 0x3C ==> ParsePriority(b, pos) == 0
    ensures pos + 1 < |b| && 0x39 <= b[pos] <= 0x3C ==> ParsePriority(b, pos) == b[pos + 1]
  {
  }

  lemma {:induction false} RealForm(b: Bytes, at: nat)
    requires at + 7 <= |b| && b[at] == 0x2D && b[at + 1] == 5 && b[at + 2] == 0x44
    ensures ParseWriteValue(b, at) == Some(Command(ParsePriority(b, at + 7), Some(b[at + 3..at + 7])))
  {
    assert DecodeTag(b, at) == Some((Tag(2, true, Primitive, 5), at + 2));
    assert DecodeTag(b, at + 2) == Some((Tag(4, false, Primitive, 4), at + 3));
  }

  lemma {:induction false} NullForms(b: Bytes, at: nat)
    ensures at < |b| && b[at] == 0x28 ==> ParseWriteValue(b, at) == Some(Command(ParsePriority(b, at + 1), None))
    ensures at + 1 < |b| && b[at] == 0x29 && b[at + 1] == 0 ==>
              ParseWriteValue(b, at) == Some(Command(ParsePriority(b, at + 2), None))
  {
  }

  /** What is refused: no context tag 2, a value cut short, or one that is neither null nor a real. */
  lemma {:induction false} RefusedForms(b: Bytes, at: nat)
    ensures at >= |b| ==> ParseWriteValue(b, at).None?
    ensures at < |b| && b[at] / 16 != 2 && b[at] / 16 != 15 ==> ParseWriteValue(b, at).None?
    ensures at < |b| && b[at] / 16 == 2 && (b[at] % 16 < 8 || b[at] % 16 >= 14) ==> ParseWriteValue(b, at).None?
    ensures at < |b| && 0x29 <= b[at] <= 0x2C && at + 1 + b[at] % 8 > |b| ==> ParseWriteValue(b, at).None?
    ensures at + 1 < |b| && b[at] == 0x2D && 5 <= b[at + 1] < 254 && at + 2 + b[at + 1] > |b| ==>
              ParseWriteValue(b, at).None?
    ensures at + 1 < |b| && 0x29 <= b[at] <= 0x2C && b[at + 1] / 16 !in {0, 4, 15} ==> ParseWriteValue(b, at).None?
    ensures at + 2 < |b| && b[at] == 0x2D && 5 <= b[at + 1] < 254 && b[at + 2] / 16 !in {0, 4, 15} ==>
              ParseWriteValue(b, at).None?
    ensures at + 2 < |b| && b[at] == 0x2D && 5 <= b[at + 1] < 254 && b[at + 2] / 16 == 4 && b[at + 2] % 8 < 4 ==>
              ParseWriteValue(b, at).None?
  {
  }

  /** The out-of-service flag: true for any octet but 0 under a context tag 2 of length one; else no change. */
  lemma {:induction false} FlagForms(id: ObjectId, b: Bytes, at: nat)
    ensures at + 1 < |b| && b[at] == 0x29 ==> WriteObject(id, b, 81, at) == Accepted(id, Service(b[at + 1] != 0))
    ensures at >= |b| || (b[at] != 0x29 && b[at] / 16 != 15 && b[at] != 0x2D) ==>
              WriteObject(id, b, 81, at) == Accepted(id, NoChange)
  {
  }

  // What a read returns.

  /** Every property of an object but the priority array and the name, by its octets. */
  lemma {:induction false} ObjectOctets(o: Object)
    requires o.id in OBJECT_IDS
    ensures ObjectValue(o, 75) == Some([0xC4] + EncodeId(o.id))
    ensures ObjectValue(o, 79) == Some([0x91, o.id.kind])
    ensures ObjectValue(o, 81) == Some([if o.outOfService then 0x11 else 0x10])
    ensures ObjectValue(o, 85) == Some([0x44] + o.presentValue)
    ensures ObjectValue(o, 104) == Some([0x44] + o.relinquishDefault)
    ensures ObjectValue(o, 111) == Some([0x82, 0x04, if o.outOfService then 1 else 0])
    ensures ObjectValue(o, 117) == Some([0x91, if o.id.kind == 54 then 105 else 95])
    ensures ObjectValue(o, 36) == ObjectValue(o, 103) == ObjectValue(o, 119) == Some([0x91, 0x00])
    ensures ObjectValue(o, 87) == Some(PriorityArrayBytes(o.slots, 0))
    ensures forall property: u16 | property !in {36, 75, 77, 79, 81, 85, 87, 103, 104, 111, 117, 119} ::
              ObjectValue(o, property).None?
  {
    EnumeratedOctets(o.id.kind);
    EnumeratedOctets(0);
    EnumeratedOctets(95);
    EnumeratedOctets(105);
    assert AppBitString(4, [if o.outOfService then 1 else 0]) == [0x82, 0x04, if o.outOfService then 1 else 0];
  }

  lemma {:induction false} EnumeratedOctets(n: byte)
    ensures AppEnumerated(n) == [0x91, n]
  {
    assert UnsignedBytes(n) == [n];
  }

  /** The names: AO-1, AV-1 and LO-1, after the octet of their character set. */
  lemma {:induction false} ObjectNames(o: Object)
    requires o.id in OBJECT_IDS
    ensures o.id.kind == 1 ==> ObjectValue(o, 77) == Some([0x75, 0x05, 0x00, 0x41, 0x4F, 0x2D, 0x31])
    ensures o.id.kind == 2 ==> ObjectValue(o, 77) == Some([0x75, 0x05, 0x00, 0x41, 0x56, 0x2D, 0x31])
    ensures o.id.kind == 54 ==> ObjectValue(o, 77) == Some([0x75, 0x05, 0x00, 0x4C, 0x4F, 0x2D, 0x31])
  {
    assert Decimal.Show(1) == "1";
    assert Ascii("AO-" + "1") == [0x41, 0x4F, 0x2D, 0x31];
    assert Ascii("AV-" + "1") == [0x41, 0x56, 0x2D, 0x31];
    assert Ascii("LO-" + "1") == [0x4C, 0x4F, 0x2D, 0x31];
    var name := ObjectName(o.id);
    assert Decimal.Show(o.id.instance) == "1";
    assert name == match o.id.kind
                   case 1 => Ascii("AO-" + "1")
                   case 2 => Ascii("AV-" + "1")
                   case _ => Ascii("LO-" + "1");
    NameOctets(name);
  }

  lemma {:induction false} NameOctets(name: Bytes)
    requires |name| == 4
    ensures AppCharacterString(name) == [0x75, 0x05, 0x00, name[0], name[1], name[2], name[3]]
  {
  }

  /** The device object's properties by their octets. */
  lemma {:induction false} DeviceOctets(cfg: DeviceConfig)
    ensures DeviceValue(cfg, 11) == Some([0x22, 0x0B, 0xB8])
    ensures DeviceValue(cfg, 12) == Some([0x91, 0x00])
    ensures DeviceValue(cfg, 13) == Some([0x91, 0x18])
    ensures DeviceValue(cfg, 62) == Some([0x91, 0x02])
    ensures DeviceValue(cfg, 75) == Some([0x75, |NameText(cfg)| % 256] + NameText(cfg))
    ensures DeviceValue(cfg, 76) == Some([0x22, cfg.vendorId / 256, cfg.vendorId % 256])
    ensures DeviceValue(cfg, 85) == Some([0x75, 5, 0x30, 0x2E, 0x31, 0x2E, 0x30])
    ensures DeviceValue(cfg, 97) == Some([0x85, 5, 5, 0x84, 0x0B, 0x00, 0x20])
    ensures DeviceValue(cfg, 139) == Some([0x21, 0x18])
    ensures DeviceValue(cfg, 512) == Some([0x75, |cfg.transportMode| % 256] + cfg.transportMode)
    ensures forall property: u16 | property !in {11, 12, 13, 62, 75, 76, 85, 97, 139, 512} ::
              DeviceValue(cfg, property).None?
  {
  }

  /** A device without a name calls itself BACnet-Bridge. */
  lemma {:induction false} DeviceNameOctets(cfg: DeviceConfig)
    ensures cfg.deviceName == [] ==>
              DeviceValue(cfg, 75)
              == Some([0x75, 13] + [0x42, 0x41, 0x43, 0x6E, 0x65, 0x74, 0x2D, 0x42, 0x72, 0x69, 0x64, 0x67, 0x65])
    ensures cfg.deviceName != [] ==> DeviceValue(cfg, 75) == Some([0x75, |cfg.deviceName| % 256] + cfg.deviceName)
  {
    assert FALLBACK_NAME == [0x42, 0x41, 0x43, 0x6E, 0x65, 0x74, 0x2D, 0x42, 0x72, 0x69, 0x64, 0x67, 0x65];
  }

  /** No status flag is ever shown: the octet's set bit is one of the four the bit string declares unused. */
  lemma {:induction false} StatusFlagsReadClear(o: Object)
    ensures ObjectValue(o, 111).Some?
    ensures var b := ObjectValue(o, 111).value; |b| == 3 && b[0] == 0x82 && b[1] == 4 && b[2] / 16 == 0
  {
    assert AppBitString(4, [if o.outOfService then 1 else 0]) == [0x82, 0x04, if o.outOfService then 1 else 0];
  }

  // What is replied.

  lemma {:induction false} ReplyOctets(i: byte, service: byte)
    ensures SimpleAck(i, service) == [0x20, i, service]
    ensures ErrorPdu(i, service, ERROR_CLASS_OBJECT, UNKNOWN_OBJECT) == [0x50, i, service, 0x91, 1, 0x91, 31]
    ensures ErrorPdu(i, service, ERROR_CLASS_PROPERTY, UNKNOWN_PROPERTY) == [0x50, i, service, 0x91, 2, 0x91, 32]
    ensures ErrorPdu(i, service, ERROR_CLASS_PROPERTY, WRITE_ACCESS_DENIED) == [0x50, i, service, 0x91, 2, 0x91, 40]
  {
    EnumeratedOctets(1);
    EnumeratedOctets(2);
    EnumeratedOctets(31);
    EnumeratedOctets(32);
    EnumeratedOctets(40);
  }

  /** A frame from the device's own address to the place a message came from. */
  function Sent(cfg: DeviceConfig, m: Message, payload: Bytes): Frame
  {
    Unicast(cfg.local, match m.sourceNetwork case Some(a) => a case None => Address(1, m.sourceMac), payload)
  }

  /** The out-of-service and Present_Value properties are the ones that can be written. */
  predicate Writable(b: Bytes, property: u16, end: nat)
  {
    property == 81 || (property == 85 && ParseWriteValue(b, end).Some?)
  }

  /** What becomes of a WriteProperty, by its octets: ignored, denied, or acknowledged with its one effect. */
  lemma {:induction false} WriteDispatch(cfg: DeviceConfig, s: DeviceState, m: Message)
    requires Classify(m.apdu) == WriteProperty && !s.halted && WellKeyed(s.objects)
    ensures var b := m.apdu;
            var id := ParseObjectId(b);
            var r := Step(cfg, true, s, m);
            if |b| < 14 || id.None? || cfg.deviceId >= 4194304 then r == (s, [])
            else if id.value.kind == 8 && id.value.instance == cfg.deviceId then
              r == (s, [Sent(cfg, m, [0x50, b[2], 0x0F, 0x91, 2, 0x91, 40])])
            else if b[9] % 8 != 1 && b[9] % 8 != 2 then r == (s, [])
            else if id.value !in OBJECT_IDS then r == (s, [Sent(cfg, m, [0x50, b[2], 0x0F, 0x91, 1, 0x91, 31])])
            else
              var property := if b[9] % 8 == 1 then b[10] else Word(0, 0, b[10], b[11]);
              if !Writable(b, property, 10 + b[9] % 8)
              then r == (s, [Sent(cfg, m, [0x50, b[2], 0x0F, 0x91, 2, 0x91, 40])])
              else
                && r.1 == [Sent(cfg, m, [0x20, b[2], 0x0F])]
                && r.0.cache == s.cache && !r.0.halted
                && r.0.objects.Keys == s.objects.Keys
                && forall other | other in s.objects && other != id.value :: r.0.objects[other] == s.objects[other]
  {
    ReplyOctets(if |m.apdu| > 2 then m.apdu[2] else 0, WRITE_PROPERTY);
    if |m.apdu| >= 14 && ParseObjectId(m.apdu).Some? {
      KnownIds(cfg, ParseObjectId(m.apdu).value);
      PropertyField(m.apdu);
    }
  }

  /** A SubscribeCOV is acknowledged, from the transport's address on network 1, and changes nothing. */
  lemma {:induction false} SubscribeAnswer(cfg: DeviceConfig, s: DeviceState, m: Message)
    requires Classify(m.apdu) == SubscribeCov && !s.halted
    ensures Step(cfg, true, s, m) ==
            (s, if |m.apdu| < 3 then []
                else [Sent(cfg, m, [0x20, m.apdu[2], 0x05]).(source := Address(1, cfg.transportMac))])
  {
  }

  /** A Who-Is is answered by a broadcast I-Am with the device's identifier and vendor, and changes nothing. */
  lemma {:induction false} WhoIsAnswer(cfg: DeviceConfig, s: DeviceState, m: Message)
    requires Classify(m.apdu) == WhoIs && !s.halted
    ensures cfg.deviceId >= 4194304 ==> Step(cfg, true, s, m) == (s, [])
    ensures cfg.deviceId < 4194304 ==>
              Step(cfg, true, s, m) ==
              (s, [Broadcast(cfg.local, [0x10, 0x00, 0x0C] + EncodeId(ObjectId(8, cfg.deviceId))
                                        + [0x1A, 0x05, 0xC4, 0x29, 0x00] + VendorOctets(cfg.vendorId))])
  {
    if cfg.deviceId < 4194304 {
      assert DeviceOid(cfg) == Some(ObjectId(8, cfg.deviceId));
      IAmOctets(ObjectId(8, cfg.deviceId), cfg.vendorId);
    }
  }

  function VendorOctets(vendor: u16): Bytes
  {
    if vendor < 256 then [0x39, vendor] else [0x3A, vendor / 256, vendor % 256]
  }

  lemma {:induction false} IAmOctets(id: ObjectId, vendor: u16)
    ensures [0x10, 0x00] + CtxObjectId(0, id) + CtxUnsigned(1, 1476) + CtxUnsigned(2, 0) + CtxUnsigned(3, vendor)
         == [0x10, 0x00, 0x0C] + EncodeId(id) + [0x1A, 0x05, 0xC4, 0x29, 0x00] + VendorOctets(vendor)
  {
    var head: Bytes := [0x10, 0x00] + CtxObjectId(0, id);
    var apdu, segmentation: Bytes := [0x1A, 0x05, 0xC4], [0x29, 0x00];
    assert head == [0x10, 0x00, 0x0C] + EncodeId(id);
    UnsignedOctets(1, 1476);
    UnsignedOctets(2, 0);
    UnsignedOctets(3, vendor);
    Assoc(head, apdu, segmentation);
    assert apdu + segmentation == [0x1A, 0x05, 0xC4, 0x29, 0x00];
  }

  /** An unsigned value of one octet or two under a context tag. */
  lemma {:induction false} UnsignedOctets(number: nat, n: u16)
    requires number < 15
    ensures CtxUnsigned(number, n) == if n < 256 then [number * 16 + 9, n] else [number * 16 + 10, n / 256, n % 256]
  {
    if n < 256 {
      assert UnsignedBytes(n) == [n];
    } else {
      assert UnsignedBytes(n / 256) == [n / 256];
    }
  }

  predicate FromLocal(cfg: DeviceConfig, s: DeviceState)
  {
    forall id | id in s.cache :: s.cache[id].source == cfg.local
  }

  lemma {:induction false} StepFromLocal(cfg: DeviceConfig, s: DeviceState, m: Message)
    requires FromLocal(cfg, s)
    ensures FromLocal(cfg, Step(cfg, true, s, m).0)
    ensures forall f | f in Step(cfg, true, s, m).1 ::
              f.source == if Classify(m.apdu) == SubscribeCov then Address(1, cfg.transportMac) else cfg.local
  {
  }

  /** In every run all the device sends comes from its own address, but for acknowledged subscriptions. */
  lemma {:induction false} SentFromLocal(cfg: DeviceConfig, ms: seq<Message>, m: Message)
    ensures FromLocal(cfg, Run(cfg, true, Boot(), ms))
    ensures forall f | f in Step(cfg, true, Run(cfg, true, Boot(), ms), m).1 ::
              f.source == if Classify(m.apdu) == SubscribeCov then Address(1, cfg.transportMac) else cfg.local
  {
    if ms != [] {
      SentFromLocal(cfg, ms[..|ms| - 1], ms[|ms| - 1]);
    }
    StepFromLocal(cfg, Run(cfg, true, Boot(), ms), m);
  }

  // Reads after any run.

  /** A read with a new invoke id returns the present value of a property the object has. */
  lemma {:induction false} ValueReadIs(cfg: DeviceConfig, ms: seq<Message>, m: Message, id: ObjectId, property: u16)
    requires !Run(cfg, true, Boot(), ms).halted
    requires ReadsObject(cfg, m, id, property) && FirstKept(cfg, BootObjects(), ms, m.apdu[2]).None?
    ensures id in ObjectsAfter(cfg, BootObjects(), ms) && ObjectsAfter(cfg, BootObjects(), ms)[id].id == id
    ensures ObjectValue(ObjectsAfter(cfg, BootObjects(), ms)[id], property).Some? ==>
              ValueRead(cfg, ms, m) == ObjectValue(ObjectsAfter(cfg, BootObjects(), ms)[id], property)
  {
    WellKeyedAfter(cfg, BootObjects(), ms);
    if ObjectValue(ObjectsAfter(cfg, BootObjects(), ms)[id], property).Some? {
      AckEchoes(cfg, ms, m, id, property);
    }
  }

  /** The out-of-service flag, as last written, is read back as a boolean. */
  lemma {:induction false} FlagRead(cfg: DeviceConfig, ms: seq<Message>, m: Message, id: ObjectId)
    requires !Run(cfg, true, Boot(), ms).halted
    requires ReadsObject(cfg, m, id, 81) && FirstKept(cfg, BootObjects(), ms, m.apdu[2]).None?
    ensures ValueRead(cfg, ms, m) == Some([if LastFlag(cfg, id, ms, false) then 0x11 else 0x10])
  {
    ValueReadIs(cfg, ms, m, id, 81);
    FlagAfterRun(cfg, BootObjects(), ms, id);
    ObjectOctets(ObjectsAfter(cfg, BootObjects(), ms)[id]);
  }

  /** The values of the properties that no message changes. */
  predicate FixedValue(id: ObjectId, property: u16, value: Option<Bytes>)
  {
    && (property == 75 ==> value == Some([0xC4] + EncodeId(id)))
    && (property == 79 ==> id.kind < 256 && value == Some([0x91, id.kind]))
    && (property == 104 ==> value == Some([0x44, 0, 0, 0, 0]))
    && (property == 117 ==> value == Some([0x91, if id.kind == 54 then 105 else 95]))
    && (property == 36 || property == 103 || property == 119 ==> value == Some([0x91, 0x00]))
  }

  lemma {:induction false} FixedOctets(o: Object, property: u16)
    requires o.id in OBJECT_IDS && o.relinquishDefault == [0, 0, 0, 0]
    requires property in {36, 75, 79, 103, 104, 117, 119}
    ensures ObjectValue(o, property).Some? && FixedValue(o.id, property, ObjectValue(o, property))
  {
    ObjectOctets(o);
    assert [0x44] + o.relinquishDefault == [0x44, 0, 0, 0, 0];
  }

  /** They read the same after any run. */
  lemma {:induction false} FixedRead(cfg: DeviceConfig, ms: seq<Message>, m: Message, id: ObjectId, property: u16)
    requires !Run(cfg, true, Boot(), ms).halted && property in {36, 75, 79, 103, 104, 117, 119}
    requires ReadsObject(cfg, m, id, property) && FirstKept(cfg, BootObjects(), ms, m.apdu[2]).None?
    ensures FixedValue(id, property, ValueRead(cfg, ms, m))
  {
    ValueReadIs(cfg, ms, m, id, property);
    DefaultStays(cfg, ms, id);
    FixedOctets(ObjectsAfter(cfg, BootObjects(), ms)[id], property);
  }

  lemma {:induction false} DefaultStays(cfg: DeviceConfig, ms: seq<Message>, id: ObjectId)
    requires id in OBJECT_IDS
    ensures id in ObjectsAfter(cfg, BootObjects(), ms)
    ensures ObjectsAfter(cfg, BootObjects(), ms)[id].relinquishDefault == [0, 0, 0, 0]
  {
    ObjectObeys(cfg, BootObjects(), ms, id);
    CommandHistory(MakeObject(id), CommandsFor(cfg, id, ms));
  }

  /** The name and the status flags. */
  lemma {:induction false} NameAndStatusRead(cfg: DeviceConfig, ms: seq<Message>, m: Message, id: ObjectId, property: u16)
    requires !Run(cfg, true, Boot(), ms).halted && (property == 77 || property == 111)
    requires ReadsObject(cfg, m, id, property) && FirstKept(cfg, BootObjects(), ms, m.apdu[2]).None?
    ensures property == 77 ==>
              ValueRead(cfg, ms, m) ==
              if id.kind == 1 then Some([0x75, 0x05, 0x00, 0x41, 0x4F, 0x2D, 0x31])
              else if id.kind == 2 then Some([0x75, 0x05, 0x00, 0x41, 0x56, 0x2D, 0x31])
              else Some([0x75, 0x05, 0x00, 0x4C, 0x4F, 0x2D, 0x31])
    ensures property == 111 ==> ValueRead(cfg, ms, m) == Some([0x82, 0x04, if LastFlag(cfg, id, ms, false) then 1 else 0])
  {
    ValueReadIs(cfg, ms, m, id, property);
    FlagAfterRun(cfg, BootObjects(), ms, id);
    var o := ObjectsAfter(cfg, BootObjects(), ms)[id];
    if property == 77 { ObjectNames(o); } else { ObjectOctets(o); }
  }

  // Writes that name no priority.

  /** The rest of a write that holds no priority: nothing, or something whose tag number is not 3. */
  predicate NoPriority(rest: Bytes) { rest == [] || (rest[0] / 16 != 3 && rest[0] / 16 != 15) }

  /** A Present_Value write of a real, and whatever follows the value. */
  function RealWrite(i: byte, id: ObjectId, v: Real32, rest: Bytes): Bytes
  {
    [0x00, 0x05, i, 0x0F] + CtxObjectId(0, id) + ([0x19, 0x55, 0x2D, 0x05, 0x44] + v + rest)
  }

  lemma {:induction false} RealWriteParses(cfg: DeviceConfig, w: Message, i: byte, id: ObjectId, v: Real32, rest: Bytes)
    requires DeviceOid(cfg).Some? && id in OBJECT_IDS
    requires w.apdu == RealWrite(i, id, v, rest) && NoPriority(rest)
    ensures Classify(w.apdu) == WriteProperty
    ensures CommandIn(cfg, id, w) == Some(Command(0, Some(v)))
  {
    var b := w.apdu;
    var tail: Bytes := [0x19, 0x55, 0x2D, 0x05, 0x44] + v + rest;
    RequestHead(0x0F, i, id, tail);
    TailOctets(b, tail, v, rest);
    Dispatch(b);
    RealForm(b, 11);
    PriorityForms(b, 18);
    WriteAccepted(cfg, b, id, Command(0, Some(v)));
  }

  lemma {:induction false} TailOctets(b: Bytes, tail: Bytes, v: Real32, rest: Bytes)
    requires |b| == 9 + |tail| && b[9..] == tail == [0x19, 0x55, 0x2D, 0x05, 0x44] + v + rest
    ensures b[9] == 0x19 && b[10] == 0x55 && b[11] == 0x2D && b[12] == 5 && b[13] == 0x44 && b[14..18] == v
    ensures |b| == 18 + |rest| && (rest != [] ==> b[18] == rest[0])
  {
    assert forall k | 0 <= k < |tail| :: b[9 + k] == tail[k];
  }

  /** Out of range a value goes to Present_Value alone, and null goes nowhere. */
  lemma {:induction false} OutOfRange(o: Object, c: Command)
    requires c.priority == 0 || c.priority > 16
    ensures Obey(o, c) == match c.value case Some(v) => o.(presentValue := v) case None => o
  {
  }

  /**
   A write without a priority, as octets: after any run it leaves every slot of the object as it was, and a
   read of Present_Value with a new invoke id returns the written real, whatever the slots hold.
   */
  lemma {:induction false} UnprioritizedWrite(
    cfg: DeviceConfig, ms: seq<Message>, w: Message, m: Message, id: ObjectId, v: Real32, rest: Bytes, i: byte, j: byte)
    requires !Run(cfg, true, Boot(), ms).halted && DeviceOid(cfg).Some? && id in OBJECT_IDS && NoPriority(rest)
    requires w.apdu == RealWrite(i, id, v, rest) && m.apdu == ReadRequest(j, id, PRESENT_VALUE)
    requires j !in Run(cfg, true, Boot(), ms).cache
    ensures IsRead(m) && ValueRead(cfg, ms + [w], m) == Some([0x44] + v)
    ensures ObeyAll(MakeObject(id), CommandsFor(cfg, id, ms + [w])).slots
         == ObeyAll(MakeObject(id), CommandsFor(cfg, id, ms)).slots
  {
    var c := Command(0, Some(v));
    RealWriteParses(cfg, w, i, id, v, rest);
    ReadRequestParses(j, id, PRESENT_VALUE);
    CacheHistory(cfg, Boot(), ms, j);
    WriteKeepsCacheOpen(cfg, ms, w, j);
    CommandsExtend(cfg, id, ms, w, c);
    OutOfRange(ObeyAll(MakeObject(id), CommandsFor(cfg, id, ms)), c);
    PresentValueAfterRun(cfg, ms + [w], m, id);
  }

  // Writes of the out-of-service flag.

  function FlagWrite(i: byte, id: ObjectId, octet: byte, rest: Bytes): Bytes
  {
    [0x00, 0x05, i, 0x0F] + CtxObjectId(0, id) + ([0x19, 0x51, 0x29, octet] + rest)
  }

  lemma {:induction false} FlagAccepted(cfg: DeviceConfig, b: Bytes, id: ObjectId, octet: byte)
    requires id in OBJECT_IDS && DeviceOid(cfg).Some? && |b| >= 14 && ParseObjectId(b) == Some(id)
    requires b[9] == 0x19 && b[10] == 0x51 && b[11] == 0x29 && b[12] == octet
    ensures Write(cfg, OBJECT_IDS, b) == Accepted(id, Service(octet != 0))
  {
    PropertyField(b);
    FlagForms(id, b, 11);
  }

  lemma {:induction false} FlagWriteParses(cfg: DeviceConfig, w: Message, i: byte, id: ObjectId, octet: byte, rest: Bytes)
    requires DeviceOid(cfg).Some? && id in OBJECT_IDS && w.apdu == FlagWrite(i, id, octet, rest)
    ensures Classify(w.apdu) == WriteProperty && |w.apdu| == 13 + |rest|
    ensures rest != [] ==> FlagIn(cfg, id, w) == Some(octet != 0)
  {
    var b := w.apdu;
    var tail: Bytes := [0x19, 0x51, 0x29, octet] + rest;
    RequestHead(0x0F, i, id, tail);
    assert b[9] == tail[0] && b[10] == tail[1] && b[11] == tail[2] && b[12] == tail[3];
    Dispatch(b);
    if rest != [] {
      FlagAccepted(cfg, b, id, octet);
    }
  }

  /** A write of the flag, then a read of it: true for every octet but 0, provided anything follows the octet. */
  lemma {:induction false} FlagWriteThenRead(
    cfg: DeviceConfig, ms: seq<Message>, w: Message, m: Message, id: ObjectId, octet: byte, rest: Bytes, i: byte, j: byte)
    requires !Run(cfg, true, Boot(), ms).halted && DeviceOid(cfg).Some? && id in OBJECT_IDS && rest != []
    requires w.apdu == FlagWrite(i, id, octet, rest) && m.apdu == ReadRequest(j, id, 81)
    requires j !in Run(cfg, true, Boot(), ms).cache
    ensures IsRead(m) && ValueRead(cfg, ms + [w], m) == Some([if octet != 0 then 0x11 else 0x10])
  {
    FlagWriteParses(cfg, w, i, id, octet, rest);
    ReadRequestParses(j, id, 81);
    CacheHistory(cfg, Boot(), ms, j);
    WriteKeepsCacheOpen(cfg, ms, w, j);
    FlagRead(cfg, ms + [w], m, id);
  }

  /** When nothing follows, the message has thirteen octets, and is ignored without an answer. */
  lemma {:induction false} BareFlagWriteIgnored(
    cfg: DeviceConfig, s: DeviceState, w: Message, i: byte, id: ObjectId, octet: byte)
    requires DeviceOid(cfg).Some? && id in OBJECT_IDS && WellKeyed(s.objects) && !s.halted
    requires w.apdu == FlagWrite(i, id, octet, [])
    ensures Step(cfg, true, s, w) == (s, [])
  {
    FlagWriteParses(cfg, w, i, id, octet, []);
    WriteDispatch(cfg, s, w);
  }
}
