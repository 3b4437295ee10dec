/** The local BACnet device: from received bytes to state changes and reply bytes. */
module Device {
  import opened Prelude
  import opened Encoding
  import opened Commands
  import opened ObjectStore
  import Decimal

  datatype Address = Address(network: u16, mac: Bytes)

  datatype Message = Message(apdu: Bytes, sourceMac: Bytes, sourceNetwork: Option<Address>)

  datatype DeviceConfig = DeviceConfig(
    deviceId: u32,
    vendorId: u16,
    deviceName: Bytes,
    transportMode: Bytes,
    local: Address,
    transportMac: Bytes)

  /** What goes out: a network-layer frame, by its header fields and payload. */
  datatype Frame =
    | Unicast(source: Address, destination: Address, payload: Bytes)
    | Broadcast(source: Address, payload: Bytes)

  // Requests.

  datatype Request = WhoIs | ReadProperty | SubscribeCov | WriteProperty | Unhandled

  /** The dispatch on PDU type and service choice, with the source's length tests. */
  function Classify(apdu: Bytes): Request
  {
    if |apdu| < 2 then Unhandled
    else
      var pduType := apdu[0] / 16;
      var segmented := pduType == 0 && |apdu| > 2 && apdu[0] / 8 % 2 == 1;
      var service :=
        if pduType == 0 && |apdu| > 3 then (if segmented && |apdu| > 5 then apdu[5] else apdu[3]) else apdu[1];
      if pduType == 1 && service == 0x08 then WhoIs
      else if pduType == 0 && service == READ_PROPERTY then ReadProperty
      else if pduType == 0 && service == SUBSCRIBE_COV then SubscribeCov
      else if pduType == 0 && service == WRITE_PROPERTY then WriteProperty
      else Unhandled
  }

  function ParseObjectId(apdu: Bytes): Option<ObjectId>
  {
    if |apdu| < 9 || apdu[4] != 0x0C then None else Some(DecodeId(apdu[5..9]))
  }

  /** The property id of a request; CutShort when its second octet is missing. */
  datatype PropertyField = NoProperty | CutShort | PropertyId(id: u16)

  function ParseProperty(apdu: Bytes): PropertyField
    requires |apdu| >= 11
  {
    match apdu[9] % 8
    case 1 => PropertyId(apdu[10])
    case 2 => if |apdu| < 12 then CutShort else PropertyId(Word(0, 0, apdu[10], apdu[11]))
    case _ => NoProperty
  }

  /** The value and priority of a Present_Value write: context tags 2 and 3, as the source reads them. */
  function ParseWriteValue(apdu: Bytes, offset: nat): Option<Command>
  {
    match DecodeTag(apdu, offset)
    case None => None
    case Some((tag2, pos2)) =>
      if !IsContext(tag2, 2) then None
      else
        match ParseContent(apdu, tag2.length, pos2)
        case None => None
        case Some(value) => Some(Command(ParsePriority(apdu, pos2 + tag2.length), value))
  }

  /** Null, or an application real; the outer option is whether it parses. */
  function ParseContent(apdu: Bytes, length: nat, pos: nat): Option<Option<Real32>>
  {
    if length == 0 then Some(None)
    else if pos + length > |apdu| then None
    else
      match DecodeTag(apdu, pos)
      case None => None
      case Some((tag, after)) =>
        if tag.number == 0 then Some(None)
        else if tag.number == 4 && tag.length == 4 && after + 4 <= |apdu| then Some(Some(apdu[after..after + 4]))
        else None
  }

  /** The octet after the priority's tag octet, or 0 when there is no such priority. */
  function ParsePriority(apdu: Bytes, pos: nat): byte
  {
    match DecodeTag(apdu, pos)
    case None => 0
    case Some((tag, _)) =>
      if IsContext(tag, 3) && tag.length > 0 && pos + 1 < |apdu| then apdu[pos + 1] else 0
  }

  // Values of properties.

  function DeviceOid(cfg: DeviceConfig): Option<ObjectId> { NewObjectId(DEVICE, cfg.deviceId) }

  /** A length octet keeps only the low eight bits, as the source's cast does. */
  function ShortText(text: Bytes): Bytes { [0x75, |text| % 0x100] + text }

  const FALLBACK_NAME: Bytes := Ascii("BACnet-Bridge")

  /** The octets of a text of Latin characters. */
  function Ascii(s: string): (b: Bytes)
    ensures |b| == |s|
  {
    seq(|s|, i requires 0 <= i < |s| => (s[i] as int) % 0x100)
  }

  /** The device object's properties. */
  function DeviceValue(cfg: DeviceConfig, property: u16): Option<Bytes>
  {
    match property
    case 11 => Some([0x22, 0x0B, 0xB8])
    case 12 => Some([0x91, 0x00])
    case 13 => Some([0x91, 0x18])
    case 62 => Some([0x91, 0x02])
    case 75 => Some(ShortText(if cfg.deviceName == [] then FALLBACK_NAME else cfg.deviceName))
    case 76 => Some([0x22, cfg.vendorId / 0x100, cfg.vendorId % 0x100])
    case 85 => Some([0x75, 5, 0x30, 0x2E, 0x31, 0x2E, 0x30])
    case 97 => Some([0x85, 5, 5, 0x84, 0x0B, 0x00, 0x20])
    case 139 => Some([0x21, 0x18])
    case 512 => Some(ShortText(cfg.transportMode))
    case _ => None
  }

  function ObjectName(id: ObjectId): (name: Bytes)
    ensures |name| <= 10
  {
    var digits := Decimal.Show(id.instance);
    assert |digits| <= 7 by {
      assert Decimal.Pow10(3) == 1000 && Decimal.Pow10(7) == 10000000;
      Decimal.ZeroPadIsFixed(id.instance, 7);
    }
    match id.kind
    case 1 => Ascii("AO-" + digits)
    case 2 => Ascii("AV-" + digits)
    case 54 => Ascii("LO-" + digits)
    case _ => Ascii("?-" + digits)
  }

  const PRESENT_VALUE := 85
  const PRIORITY_ARRAY := 87

  /** The properties of the three commandable objects, under the numbers the source gives them. */
  function ObjectValue(o: Object, property: u16): Option<Bytes>
  {
    match property
    case 36 => Some(AppEnumerated(0))
    case 75 => Some(AppObjectId(o.id))
    case 77 => Some(AppCharacterString(ObjectName(o.id)))
    case 79 => Some(AppEnumerated(o.id.kind))
    case 81 => Some(AppBoolean(o.outOfService))
    case 85 => Some(AppReal(o.presentValue))
    case 87 => Some(PriorityArrayBytes(o.slots, 0))
    case 103 => Some(AppEnumerated(0))
    case 104 => Some(AppReal(o.relinquishDefault))
    case 111 => Some(AppBitString(4, [if o.outOfService then 1 else 0]))
    case 117 => Some(AppEnumerated(if o.id.kind == LIGHTING_OUTPUT then 105 else 95))
    case 119 => Some(AppEnumerated(0))
    case _ => None
  }

  // Replies.

  function ReplyTo(cfg: DeviceConfig, m: Message, payload: Bytes): Frame
  {
    Unicast(cfg.local, m.sourceNetwork.UnwrapOr(Address(1, m.sourceMac)), payload)
  }

  /** What a ReadProperty is answered with: nothing, a stop of the device, or a frame that may be kept. */
  datatype ReadOutcome = Silent | Halt | Reply(frame: Frame, kept: bool)

  /** A ReadProperty answered from the state, no cache involved. */
  function FreshRead(cfg: DeviceConfig, objects: Objects, m: Message): ReadOutcome
    requires |m.apdu| >= 11
  {
    match ParseProperty(m.apdu)
    case NoProperty => Silent
    case CutShort => Halt
    case PropertyId(property) =>
      match DeviceOid(cfg)
      case None => Silent
      case Some(device) =>
        var requested := ParseObjectId(m.apdu).UnwrapOr(device);
        if requested == device then ReadDevice(cfg, device, m, property)
        else if requested in objects then ReadObject(cfg, objects[requested], m, property)
        else Reply(ReplyTo(cfg, m, ErrorPdu(m.apdu[2], READ_PROPERTY, ERROR_CLASS_OBJECT, UNKNOWN_OBJECT)), false)
  }

  function ReadDevice(cfg: DeviceConfig, device: ObjectId, m: Message, property: u16): ReadOutcome
    requires |m.apdu| > 2
  {
    match DeviceValue(cfg, property)
    case None =>
      Reply(ReplyTo(cfg, m, ErrorPdu(m.apdu[2], READ_PROPERTY, ERROR_CLASS_PROPERTY, UNKNOWN_PROPERTY)), true)
    case Some(value) => Reply(ReplyTo(cfg, m, ReadAck(m.apdu[2], device, property, value)), true)
  }

  function ReadObject(cfg: DeviceConfig, o: Object, m: Message, property: u16): ReadOutcome
    requires |m.apdu| > 2
  {
    match ObjectValue(o, property)
    case None =>
      Reply(ReplyTo(cfg, m, ErrorPdu(m.apdu[2], READ_PROPERTY, ERROR_CLASS_PROPERTY, UNKNOWN_PROPERTY)), false)
    case Some(value) => Reply(ReplyTo(cfg, m, ReadAck(m.apdu[2], o.id, property, value)), true)
  }

  datatype WriteOutcome = Ignored | Refused(errorClass: u16, errorCode: u16) | Accepted(id: ObjectId, change: Change)

  function Write(cfg: DeviceConfig, ids: set<ObjectId>, apdu: Bytes): (r: WriteOutcome)
    ensures r.Accepted? ==> r.id in ids
    ensures !r.Ignored? ==> |apdu| >= 14
  {
    if |apdu| < 14 then Ignored
    else
      match ParseObjectId(apdu)
      case None => Ignored
      case Some(id) =>
        match DeviceOid(cfg)
        case None => Ignored
        case Some(device) =>
          if id == device then Refused(ERROR_CLASS_PROPERTY, WRITE_ACCESS_DENIED)
          else
            match ParseProperty(apdu)
            case PropertyId(property) =>
              if id in ids then WriteObject(id, apdu, property, 10 + apdu[9] % 8)
              else Refused(ERROR_CLASS_OBJECT, UNKNOWN_OBJECT)
            case _ => Ignored
  }

  function WriteObject(id: ObjectId, apdu: Bytes, property: u16, propEnd: nat): (r: WriteOutcome)
    ensures r.Accepted? ==> r.id == id
  {
    match property
    case 85 =>
      (match ParseWriteValue(apdu, propEnd)
       case None => Refused(ERROR_CLASS_PROPERTY, WRITE_ACCESS_DENIED)
       case Some(command) => Accepted(id, Commanding(command)))
    case 81 =>
      (match DecodeTag(apdu, propEnd)
       case Some((tag, _)) =>
         if IsContext(tag, 2) && tag.length == 1 && propEnd + 1 < |apdu|
         then Accepted(id, Service(apdu[propEnd + 1] != 0))
         else Accepted(id, NoChange)
       case None => Accepted(id, NoChange))
    case _ => Refused(ERROR_CLASS_PROPERTY, WRITE_ACCESS_DENIED)
  }

  function IAm(cfg: DeviceConfig): seq<Frame>
  {
    match DeviceOid(cfg)
    case None => []
    case Some(device) =>
      [Broadcast(cfg.local, [0x10, 0x00] + CtxObjectId(0, device) + CtxUnsigned(1, 1476) + CtxUnsigned(2, 0)
                            + CtxUnsigned(3, cfg.vendorId))]
  }

  // The device as a state machine.

  /** `halted`: the receiving loop has ended on an index out of range. */
  datatype DeviceState = DeviceState(objects: Objects, cache: map<byte, Frame>, halted: bool)

  function BootObjects(): Objects { map id | id in OBJECT_IDS :: MakeObject(id) }

  function Boot(): DeviceState { DeviceState(BootObjects(), map[], false) }

  function WriteEffect(objects: Objects, outcome: WriteOutcome): Objects
  {
    match outcome
    case Accepted(id, change) => if id in objects then objects[id := Changed(objects[id], change)] else objects
    case _ => objects
  }

  /** Written objects: a WriteProperty's whole effect on the device. */
  function ObjectsStep(cfg: DeviceConfig, objects: Objects, m: Message): Objects
  {
    if Classify(m.apdu).WriteProperty? then WriteEffect(objects, Write(cfg, objects.Keys, m.apdu)) else objects
  }

  function WriteReply(cfg: DeviceConfig, m: Message, outcome: WriteOutcome): seq<Frame>
    requires outcome.Ignored? || |m.apdu| > 2
  {
    match outcome
    case Ignored => []
    case Refused(class_, code) => [ReplyTo(cfg, m, ErrorPdu(m.apdu[2], WRITE_PROPERTY, class_, code))]
    case Accepted(_, _) => [ReplyTo(cfg, m, SimpleAck(m.apdu[2], WRITE_PROPERTY))]
  }

  /** A ReadProperty long enough to be looked at. */
  predicate IsRead(m: Message) { Classify(m.apdu).ReadProperty? && |m.apdu| >= 11 }

  /** An answer not taken from the cache: sent, and kept when it may be. */
  function AfterAnswer(caching: bool, s: DeviceState, invokeId: byte, r: ReadOutcome): (DeviceState, seq<Frame>)
  {
    match r
    case Silent => (s, [])
    case Halt => (s.(halted := true), [])
    case Reply(frame, kept) => (if caching && kept then s.(cache := s.cache[invokeId := frame]) else s, [frame])
  }

  /** With or without the response cache. */
  function ReadStep(cfg: DeviceConfig, caching: bool, s: DeviceState, m: Message): (DeviceState, seq<Frame>)
    requires IsRead(m)
  {
    var invokeId := m.apdu[2];
    if caching && invokeId in s.cache then (s, [s.cache[invokeId]])
    else AfterAnswer(caching, s, invokeId, FreshRead(cfg, s.objects, m))
  }

  function SubscribeReply(cfg: DeviceConfig, m: Message): seq<Frame>
  {
    if |m.apdu| < 3 then []
    else [ReplyTo(cfg, m, SimpleAck(m.apdu[2], SUBSCRIBE_COV)).(source := Address(1, cfg.transportMac))]
  }

  function Step(cfg: DeviceConfig, caching: bool, s: DeviceState, m: Message): (DeviceState, seq<Frame>)
  {
    if s.halted then (s, [])
    else
      match Classify(m.apdu)
      case WhoIs => (s, IAm(cfg))
      case ReadProperty => if IsRead(m) then ReadStep(cfg, caching, s, m) else (s, [])
      case SubscribeCov => (s, SubscribeReply(cfg, m))
      case WriteProperty =>
        (s.(objects := ObjectsStep(cfg, s.objects, m)), WriteReply(cfg, m, Write(cfg, s.objects.Keys, m.apdu)))
      case Unhandled => (s, [])
  }

  function Run(cfg: DeviceConfig, caching: bool, s: DeviceState, ms: seq<Message>): DeviceState
  {
    if ms == [] then s else Step(cfg, caching, Run(cfg, caching, s, ms[..|ms| - 1]), ms[|ms| - 1]).0
  }

  /** The reply to each message of a run, in order. */
  function Replies(cfg: DeviceConfig, caching: bool, s: DeviceState, ms: seq<Message>): (r: seq<seq<Frame>>)
    ensures |r| == |ms|
  {
    if ms == [] then []
    else
      var front := ms[..|ms| - 1];
      Replies(cfg, caching, s, front) + [Step(cfg, caching, Run(cfg, caching, s, front), ms[|ms| - 1]).1]
  }
}
