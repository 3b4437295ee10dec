/** The local device as the source runs it: objects and cache updated in place, frames sent as it goes. */
module DeviceMachine {
  import opened Prelude
  import opened Encoding
  import opened Commands
  import opened ObjectStore
  import opened Device

  class LocalDevice {
    const cfg: DeviceConfig
    const store: Store
    var cache: map<byte, Frame>
    var halted: bool
    /** Every frame handed to the LAN transport. */
    var sent: seq<Frame>

    ghost predicate Valid()
    {
      store.Valid() && this !in store.Footprint()
    }

    ghost function View(): DeviceState
      requires Valid()
      reads this, store.Footprint()
    {
      DeviceState(store.View(), cache, halted)
    }

    constructor (cfg: DeviceConfig)
      ensures Valid() && fresh(store) && fresh(store.Footprint())
      ensures View() == Boot() && sent == [] && this.cfg == cfg
    {
      this.cfg := cfg;
      store := new Store();
      cache, halted, sent := map[], false, [];
    }

    /** One property of one object; the priority array is encoded slot by slot. */
    static method ReadValue(o: ObjectState, property: u16) returns (value: Option<Bytes>)
      requires o.Valid()
      ensures value == ObjectValue(o.View(), property)
    {
      match property
      case 87 =>
        var bytes := o.EncodePriorityArray();
        value := Some(bytes);
      case 81 => value := Some(AppBoolean(o.outOfService));
      case 85 => value := Some(AppReal(o.presentValue));
      case 104 => value := Some(AppReal(o.relinquishDefault));
      case 111 => value := Some(AppBitString(4, [if o.outOfService then 1 else 0]));
      case _ => value := ObjectValue(MakeObject(o.id), property);
    }

    method AnswerObjectRead(o: ObjectState, m: Message, property: u16) returns (r: ReadOutcome)
      requires o.Valid() && |m.apdu| > 2
      ensures r == ReadObject(cfg, o.View(), m, property)
    {
      var value := ReadValue(o, property);
      match value
      case None =>
        r := Reply(ReplyTo(cfg, m, ErrorPdu(m.apdu[2], READ_PROPERTY, ERROR_CLASS_PROPERTY, UNKNOWN_PROPERTY)), false);
      case Some(bytes) => r := Reply(ReplyTo(cfg, m, ReadAck(m.apdu[2], o.id, property, bytes)), true);
    }

    method AnswerRead(m: Message) returns (r: ReadOutcome)
      requires Valid() && |m.apdu| >= 11
      ensures r == FreshRead(cfg, store.View(), m)
    {
      var parsed := ParseProperty(m.apdu);
      if parsed.NoProperty? {
        return Silent;
      }
      if parsed.CutShort? {
        return Halt;
      }
      var device := DeviceOid(cfg);
      if device.None? {
        return Silent;
      }
      var requested := ParseObjectId(m.apdu).UnwrapOr(device.value);
      if requested == device.value {
        return ReadDevice(cfg, device.value, m, parsed.id);
      }
      if requested !in store.objects {
        return Reply(ReplyTo(cfg, m, ErrorPdu(m.apdu[2], READ_PROPERTY, ERROR_CLASS_OBJECT, UNKNOWN_OBJECT)), false);
      }
      r := AnswerObjectRead(store.objects[requested], m, parsed.id);
    }

    method Answer(invokeId: byte, r: ReadOutcome)
      requires Valid()
      modifies this`cache, this`halted, this`sent
      ensures View() == AfterAnswer(true, old(View()), invokeId, r).0
      ensures sent == old(sent) + AfterAnswer(true, old(View()), invokeId, r).1
    {
      match r {
        case Silent => assert sent == sent + [];
        case Halt =>
          halted := true;
          assert sent == sent + [];
        case Reply(frame, kept) =>
          if kept {
            cache := cache[invokeId := frame];
          }
          sent := sent + [frame];
      }
      assert store.View() == old(store.View());
    }

    method HandleReadProperty(m: Message)
      requires Valid() && IsRead(m)
      modifies this`cache, this`halted, this`sent
      ensures View() == ReadStep(cfg, true, old(View()), m).0
      ensures sent == old(sent) + ReadStep(cfg, true, old(View()), m).1
    {
      var invokeId := m.apdu[2];
      if invokeId in cache {
        sent := sent + [cache[invokeId]];
        return;
      }
      var r := AnswerRead(m);
      Answer(invokeId, r);
    }

    method Conclude(m: Message, outcome: WriteOutcome)
      requires Valid() && (outcome.Ignored? || |m.apdu| > 2)
      requires outcome.Accepted? ==> outcome.id in store.objects
      modifies this`sent, store.Footprint()
      ensures store.View() == WriteEffect(old(store.View()), outcome)
      ensures sent == old(sent) + WriteReply(cfg, m, outcome)
    {
      match outcome
      case Ignored => assert sent == sent + [];
      case Refused(errorClass, errorCode) =>
        sent := sent + [ReplyTo(cfg, m, ErrorPdu(m.apdu[2], WRITE_PROPERTY, errorClass, errorCode))];
      case Accepted(id, change) =>
        store.Change(id, change);
        sent := sent + [ReplyTo(cfg, m, SimpleAck(m.apdu[2], WRITE_PROPERTY))];
    }

    method HandleWriteProperty(m: Message)
      requires Valid() && Classify(m.apdu).WriteProperty?
      modifies this`sent, store.Footprint()
      ensures store.View() == ObjectsStep(cfg, old(store.View()), m)
      ensures sent == old(sent) + WriteReply(cfg, m, Write(cfg, old(store.View()).Keys, m.apdu))
    {
      var outcome := Write(cfg, store.objects.Keys, m.apdu);
      assert store.View().Keys == store.objects.Keys;
      Conclude(m, outcome);
    }

    /** One turn of the receiving loop. */
    method Receive(m: Message)
      requires Valid() && !halted
      modifies this`cache, this`halted, this`sent, store.Footprint()
      ensures View() == Step(cfg, true, old(View()), m).0
      ensures sent == old(sent) + Step(cfg, true, old(View()), m).1
    {
      match Classify(m.apdu) {
        case WhoIs => sent := sent + IAm(cfg);
        case ReadProperty =>
          if |m.apdu| >= 11 {
            HandleReadProperty(m);
          }
        case SubscribeCov => sent := sent + SubscribeReply(cfg, m);
        case WriteProperty => HandleWriteProperty(m);
        case Unhandled =>
      }
    }

    method HandleLocalDevice(ms: seq<Message>)
      requires Valid() && !halted
      modifies this`cache, this`halted, this`sent, store.Footprint()
      ensures View() == Run(cfg, true, old(View()), ms)
      ensures sent == old(sent) + Concat(Replies(cfg, true, old(View()), ms))
    {
      ghost var s, out := View(), Concat(Replies(cfg, true, View(), []));
      var i := 0;
      while i < |ms| && !halted
        invariant 0 <= i <= |ms| && Valid()
        invariant View() == Run(cfg, true, s, ms[..i])
        invariant sent == old(sent) + out && out == Concat(Replies(cfg, true, s, ms[..i]))
      {
        RunStep(cfg, s, ms, i);
        ghost var reply := Step(cfg, true, View(), ms[i]).1;
        Receive(ms[i]);
        Assoc(old(sent), out, reply);
        out := out + reply;
        i := i + 1;
      }
      HaltedForGood(cfg, s, ms, i);
    }
  }

  function Concat(replies: seq<seq<Frame>>): seq<Frame>
  {
    if replies == [] then [] else Concat(replies[..|replies| - 1]) + replies[|replies| - 1]
  }

  lemma {:induction false} ConcatStep(replies: seq<seq<Frame>>, last: seq<Frame>)
    ensures Concat(replies + [last]) == Concat(replies) + last
  {
    assert (replies + [last])[..|replies|] == replies;
  }

  lemma {:induction false} RunStep(cfg: DeviceConfig, s: DeviceState, ms: seq<Message>, i: nat)
    requires i < |ms|
    ensures var before := Run(cfg, true, s, ms[..i]);
            && Run(cfg, true, s, ms[..i + 1]) == Step(cfg, true, before, ms[i]).0
            && Concat(Replies(cfg, true, s, ms[..i + 1]))
               == Concat(Replies(cfg, true, s, ms[..i])) + Step(cfg, true, before, ms[i]).1
  {
    assert ms[..i + 1][..i] == ms[..i];
    ConcatStep(Replies(cfg, true, s, ms[..i]), Step(cfg, true, Run(cfg, true, s, ms[..i]), ms[i]).1);
  }

  /** Nothing is sent or changed once the device has halted. */
  lemma {:induction false} HaltedForGood(cfg: DeviceConfig, s: DeviceState, ms: seq<Message>, i: nat)
    requires i <= |ms| && (i == |ms| || Run(cfg, true, s, ms[..i]).halted)
    ensures Run(cfg, true, s, ms) == Run(cfg, true, s, ms[..i])
    ensures Concat(Replies(cfg, true, s, ms)) == Concat(Replies(cfg, true, s, ms[..i]))
  {
    if i == |ms| {
      assert ms[..i] == ms;
    } else {
      var front := ms[..|ms| - 1];
      assert front[..i] == ms[..i];
      HaltedForGood(cfg, s, front, i);
      ConcatStep(Replies(cfg, true, s, front), []);
    }
  }
}
