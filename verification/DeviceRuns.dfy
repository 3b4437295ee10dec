/** Whole runs of the local device: its objects, its cache, and what a client can read back. */
module DeviceRuns {
  import opened Prelude
  import opened Encoding
  import opened Commands
  import opened ObjectStore
  import opened Device

  // Objects.

  /** The object map's keys are fixed and each key is its object's own identifier. */
  predicate WellKeyed(objects: Objects)
  {
    objects.Keys == OBJECT_IDS && forall id | id in objects :: objects[id].id == id
  }

  /** The objects after a run, by its writes alone. */
  function ObjectsAfter(cfg: DeviceConfig, objects: Objects, ms: seq<Message>): Objects
  {
    if ms == [] then objects else ObjectsStep(cfg, ObjectsAfter(cfg, objects, ms[..|ms| - 1]), ms[|ms| - 1])
  }

  lemma {:induction false} ChangeKeepsId(o: Object, change: Change)
    ensures Changed(o, change).id == o.id
  {
  }

  lemma {:induction false} WellKeyedAfter(cfg: DeviceConfig, objects: Objects, ms: seq<Message>)
    requires WellKeyed(objects)
    ensures WellKeyed(ObjectsAfter(cfg, objects, ms))
  {
    if ms != [] {
      WellKeyedAfter(cfg, objects, ms[..|ms| - 1]);
      var before := ObjectsAfter(cfg, objects, ms[..|ms| - 1]);
      var m := ms[|ms| - 1];
      if Classify(m.apdu).WriteProperty? {
        match Write(cfg, before.Keys, m.apdu)
        case Accepted(id, change) => ChangeKeepsId(before[id], change);
        case _ =>
      }
    }
  }

  /** Until it halts, the device's objects are those its writes made, with or without the cache. */
  lemma {:induction false} ObjectsOfRun(cfg: DeviceConfig, caching: bool, s: DeviceState, ms: seq<Message>)
    requires !Run(cfg, caching, s, ms).halted
    ensures Run(cfg, caching, s, ms).objects == ObjectsAfter(cfg, s.objects, ms)
    ensures !s.halted
  {
    if ms != [] {
      ObjectsOfRun(cfg, caching, s, ms[..|ms| - 1]);
    }
  }

  /** A halted run stays as it was when it halted. */
  lemma {:induction false} HaltIsEarlier(cfg: DeviceConfig, caching: bool, s: DeviceState, ms: seq<Message>, i: nat)
    requires i <= |ms| && !Run(cfg, caching, s, ms).halted
    ensures !Run(cfg, caching, s, ms[..i]).halted
  {
    if i < |ms| {
      assert ms[..|ms| - 1][..i] == ms[..i];
      HaltIsEarlier(cfg, caching, s, ms[..|ms| - 1], i);
    } else {
      assert ms[..i] == ms;
    }
  }

  /** The commands a run gives one object, as parsed from its messages. */
  function CommandsFor(cfg: DeviceConfig, id: ObjectId, ms: seq<Message>): seq<Command>
  {
    if ms == [] then []
    else
      CommandsFor(cfg, id, ms[..|ms| - 1])
      + match CommandIn(cfg, id, ms[|ms| - 1]) case Some(c) => [c] case None => []
  }

  /** The command one message gives one object, if it does. */
  function CommandIn(cfg: DeviceConfig, id: ObjectId, m: Message): Option<Command>
  {
    if !Classify(m.apdu).WriteProperty? then None
    else
      match Write(cfg, OBJECT_IDS, m.apdu)
      case Accepted(other, Commanding(c)) => if other == id then Some(c) else None
      case _ => None
  }

  predicate SameCommandState(a: Object, b: Object)
  {
    a == b.(outOfService := a.outOfService)
  }

  lemma {:induction false} ObeySame(a: Object, b: Object, c: Command)
    requires SameCommandState(a, b)
    ensures SameCommandState(Obey(a, c), Obey(b, c))
  {
  }

  lemma {:induction false} ObjectStep(cfg: DeviceConfig, before: Objects, m: Message, id: ObjectId, o: Object)
    requires WellKeyed(before) && id in before && SameCommandState(before[id], o)
    ensures id in ObjectsStep(cfg, before, m)
    ensures SameCommandState(ObjectsStep(cfg, before, m)[id],
                             match CommandIn(cfg, id, m) case Some(c) => Obey(o, c) case None => o)
  {
    if Classify(m.apdu).WriteProperty? {
      match Write(cfg, before.Keys, m.apdu)
      case Accepted(other, Commanding(c)) => if other == id { ObeySame(before[id], o, c); }
      case _ =>
    }
  }

  /** An object after any run has obeyed exactly the commands that the run's bytes carried for it. */
  lemma {:induction false} ObjectObeys(cfg: DeviceConfig, objects: Objects, ms: seq<Message>, id: ObjectId)
    requires WellKeyed(objects) && id in objects
    ensures id in ObjectsAfter(cfg, objects, ms)
    ensures SameCommandState(ObjectsAfter(cfg, objects, ms)[id], ObeyAll(objects[id], CommandsFor(cfg, id, ms)))
  {
    if ms != [] {
      var front, m := ms[..|ms| - 1], ms[|ms| - 1];
      WellKeyedAfter(cfg, objects, front);
      ObjectObeys(cfg, objects, front, id);
      var cs := CommandsFor(cfg, id, front);
      ObjectStep(cfg, ObjectsAfter(cfg, objects, front), m, id, ObeyAll(objects[id], cs));
      match CommandIn(cfg, id, m)
      case None => assert CommandsFor(cfg, id, ms) == cs;
      case Some(c) =>
        assert CommandsFor(cfg, id, ms) == cs + [c];
        assert (cs + [c])[..|cs|] == cs;
    }
  }

  /** The out-of-service flag one message writes to one object, if it does. */
  function FlagIn(cfg: DeviceConfig, id: ObjectId, m: Message): Option<bool>
  {
    if !Classify(m.apdu).WriteProperty? then None
    else
      match Write(cfg, OBJECT_IDS, m.apdu)
      case Accepted(other, Service(flag)) => if other == id then Some(flag) else None
      case _ => None
  }

  /** The last flag a run writes to one object, or the one it had. */
  function LastFlag(cfg: DeviceConfig, id: ObjectId, ms: seq<Message>, initial: bool): bool
  {
    if ms == [] then initial
    else FlagIn(cfg, id, ms[|ms| - 1]).UnwrapOr(LastFlag(cfg, id, ms[..|ms| - 1], initial))
  }

  lemma {:induction false} FlagStep(cfg: DeviceConfig, before: Objects, m: Message, id: ObjectId)
    requires WellKeyed(before) && id in before
    ensures id in ObjectsStep(cfg, before, m)
    ensures ObjectsStep(cfg, before, m)[id].outOfService == FlagIn(cfg, id, m).UnwrapOr(before[id].outOfService)
  {
  }

  /** Commands leave the out-of-service flag to the writes of its own property. */
  lemma {:induction false} FlagAfterRun(cfg: DeviceConfig, objects: Objects, ms: seq<Message>, id: ObjectId)
    requires WellKeyed(objects) && id in objects
    ensures id in ObjectsAfter(cfg, objects, ms)
    ensures ObjectsAfter(cfg, objects, ms)[id].outOfService == LastFlag(cfg, id, ms, objects[id].outOfService)
  {
    if ms != [] {
      var front := ms[..|ms| - 1];
      WellKeyedAfter(cfg, objects, front);
      FlagAfterRun(cfg, objects, front, id);
      FlagStep(cfg, ObjectsAfter(cfg, objects, front), ms[|ms| - 1], id);
    }
  }

  /**
   No object changes unannounced: whatever message changes an object names exactly that object, and is a
   WriteProperty answered by an acknowledgement; any other message, or a refused write, changes none.
   */
  lemma {:induction false} ChangesAreAcknowledged(cfg: DeviceConfig, ms: seq<Message>, m: Message, id: ObjectId)
    requires id in OBJECT_IDS
    ensures id in Run(cfg, true, Boot(), ms).objects
    ensures var s := Run(cfg, true, Boot(), ms);
            var (after, out) := Step(cfg, true, s, m);
            && id in after.objects
            && (after.objects[id] != s.objects[id] ==>
                  && Classify(m.apdu).WriteProperty? && ParseObjectId(m.apdu) == Some(id)
                  && out == [ReplyTo(cfg, m, SimpleAck(m.apdu[2], WRITE_PROPERTY))])
  {
    WellKeyedRun(cfg, ms);
  }

  lemma {:induction false} WellKeyedRun(cfg: DeviceConfig, ms: seq<Message>)
    ensures WellKeyed(Run(cfg, true, Boot(), ms).objects)
  {
    if ms != [] {
      var s, m := Run(cfg, true, Boot(), ms[..|ms| - 1]), ms[|ms| - 1];
      WellKeyedRun(cfg, ms[..|ms| - 1]);
      WellKeyedAfter(cfg, s.objects, [m]);
      assert ObjectsAfter(cfg, s.objects, [m]) == ObjectsStep(cfg, s.objects, m);
    }
  }

  // The cache.

  /** The invoke id under which a message's answer is kept, when the objects are these and nothing is cached. */
  function KeptId(cfg: DeviceConfig, objects: Objects, m: Message): Option<byte>
  {
    if IsRead(m) then
      match FreshRead(cfg, objects, m)
      case Reply(_, kept) => if kept then Some(m.apdu[2]) else None
      case _ => None
    else None
  }

  /** The same for each message of a run. */
  function KeptIds(cfg: DeviceConfig, objects: Objects, ms: seq<Message>): (r: seq<Option<byte>>)
    ensures |r| == |ms|
  {
    if ms == [] then []
    else
      var front := ms[..|ms| - 1];
      KeptIds(cfg, objects, front) + [KeptId(cfg, ObjectsAfter(cfg, objects, front), ms[|ms| - 1])]
  }

  function FirstIndex(ids: seq<Option<byte>>, id: byte): (r: Option<nat>)
    ensures r.Some? ==> r.value < |ids| && ids[r.value] == Some(id) && forall k | 0 <= k < r.value :: ids[k] != Some(id)
    ensures r.None? ==> Some(id) !in ids
  {
    if ids == [] then None
    else
      var n := |ids| - 1;
      match FirstIndex(ids[..n], id)
      case Some(j) => Some(j)
      case None => if ids[n] == Some(id) then Some(n) else None
  }

  /** The first message of a run whose answer to that invoke id is kept. */
  function FirstKept(cfg: DeviceConfig, objects: Objects, ms: seq<Message>, id: byte): (r: Option<nat>)
    ensures r.Some? ==> r.value < |ms|
  {
    FirstIndex(KeptIds(cfg, objects, ms), id)
  }

  lemma {:induction false} KeptIdAt(cfg: DeviceConfig, objects: Objects, ms: seq<Message>, j: nat)
    requires j < |ms|
    ensures KeptIds(cfg, objects, ms)[j] == KeptId(cfg, ObjectsAfter(cfg, objects, ms[..j]), ms[j])
  {
    var n := |ms| - 1;
    if j < n {
      KeptIdAt(cfg, objects, ms[..n], j);
      assert ms[..n][..j] == ms[..j];
    }
  }

  /** The answer to message j of a run, from the objects then. */
  function AnswerAt(cfg: DeviceConfig, objects: Objects, ms: seq<Message>, j: nat): ReadOutcome
    requires j < |ms|
  {
    if IsRead(ms[j]) then FreshRead(cfg, ObjectsAfter(cfg, objects, ms[..j]), ms[j]) else Silent
  }

  function FrameOf(r: ReadOutcome): seq<Frame> { match r case Reply(frame, _) => [frame] case _ => [] }

  /** What the cache holds for an id. */
  function Lookup(cache: map<byte, Frame>, id: byte): seq<Frame> { if id in cache then [cache[id]] else [] }

  lemma {:induction false} CacheStep(cfg: DeviceConfig, s: DeviceState, m: Message, id: byte)
    requires !s.halted && !Step(cfg, true, s, m).0.halted
    ensures Lookup(Step(cfg, true, s, m).0.cache, id) ==
            if id in s.cache then [s.cache[id]]
            else if KeptId(cfg, s.objects, m) == Some(id) then FrameOf(FreshRead(cfg, s.objects, m))
            else []
  {
  }

  lemma {:induction false} FirstKeptStep(cfg: DeviceConfig, objects: Objects, front: seq<Message>, m: Message, id: byte)
    ensures FirstKept(cfg, objects, front + [m], id) ==
            match FirstKept(cfg, objects, front, id)
            case Some(j) => Some(j)
            case None => if KeptId(cfg, ObjectsAfter(cfg, objects, front), m) == Some(id) then Some(|front|) else None
  {
    assert (front + [m])[..|front|] == front;
    var ids := KeptIds(cfg, objects, front);
    assert KeptIds(cfg, objects, front + [m])[..|front|] == ids;
  }

  lemma {:induction false} AnswerStep(cfg: DeviceConfig, objects: Objects, front: seq<Message>, m: Message)
    ensures forall j: nat | j < |front| :: AnswerAt(cfg, objects, front + [m], j) == AnswerAt(cfg, objects, front, j)
    ensures IsRead(m) ==>
              AnswerAt(cfg, objects, front + [m], |front|) == FreshRead(cfg, ObjectsAfter(cfg, objects, front), m)
  {
    assert (front + [m])[..|front|] == front;
    assert forall j: nat | j < |front| :: (front + [m])[..j] == front[..j];
  }

  /** What a run has kept for an id: the frame of the first answer to it that was kept, or nothing. */
  function KeptFrame(cfg: DeviceConfig, objects: Objects, ms: seq<Message>, id: byte): seq<Frame>
  {
    match FirstKept(cfg, objects, ms, id)
    case Some(j) => FrameOf(AnswerAt(cfg, objects, ms, j))
    case None => []
  }

  lemma {:induction false} KeptFrameStep(cfg: DeviceConfig, objects: Objects, front: seq<Message>, m: Message, id: byte)
    ensures KeptFrame(cfg, objects, front + [m], id) ==
            if FirstKept(cfg, objects, front, id).Some? then KeptFrame(cfg, objects, front, id)
            else if KeptId(cfg, ObjectsAfter(cfg, objects, front), m) == Some(id)
            then FrameOf(FreshRead(cfg, ObjectsAfter(cfg, objects, front), m))
            else []
  {
    FirstKeptStep(cfg, objects, front, m, id);
    AnswerStep(cfg, objects, front, m);
  }

  lemma {:induction false} RunExtends(cfg: DeviceConfig, caching: bool, s: DeviceState, front: seq<Message>, m: Message)
    ensures Run(cfg, caching, s, front + [m]) == Step(cfg, caching, Run(cfg, caching, s, front), m).0
  {
    assert (front + [m])[..|front|] == front;
  }

  lemma {:induction false} KeptHasFrame(cfg: DeviceConfig, objects: Objects, m: Message)
    ensures KeptId(cfg, objects, m).Some? ==> FrameOf(FreshRead(cfg, objects, m)) != []
  {
  }

  /**
   What the cache holds after any run from an empty cache: for each invoke id the frame of its first answer
   that was kept, and nothing for an id that has had none.
   */
  lemma {:induction false} CacheHistory(cfg: DeviceConfig, s: DeviceState, ms: seq<Message>, id: byte)
    requires s.cache == map[] && !Run(cfg, true, s, ms).halted
    ensures Lookup(Run(cfg, true, s, ms).cache, id) == KeptFrame(cfg, s.objects, ms, id)
    ensures FirstKept(cfg, s.objects, ms, id).Some? <==> id in Run(cfg, true, s, ms).cache
  {
    if ms != [] {
      var front, m := ms[..|ms| - 1], ms[|ms| - 1];
      var before := Run(cfg, true, s, front);
      assert ms == front + [m];
      HaltIsEarlier(cfg, true, s, ms, |front|);
      CacheHistory(cfg, s, front, id);
      ObjectsOfRun(cfg, true, s, front);
      RunExtends(cfg, true, s, front, m);
      CacheStep(cfg, before, m, id);
      KeptHasFrame(cfg, before.objects, m);
      FirstKeptStep(cfg, s.objects, front, m, id);
      KeptFrameStep(cfg, s.objects, front, m, id);
    }
  }

  /**
   The reply to a ReadProperty in any run: the frame of the first earlier answer to its invoke id that was
   kept, whatever was written in between, and otherwise what the objects of the moment answer.
   */
  lemma {:induction false} ReadReply(cfg: DeviceConfig, s: DeviceState, ms: seq<Message>, m: Message)
    requires s.cache == map[] && !Run(cfg, true, s, ms).halted && IsRead(m)
    ensures Step(cfg, true, Run(cfg, true, s, ms), m) == ReadStep(cfg, true, Run(cfg, true, s, ms), m)
    ensures ReadStep(cfg, true, Run(cfg, true, s, ms), m).1 ==
            if FirstKept(cfg, s.objects, ms, m.apdu[2]).Some? then KeptFrame(cfg, s.objects, ms, m.apdu[2])
            else FrameOf(FreshRead(cfg, ObjectsAfter(cfg, s.objects, ms), m))
  {
    CacheHistory(cfg, s, ms, m.apdu[2]);
    ObjectsOfRun(cfg, true, s, ms);
  }

  /** A cached reply never changes, and every later ReadProperty with its invoke id gets exactly it. */
  lemma {:induction false} CachedForGood(cfg: DeviceConfig, s: DeviceState, ms: seq<Message>, id: byte)
    requires id in s.cache
    ensures id in Run(cfg, true, s, ms).cache && Run(cfg, true, s, ms).cache[id] == s.cache[id]
    ensures forall m | IsRead(m) && m.apdu[2] == id && !Run(cfg, true, s, ms).halted ::
              Step(cfg, true, Run(cfg, true, s, ms), m) == (Run(cfg, true, s, ms), [s.cache[id]])
  {
    if ms != [] {
      CachedForGood(cfg, s, ms[..|ms| - 1], id);
    }
  }

  /** ReadProperty invoke ids are pairwise distinct. */
  predicate FreshIds(ms: seq<Message>)
  {
    forall i, j | 0 <= i < j < |ms| && IsRead(ms[i]) && IsRead(ms[j]) :: ms[i].apdu[2] != ms[j].apdu[2]
  }

  /** Every cached id was read in the run. */
  lemma {:induction false} CachedWasRead(cfg: DeviceConfig, s: DeviceState, ms: seq<Message>, id: byte)
    requires s.cache == map[] && id in Run(cfg, true, s, ms).cache
    ensures exists i :: 0 <= i < |ms| && IsRead(ms[i]) && ms[i].apdu[2] == id
  {
    if ms != [] {
      var front, m := ms[..|ms| - 1], ms[|ms| - 1];
      if id in Run(cfg, true, s, front).cache {
        CachedWasRead(cfg, s, front, id);
        var i :| 0 <= i < |front| && IsRead(front[i]) && front[i].apdu[2] == id;
        assert ms[i] == front[i];
      } else {
        assert IsRead(m) && m.apdu[2] == id;
      }
    }
  }

  predicate SameButCache(a: DeviceState, b: DeviceState) { a.objects == b.objects && a.halted == b.halted }

  lemma {:induction false} StepTransparent(cfg: DeviceConfig, a: DeviceState, b: DeviceState, m: Message)
    requires SameButCache(a, b) && (IsRead(m) ==> m.apdu[2] !in a.cache)
    ensures Step(cfg, true, a, m).1 == Step(cfg, false, b, m).1
    ensures SameButCache(Step(cfg, true, a, m).0, Step(cfg, false, b, m).0)
  {
  }

  /**
   Cache transparency: when no two ReadProperty requests of a run share an invoke id, the device sends what
   a device without a cache would send, message by message, and ends with the same objects.
   */
  lemma {:induction false} CacheTransparent(cfg: DeviceConfig, s: DeviceState, ms: seq<Message>)
    requires s.cache == map[] && FreshIds(ms)
    ensures Replies(cfg, true, s, ms) == Replies(cfg, false, s, ms)
    ensures SameButCache(Run(cfg, true, s, ms), Run(cfg, false, s, ms))
  {
    if ms != [] {
      var front, m := ms[..|ms| - 1], ms[|ms| - 1];
      CacheTransparent(cfg, s, front);
      NotYetCached(cfg, s, ms);
      StepTransparent(cfg, Run(cfg, true, s, front), Run(cfg, false, s, front), m);
    }
  }

  lemma {:induction false} NotYetCached(cfg: DeviceConfig, s: DeviceState, ms: seq<Message>)
    requires s.cache == map[] && FreshIds(ms) && ms != []
    ensures IsRead(ms[|ms| - 1]) ==> ms[|ms| - 1].apdu[2] !in Run(cfg, true, s, ms[..|ms| - 1]).cache
  {
    var front, m := ms[..|ms| - 1], ms[|ms| - 1];
    if IsRead(m) && m.apdu[2] in Run(cfg, true, s, front).cache {
      CachedWasRead(cfg, s, front, m.apdu[2]);
    }
  }

  // When the device stops receiving.

  /** A ReadProperty that is not answered from the cache and ends inside its two-octet property id. */
  predicate CutsShort(s: DeviceState, m: Message)
  {
    IsRead(m) && m.apdu[2] !in s.cache && |m.apdu| == 11 && m.apdu[9] % 8 == 2
  }

  /** Message i of a run, still received, is such a request. */
  predicate CutsShortAt(cfg: DeviceConfig, s: DeviceState, ms: seq<Message>, i: nat)
  {
    i < |ms| && !Run(cfg, true, s, ms[..i]).halted && CutsShort(Run(cfg, true, s, ms[..i]), ms[i])
  }

  lemma {:induction false} HaltsHere(cfg: DeviceConfig, s: DeviceState, m: Message)
    ensures Step(cfg, true, s, m).0.halted <==> s.halted || CutsShort(s, m)
  {
  }

  /** A run halts exactly when it meets such a request; every other message leaves the device receiving. */
  lemma {:induction false} HaltsOnCutShort(cfg: DeviceConfig, s: DeviceState, ms: seq<Message>)
    requires !s.halted
    ensures Run(cfg, true, s, ms).halted <==> exists i: nat :: CutsShortAt(cfg, s, ms, i)
  {
    if ms != [] {
      var n := |ms| - 1;
      HaltsOnCutShort(cfg, s, ms[..n]);
      HaltsHere(cfg, Run(cfg, true, s, ms[..n]), ms[n]);
      var before := Run(cfg, true, s, ms[..n]);
      assert CutsShortAt(cfg, s, ms, n) <==> !before.halted && CutsShort(before, ms[n]);
      forall i: nat | i < n
        ensures CutsShortAt(cfg, s, ms, i) <==> CutsShortAt(cfg, s, ms[..n], i)
      {
        assert ms[..n][..i] == ms[..i];
      }
      if i: nat :| CutsShortAt(cfg, s, ms[..n], i) {
        assert CutsShortAt(cfg, s, ms, i);
      }
    }
  }

  /** One such request is enough to halt a device that has just started. */
  lemma {:induction false} CutShortRead(cfg: DeviceConfig, m: Message)
    requires m.apdu == [0x00, 0x05, 0x01, 0x0C, 0x0C, 0x02, 0x00, 0x00, 0x01, 0x1A, 0x00]
    ensures Run(cfg, true, Boot(), [m]).halted
  {
    assert [m][..0] == [];
    assert Classify(m.apdu) == ReadProperty && CutsShort(Boot(), m);
    HaltsHere(cfg, Boot(), m);
  }

  // Replies answer the request they follow.

  /** A unicast reply of one of the three kinds, to that service and with that invoke id. */
  predicate Carries(f: Frame, invokeId: byte, service: byte)
  {
    f.Unicast? && |f.payload| >= 3 && f.payload[0] in {0x20, 0x30, 0x50}
    && f.payload[1] == invokeId && f.payload[2] == service
  }

  predicate CacheCarries(s: DeviceState) { forall id | id in s.cache :: Carries(s.cache[id], id, READ_PROPERTY) }

  /** How every reply payload begins: its kind, the invoke id, the service. */
  predicate Heads(payload: Bytes, kind: byte, invokeId: byte, service: byte)
  {
    |payload| >= 3 && payload[0] == kind && payload[1] == invokeId && payload[2] == service
  }

  lemma {:induction false} AckHeads(invokeId: byte, o: ObjectId, property: u16, value: Bytes)
    ensures Heads(ReadAck(invokeId, o, property, value), 0x30, invokeId, READ_PROPERTY)
  {
    var rest := CtxObjectId(0, o) + CtxUnsigned(1, property) + [0x3E] + value + [0x3F];
    assert ReadAck(invokeId, o, property, value) == [0x30, invokeId, 0x0C] + rest;
  }

  lemma {:induction false} ErrorHeads(invokeId: byte, service: byte, errorClass: u16, errorCode: u16)
    ensures Heads(ErrorPdu(invokeId, service, errorClass, errorCode), 0x50, invokeId, service)
  {
  }

  predicate Answers(r: ReadOutcome, m: Message)
    requires |m.apdu| > 2
  {
    r.Reply? ==> Carries(r.frame, m.apdu[2], READ_PROPERTY) && Addressed(r.frame, m)
  }

  lemma {:induction false} ReadDeviceCarries(cfg: DeviceConfig, device: ObjectId, m: Message, property: u16)
    requires |m.apdu| > 2
    ensures Answers(ReadDevice(cfg, device, m, property), m)
  {
    var value := DeviceValue(cfg, property);
    ErrorHeads(m.apdu[2], READ_PROPERTY, ERROR_CLASS_PROPERTY, UNKNOWN_PROPERTY);
    AckHeads(m.apdu[2], device, property, value.UnwrapOr([]));
  }

  lemma {:induction false} ReadObjectCarries(cfg: DeviceConfig, o: Object, m: Message, property: u16)
    requires |m.apdu| > 2
    ensures Answers(ReadObject(cfg, o, m, property), m)
  {
    var value := ObjectValue(o, property);
    ErrorHeads(m.apdu[2], READ_PROPERTY, ERROR_CLASS_PROPERTY, UNKNOWN_PROPERTY);
    AckHeads(m.apdu[2], o.id, property, value.UnwrapOr([]));
  }

  lemma {:induction false} FreshReadCarries(cfg: DeviceConfig, objects: Objects, m: Message)
    requires IsRead(m)
    ensures Answers(FreshRead(cfg, objects, m), m)
  {
    ErrorHeads(m.apdu[2], READ_PROPERTY, ERROR_CLASS_OBJECT, UNKNOWN_OBJECT);
    match (ParseProperty(m.apdu), DeviceOid(cfg))
    case (PropertyId(property), Some(device)) =>
      var requested := ParseObjectId(m.apdu).UnwrapOr(device);
      ReadDeviceCarries(cfg, device, m, property);
      if requested in objects { ReadObjectCarries(cfg, objects[requested], m, property); }
    case _ =>
  }

  /** Sent to the requester: its routed address when it has one, else its own on network 1. */
  predicate Addressed(f: Frame, m: Message)
  {
    f.Unicast? && f.destination == Origin(m)
  }

  function Origin(m: Message): Address { m.sourceNetwork.UnwrapOr(Address(1, m.sourceMac)) }

  predicate ServiceOf(m: Message, service: byte)
  {
    match Classify(m.apdu)
    case ReadProperty => service == READ_PROPERTY
    case WriteProperty => service == WRITE_PROPERTY
    case SubscribeCov => service == SUBSCRIBE_COV
    case _ => false
  }

  lemma {:induction false} ReadStepCarries(cfg: DeviceConfig, s: DeviceState, m: Message)
    requires CacheCarries(s) && IsRead(m)
    ensures CacheCarries(ReadStep(cfg, true, s, m).0)
    ensures |ReadStep(cfg, true, s, m).1| <= 1
    ensures forall f | f in ReadStep(cfg, true, s, m).1 ::
              Carries(f, m.apdu[2], READ_PROPERTY) && (Addressed(f, m) || m.apdu[2] in s.cache)
  {
    FreshReadCarries(cfg, s.objects, m);
  }

  lemma {:induction false} StepCarries(cfg: DeviceConfig, s: DeviceState, m: Message)
    requires CacheCarries(s)
    ensures CacheCarries(Step(cfg, true, s, m).0)
    ensures |Step(cfg, true, s, m).1| <= 1
    ensures forall f, service | f in Step(cfg, true, s, m).1 && ServiceOf(m, service) ::
              Carries(f, m.apdu[2], service) && (Addressed(f, m) || (IsRead(m) && m.apdu[2] in s.cache))
  {
    if IsRead(m) {
      ReadStepCarries(cfg, s, m);
    }
  }

  /**
   In every run each confirmed request gets at most one reply; the reply names the request's service and
   invoke id, also when it comes from the cache, and one that does not come from there goes to the requester;
   ReplyGoesHome says where a cached one goes.
   */
  lemma {:induction false} RepliesMatch(cfg: DeviceConfig, ms: seq<Message>, m: Message)
    ensures CacheCarries(Run(cfg, true, Boot(), ms))
    ensures var out := Step(cfg, true, Run(cfg, true, Boot(), ms), m).1;
            && |out| <= 1
            && forall f, service | f in out && ServiceOf(m, service) ::
                 && Carries(f, m.apdu[2], service)
                 && (Addressed(f, m) || (IsRead(m) && m.apdu[2] in Run(cfg, true, Boot(), ms).cache))
  {
    if ms != [] {
      RepliesMatch(cfg, ms[..|ms| - 1], ms[|ms| - 1]);
      StepCarries(cfg, Run(cfg, true, Boot(), ms[..|ms| - 1]), ms[|ms| - 1]);
    }
    StepCarries(cfg, Run(cfg, true, Boot(), ms), m);
  }

  /**
   Where the reply to a ReadProperty goes, in any run: to its requester exactly when its invoke id has had no
   kept answer, or the first request that had one came from the same place.
   */
  lemma {:induction false} ReplyGoesHome(cfg: DeviceConfig, s: DeviceState, ms: seq<Message>, m: Message)
    requires s.cache == map[] && !Run(cfg, true, s, ms).halted && IsRead(m)
    ensures forall f | f in Step(cfg, true, Run(cfg, true, s, ms), m).1 ::
              Addressed(f, m) <==>
              match FirstKept(cfg, s.objects, ms, m.apdu[2])
              case None => true
              case Some(j) => Origin(ms[j]) == Origin(m)
  {
    ReadReply(cfg, s, ms, m);
    match FirstKept(cfg, s.objects, ms, m.apdu[2])
    case None => FreshReadCarries(cfg, ObjectsAfter(cfg, s.objects, ms), m);
    case Some(j) =>
      KeptIdAt(cfg, s.objects, ms, j);
      FreshReadCarries(cfg, ObjectsAfter(cfg, s.objects, ms[..j]), ms[j]);
  }
}
