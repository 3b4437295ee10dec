/** A commandable object: its sixteen-slot priority array and present value (ASHRAE 135, section 19.2). */
module Commands {
  import opened Prelude
  import opened Encoding

  const SLOTS := 16

  type Slots = s: seq<Option<Real32>> | |s| == SLOTS witness seq(SLOTS, _ => None)

  datatype Object = Object(
    id: ObjectId,
    presentValue: Real32,
    slots: Slots,
    relinquishDefault: Real32,
    outOfService: bool)

  function MakeObject(id: ObjectId): Object { Object(id, ZERO, seq(SLOTS, _ => None), ZERO, false) }

  /** The first slot that is commanded, or the default: `iter().flatten().copied().next().unwrap_or(..)`. */
  function Resolve(slots: seq<Option<Real32>>, default: Real32): Real32
  {
    if slots == [] then default else if slots[0].Some? then slots[0].value else Resolve(slots[1..], default)
  }

  /** Resolution by priority: slot i decides exactly when it is commanded and no slot below it is. */
  predicate Decides(slots: seq<Option<Real32>>, i: nat)
  {
    i < |slots| && slots[i].Some? && forall k | 0 <= k < i :: slots[k].None?
  }

  lemma {:induction false} ResolveIsLowest(slots: seq<Option<Real32>>, default: Real32)
    ensures forall i: nat | Decides(slots, i) :: Resolve(slots, default) == slots[i].value
    ensures (forall i | 0 <= i < |slots| :: slots[i].None?) ==> Resolve(slots, default) == default
    ensures (exists i | 0 <= i < |slots| :: slots[i].Some?) ==> exists i: nat :: Decides(slots, i)
  {
    if slots != [] {
      var rest := slots[1..];
      ResolveIsLowest(rest, default);
      forall i: nat | Decides(slots, i)
        ensures Resolve(slots, default) == slots[i].value
      {
        if i > 0 { assert Decides(rest, i - 1); }
      }
      if slots[0].Some? {
        assert Decides(slots, 0);
      } else if i :| 0 <= i < |slots| && slots[i].Some? {
        assert rest[i - 1].Some?;
        var j: nat :| Decides(rest, j);
        assert Decides(slots, j + 1) by { assert forall k | 0 < k < j + 1 :: slots[k] == rest[k - 1]; }
      }
    }
  }

  /** A write of Present_Value as it was parsed; priority 0 stands for none. */
  datatype Command = Command(priority: byte, value: Option<Real32>)

  predicate InRange(priority: int) { 1 <= priority <= SLOTS }

  function UpdatePriority(o: Object, priority: int, value: Option<Real32>): Object
  {
    if InRange(priority) then
      var slots := o.slots[priority - 1 := value];
      o.(slots := slots, presentValue := Resolve(slots, o.relinquishDefault))
    else o
  }

  /** In range the slot is set and the value resolved; out of range a value goes straight to Present_Value. */
  function Obey(o: Object, c: Command): Object
  {
    if InRange(c.priority) then UpdatePriority(o, c.priority, c.value)
    else if c.value.Some? then o.(presentValue := c.value.value)
    else o
  }

  /** Sixteen priorities, each with its slot: one command sets one slot and leaves the other fifteen. */
  lemma {:induction false} PrioritySlots(o: Object, p: byte, value: Option<Real32>)
    requires 1 <= p <= 16
    ensures var r := Obey(o, Command(p, value));
            r.slots[p - 1] == value && forall k | 0 <= k < 16 && k != p - 1 :: r.slots[k] == o.slots[k]
  {
  }

  function ObeyAll(o: Object, cs: seq<Command>): Object
  {
    if cs == [] then o else Obey(ObeyAll(o, cs[..|cs| - 1]), cs[|cs| - 1])
  }

  /** What an accepted write does to its object. */
  datatype Change = Commanding(c: Command) | Service(outOfService: bool) | NoChange

  function Changed(o: Object, change: Change): Object
  {
    match change
    case Commanding(c) => Obey(o, c)
    case Service(outOfService) => o.(outOfService := outOfService)
    case NoChange => o
  }

  /** The last command at or before the end that satisfies a test, as a place, or -1. */
  function LastWhere(cs: seq<Command>, test: Command -> bool): (i: int)
    ensures -1 <= i < |cs|
    ensures i >= 0 ==> test(cs[i])
    ensures forall k | i < k < |cs| :: !test(cs[k])
  {
    if cs == [] then -1
    else if test(cs[|cs| - 1]) then |cs| - 1
    else LastWhere(cs[..|cs| - 1], test)
  }

  function AtSlot(p: int): Command -> bool { (c: Command) => c.priority == p }

  function AnyInRange(): Command -> bool { (c: Command) => InRange(c.priority) }

  function DirectValue(): Command -> bool { (c: Command) => !InRange(c.priority) && c.value.Some? }

  lemma {:induction false} SlotHistory(o: Object, cs: seq<Command>, p: int)
    requires InRange(p)
    ensures var i := LastWhere(cs, AtSlot(p));
            ObeyAll(o, cs).slots[p - 1] == if i >= 0 then cs[i].value else o.slots[p - 1]
    ensures ObeyAll(o, cs) == o.(slots := ObeyAll(o, cs).slots, presentValue := ObeyAll(o, cs).presentValue)
  {
    if cs != [] {
      SlotHistory(o, cs[..|cs| - 1], p);
    }
  }

  lemma {:induction false} ValueHistory(o: Object, cs: seq<Command>)
    ensures var i, j := LastWhere(cs, AnyInRange()), LastWhere(cs, DirectValue());
            ObeyAll(o, cs).presentValue ==
            if j > i then cs[j].value.value
            else if i >= 0 then Resolve(ObeyAll(o, cs).slots, o.relinquishDefault)
            else o.presentValue
  {
    if cs != [] {
      SlotHistory(o, cs[..|cs| - 1], 1);
      ValueHistory(o, cs[..|cs| - 1]);
    }
  }

  /**
   What a run of commands means: slot p holds the last value commanded at p, null included; and the present
   value is the last out-of-range value when one came after every in-range command, else the resolution of
   the slots when there was an in-range command at all, else what it was.
   */
  lemma {:induction false} CommandHistory(o: Object, cs: seq<Command>)
    ensures forall p | InRange(p) ::
              var i := LastWhere(cs, AtSlot(p));
              ObeyAll(o, cs).slots[p - 1] == if i >= 0 then cs[i].value else o.slots[p - 1]
    ensures var i, j := LastWhere(cs, AnyInRange()), LastWhere(cs, DirectValue());
            ObeyAll(o, cs).presentValue ==
            if j > i then cs[j].value.value
            else if i >= 0 then Resolve(ObeyAll(o, cs).slots, o.relinquishDefault)
            else o.presentValue
    ensures ObeyAll(o, cs) == o.(slots := ObeyAll(o, cs).slots, presentValue := ObeyAll(o, cs).presentValue)
  {
    SlotHistory(o, cs, 1);
    ValueHistory(o, cs);
    forall p | InRange(p)
      ensures var i := LastWhere(cs, AtSlot(p));
              ObeyAll(o, cs).slots[p - 1] == if i >= 0 then cs[i].value else o.slots[p - 1]
    {
      SlotHistory(o, cs, p);
    }
  }

  /** In-range commands at different priorities commute. */
  lemma {:induction false} CommandsCommute(o: Object, c: Command, d: Command)
    requires InRange(c.priority) && InRange(d.priority) && c.priority != d.priority
    ensures Obey(Obey(o, c), d) == Obey(Obey(o, d), c)
  {
    assert o.slots[c.priority - 1 := c.value][d.priority - 1 := d.value]
        == o.slots[d.priority - 1 := d.value][c.priority - 1 := c.value];
  }

  // The priority array as bytes.

  /** Slot i: its number, and null or the value in an opening construct of its own. */
  function SlotBytes(i: nat, slot: Option<Real32>): Bytes
    requires i < SLOTS
  {
    [0x09, i + 1] + match slot case Some(v) => [0x1D] + AppReal(v) case None => [0x19, 0x00]
  }

  /** The slots from i on. */
  function PriorityArrayBytes(slots: Slots, i: nat): Bytes
    requires i <= SLOTS
    decreases SLOTS - i, |slots|
  {
    if i == SLOTS then [] else SlotBytes(i, slots[i]) + PriorityArrayBytes(slots, i + 1)
  }

  /** A reader for the slots from i on; it must use up all the bytes. */
  function DecodeSlots(b: Bytes, i: nat): Option<seq<Option<Real32>>>
    requires i <= SLOTS
    decreases SLOTS - i, |b|
  {
    if i == SLOTS then (if b == [] then Some([]) else None)
    else if |b| < 4 || b[0] != 0x09 || b[1] != i + 1 then None
    else if b[2] == 0x19 && b[3] == 0x00 then
      match DecodeSlots(b[4..], i + 1) case None => None case Some(rest) => Some([None] + rest)
    else if |b| >= 8 && b[2] == 0x1D && b[3] == 0x44 then
      match DecodeSlots(b[8..], i + 1) case None => None case Some(rest) => Some([Some(b[4..8])] + rest)
    else None
  }

  function Commanded(slots: Slots, i: nat): nat
    requires i <= SLOTS
    decreases SLOTS - i, |slots|
  {
    if i == SLOTS then 0 else (if slots[i].Some? then 1 else 0) + Commanded(slots, i + 1)
  }

  /** The bytes determine every slot, and their length tells how many are commanded. */
  lemma {:induction false} PriorityArrayRoundTrip(slots: Slots, i: nat)
    requires i <= SLOTS
    ensures DecodeSlots(PriorityArrayBytes(slots, i), i) == Some(slots[i..])
    ensures |PriorityArrayBytes(slots, i)| == 4 * (SLOTS - i) + 4 * Commanded(slots, i)
    decreases SLOTS - i
  {
    if i < SLOTS {
      PriorityArrayRoundTrip(slots, i + 1);
      var rest := PriorityArrayBytes(slots, i + 1);
      var b := PriorityArrayBytes(slots, i);
      assert slots[i..] == [slots[i]] + slots[i + 1..];
      match slots[i]
      case None =>
        assert SlotBytes(i, None) == [0x09, i + 1, 0x19, 0x00];
        assert b[4..] == rest;
      case Some(v) =>
        assert AppReal(v) == [0x44] + v;
        assert SlotBytes(i, Some(v)) == [0x09, i + 1, 0x1D, 0x44] + v;
        assert b == ([0x09, i + 1, 0x1D, 0x44] + v) + rest;
        assert b[8..] == rest && b[4..8] == v;
    } else {
      assert slots[i..] == [];
    }
  }

  /**
   A whole array, read back, gives its sixteen slots, so two arrays with the same bytes are the same; and it
   takes 64 octets and four more for every commanded slot.
   */
  lemma {:induction false} PriorityArrayIsReadable(slots: Slots, value: Bytes)
    requires value == PriorityArrayBytes(slots, 0)
    ensures DecodeSlots(value, 0) == Some(slots)
    ensures |value| == 64 + 4 * Commanded(slots, 0)
  {
    PriorityArrayRoundTrip(slots, 0);
    assert slots[0..] == slots;
  }

  /** The record behind one object identifier, updated in place. */
  class ObjectState {
    const id: ObjectId
    var presentValue: Real32
    const priorityArray: array<Option<Real32>>
    const relinquishDefault: Real32
    var outOfService: bool

    ghost predicate Valid()
    {
      priorityArray.Length == SLOTS
    }

    ghost function View(): Object
      reads this, priorityArray
      requires Valid()
    {
      Object(id, presentValue, priorityArray[..], relinquishDefault, outOfService)
    }

    constructor (id: ObjectId)
      ensures Valid() && fresh(priorityArray) && View() == MakeObject(id)
    {
      this.id := id;
      presentValue := ZERO;
      priorityArray := new Option<Real32>[SLOTS](_ => None);
      relinquishDefault := ZERO;
      outOfService := false;
      new;
      assert priorityArray[..] == seq(SLOTS, _ => None);
    }

    method UpdateSlot(priority: nat, value: Option<Real32>)
      requires Valid()
      modifies this`presentValue, priorityArray
      ensures Valid() && View() == UpdatePriority(old(View()), priority, value)
    {
      if 1 <= priority <= 16 {
        priorityArray[priority - 1] := value;
        presentValue := Resolve(priorityArray[..], relinquishDefault);
        assert priorityArray[..] == old(View()).slots[priority - 1 := value];
      }
    }

    method Apply(change: Change)
      requires Valid()
      modifies this, priorityArray
      ensures View() == Changed(old(View()), change)
    {
      match change
      case Commanding(c) =>
        if 1 <= c.priority <= 16 {
          UpdateSlot(c.priority, c.value);
        } else if c.value.Some? {
          presentValue := c.value.value;
        }
      case Service(flag) => outOfService := flag;
      case NoChange =>
    }

    method EncodePriorityArray() returns (v: Bytes)
      requires Valid()
      ensures v == PriorityArrayBytes(View().slots, 0)
    {
      ghost var slots: Slots := priorityArray[..];
      v := [];
      for i := 0 to priorityArray.Length
        invariant v + PriorityArrayBytes(slots, i) == PriorityArrayBytes(slots, 0)
      {
        Assoc(v, SlotBytes(i, slots[i]), PriorityArrayBytes(slots, i + 1));
        v := ExtendBySlot(v, i, priorityArray[i]);
      }
    }

    static method ExtendBySlot(before: Bytes, i: nat, prio: Option<Real32>) returns (v: Bytes)
      requires i < SLOTS
      ensures v == before + SlotBytes(i, prio)
    {
      v := [0x09, i + 1];
      match prio {
        case Some(value) => v := v + ([0x1D] + AppReal(value));
        case None => v := v + [0x19, 0x00];
      }
      v := before + v;
    }
  }
}
