# BACnet Bridge: a verified model

BACnet Bridge joins a BACnet/IP network to a remote one. The BACnet stack itself lives in other crates; this project
models the logic the bridge owns, and proves what that logic does over whole runs.

| part | files | main results |
|---|---|---|
| Local device: a BACnet device that answers from bytes to bytes | `Encoding`, `Commands`, `ObjectStore`, `Device`, `DeviceRuns`, `DeviceClient`, `DeviceWire`, `DeviceMachine` | write-then-read through the parser, the priority array and the encoder; what the response cache holds after any run, and when it cannot be noticed; acknowledgements and errors read back as what was asked |
| Calendar and Foreign Device Table | `Decimal`, `Text`, `Calendar`, `Ipv4`, `ForeignDevices` | the conversion of seconds to dates is a bijection, and its text sorts as time does; the table is exactly the live registrations of its history; the mirror converges |
| Router supervisor | `State`, `RouterLoop`, `Interleaving` | the loop-head invariant, conservation of routers, and the reduction of every interleaving of handlers, queue and loop to a sequential run |
| Overrides | `Config`, `Overrides`, `OverrideKeys`, `OrderFree`, `EnvNames` | every key by its text and what it assigns; the order of the override map cannot matter exactly when no two keys give one field different values |
| Log ring and distribution table | `Filtering`, `LogRing`, `Ipv4` | the ring is the last pushes in order; printed addresses parse back; a table converts exactly when every entry does |

How the parts are built. Code that updates state in place is a class (`ObjectState`, `Store`, `LocalDevice`,
`FdtManager`, `StateManager`, `Supervisor`, `ConfigStore`, `LogRingBuffer`), and each of its methods is proved equal to
a function of the old state. The theorems are lemmas about those functions, over all inputs and all runs. Time, the
wall clock, the success of starting a router and the contents of the BBMD's table are arguments.

Choices a reader should know:

- A 32-bit float is its four bytes; the device only copies floats.
- Tags and primitive values are encoded and decoded as sections 20.2.1 to 20.2.15 of ASHRAE 135 lay down; the crates that
  do it are not part of this model. `Encoding.PinnedAcks` agrees with the byte vectors of the source's own tests.
- WriteProperty reads the value under context tag 2 and the priority under context tag 3, and the objects answer under
  the property numbers of the source, whatever the standard assigns to those numbers.
- A ReadProperty of eleven octets that announces a two-octet property id indexes past the end of the message
  (`crates/bridge-core/src/local_device.rs:265`) and ends the receiving task. The model keeps this as a halted device,
  so no message is excluded; `DeviceRuns.HaltsOnCutShort` says exactly which messages do it.
- The network-layer frame is a value of its header fields and payload, so different frames are different values.
- The name and transport mode of the device object are sent with one length octet that keeps the low eight bits.
  `DeviceClient.DeviceNameReadable` says when a client finds the right length.
- `start_router` succeeds only for a transport mode it knows (`crates/bridge-core/src/transport.rs:16-31`), and is
  otherwise free to succeed or fail.
- `docs/FSD.md:649-658` describes the gates as if a request and the state it was accepted in could not drift apart. In the
  code they can (`Interleaving.StopOvertakesRequest` is such a run). A Stop or Start that passed its gate is then dropped in
  silence, and that happens exactly when it finds another state than the one it needs (`RouterLoop.DroppedIffStale`, and
  the run `Interleaving.SecondStopIsDropped`). A
  SwitchTransport accepted in Running is not dropped: handled after a Stop, it starts the stopped router
  (`RouterLoop.LateSwitchStarts`, and the run `Interleaving.LateSwitchRestarts`).
- After a failed start the code tries Starting to Stopped and ignores that this is not legal
  (`src/router_cmd.rs:112`, `241`, `280`), so the published state stays Starting, where every gate of the dashboard is
  closed. The warning at `src/router_cmd.rs:109` offers the dashboard for repair, but whatever is done there publishes
  nothing more and starts no router (`Interleaving.LockedOutForGood`, `Interleaving.FailedBootLocksOut`). Only a switch to
  a known transport helps, and only the tray can still send one (`Interleaving.TraySwitchRescues`).
- The tray sends its commands without looking at the state (`src/tray.rs:120-176`), although `docs/FSD.md:652-658` has its
  items greyed out.
- The response cache is keyed by the one-octet invoke id alone and never emptied. So a reply can go to another client
  (`DeviceRuns.ReplyGoesHome` says exactly when, `DeviceClient.ReplyGoesElsewhere` is such a run), and a repeated read can
  miss a write (`DeviceClient.RetryIsCurrent` and `DeviceClient.RetryMissesWrite`).
- A WriteProperty laid out as section 15.9 of ASHRAE 135 has it, with the value inside context tag 3, changes nothing
  (`DeviceClient.StandardWriteIgnored`).
- A message shorter than fourteen octets is no WriteProperty to the device, whatever it says: a bare write of the
  out-of-service flag has thirteen and is ignored without an answer (`DeviceWire.BareFlagWriteIgnored`).
- The status flags are sent with the flag in one of the bits the bit string declares unused, so they always read clear
  (`DeviceWire.StatusFlagsReadClear`). The I-Am carries context tags, as the source writes it, where clause 21 of ASHRAE
  135 has application tags (`DeviceWire.WhoIsAnswer`).
- What follows a scalar's name in an override key is ignored, so `router.transport` and `router.transport.x` reach one
  field (`Overrides.SharedField`).

## Model

| member | source | states |
|---|---|---|
| Encoding.IdRoundTrip | crates/bridge-core/src/local_device.rs:617 | every object identifier of 10 and 22 bits survives encoding and decoding |
| Encoding.TagRoundTrip | crates/bridge-core/src/local_device.rs:744 | a tag header written anywhere in a message decodes to its number, class and length, and to the position after it |
| Encoding.LongTagRoundTrip | crates/bridge-core/src/local_device.rs:744 | the same for every tag number to 254 and every length of 32 bits, with their extra octets |
| Encoding.ReadAckRoundTrip | crates/bridge-core/src/local_device.rs:620-635 | a client decodes from an acknowledgement exactly the invoke id, object id, property id and value bytes put in |
| Encoding.PinnedAcks | crates/bridge-core/src/local_device.rs:991-1014 | the two acknowledgements have the bytes the source's tests expect |
| Encoding.ErrorRoundTrip | crates/bridge-core/src/local_device.rs:948-971 | an error reply decodes to the invoke id, service, class and code it was built from, with nothing left over |
| Commands.ResolveIsLowest | crates/bridge-core/src/local_device.rs:64-71 | the resolved value is that of the lowest commanded slot, and the default exactly when no slot is commanded |
| Commands.PrioritySlots | crates/bridge-core/src/local_device.rs:73-78 | a command at one of the sixteen priorities sets its slot and leaves the other fifteen |
| Commands.CommandHistory | crates/bridge-core/src/local_device.rs:73-78 | after any commands slot p holds the last one at p (null included), and the present value is the last out-of-range value since the last in-range command, else the resolution of the slots |
| Commands.CommandsCommute | crates/bridge-core/src/local_device.rs:570-574 | in-range commands at different priorities commute |
| Commands.PriorityArrayRoundTrip | crates/bridge-core/src/local_device.rs:728-739 | from any slot on, the encoded slots decode to exactly those slots |
| Commands.PriorityArrayIsReadable | crates/bridge-core/src/local_device.rs:726-741 | the bytes of a priority array determine all sixteen slots, and are 64 plus four for each commanded slot |
| Commands.ObjectState.UpdateSlot | crates/bridge-core/src/local_device.rs:73-79 | the slot of an in-range priority is set in place and the present value resolved again; otherwise nothing changes |
| Commands.ObjectState.Apply | crates/bridge-core/src/local_device.rs:570-586 | a parsed write changes the record to what the command semantics say |
| Commands.ObjectState.EncodePriorityArray | crates/bridge-core/src/local_device.rs:726-741 | the loop over the slots produces the bytes that PriorityArrayIsReadable is about |
| ObjectStore.Store.constructor | crates/bridge-core/src/local_device.rs:103-112 | three objects, each new, under its own identifier |
| ObjectStore.Store.Change | crates/bridge-core/src/local_device.rs:534-586 | a write through the map changes the named object and leaves every other one as it was |
| DeviceRuns.WellKeyedAfter | crates/bridge-core/src/local_device.rs:105-112 | after any messages the map has its three keys, each its object's own type and instance |
| DeviceRuns.ObjectObeys | crates/bridge-core/src/local_device.rs:481-577 | after any run of raw messages an object has obeyed exactly the commands those bytes carried for it, in order |
| DeviceRuns.FlagAfterRun | crates/bridge-core/src/local_device.rs:578-588 | the out-of-service flag is the last one written to that object, whatever was commanded |
| DeviceRuns.ChangesAreAcknowledged | crates/bridge-core/src/local_device.rs:481-602 | in every run an object changes only by a WriteProperty that names it and is answered by an acknowledgement; refused writes change nothing |
| DeviceClient.OpeningTagIgnored | crates/bridge-core/src/local_device.rs:551-600 | a write with an opening tag 3 where the value is expected is refused, or for the out-of-service flag acknowledged and ignored; no object changes |
| DeviceClient.StandardWriteIgnored | crates/bridge-core/src/local_device.rs:743-747 | every write built as section 15.9 of ASHRAE 135 has it leaves the device as it was, in any state, with exactly that reply |
| DeviceRuns.CacheHistory | crates/bridge-core/src/local_device.rs:102-167 | after any run the cache holds for each invoke id the frame of its first kept answer, computed from the objects of that moment, and nothing for other ids |
| DeviceRuns.ReadReply | crates/bridge-core/src/local_device.rs:243-250 | the reply to a ReadProperty in any run: the first kept answer to its invoke id, else what the present objects answer |
| DeviceRuns.CachedForGood | crates/bridge-core/src/local_device.rs:243-250 | a cached reply never changes and every later ReadProperty with its id gets exactly those bytes, whatever was written in between |
| DeviceRuns.CacheTransparent | crates/bridge-core/src/local_device.rs:431 | if ReadProperty invoke ids are pairwise distinct, the device sends message by message what a device without a cache sends, and ends with the same objects |
| DeviceRuns.RepliesMatch | crates/bridge-core/src/local_device.rs:146-166 | in every run a confirmed request gets at most one reply, naming its service and invoke id, also from the cache, and one not from the cache goes to its requester |
| DeviceRuns.ReplyGoesHome | crates/bridge-core/src/local_device.rs:243-250 | in every run the reply to a ReadProperty goes to its requester if and only if its invoke id has no kept answer or the first request with one came from the same place |
| DeviceClient.ReplyGoesElsewhere | crates/bridge-core/src/local_device.rs:243-250 | two clients with one invoke id: the second one's read is answered to the first |
| DeviceClient.RetryIsCurrent | crates/bridge-core/src/local_device.rs:243-250 | in every run a repeated read gets what the present objects would answer if and only if the property has the value it had at the first read |
| DeviceClient.RetryMissesWrite | crates/bridge-core/src/local_device.rs:243-250 | read, write and the same read again: the object holds the new value, the reply is not the present one |
| DeviceRuns.HaltsOnCutShort | crates/bridge-core/src/local_device.rs:252-268 | a run ends the receiving task if and only if it contains a ReadProperty, not answered from the cache, that ends inside its two-octet property id |
| DeviceRuns.CutShortRead | crates/bridge-core/src/local_device.rs:265 | eleven concrete octets that do so |
| DeviceClient.ReadRequestParses | crates/bridge-core/src/local_device.rs:610-618 | a built ReadProperty, with a property id of one octet or two, is classified as one and parses to its own invoke id, object and property |
| DeviceClient.WriteValueParses | crates/bridge-core/src/local_device.rs:743-793 | the value (real or null) and any priority octet of a built write parse back, wherever they stand |
| DeviceClient.WriteRequestParses | crates/bridge-core/src/local_device.rs:481-577 | a built write to one of the objects is accepted as exactly the command it was built from |
| DeviceClient.AckEchoes | crates/bridge-core/src/local_device.rs:891-892 | after any run a supported read with a new invoke id is answered by one frame to the requester, from which its invoke id, object id, property id and value are decoded |
| DeviceClient.UnsupportedReads | crates/bridge-core/src/local_device.rs:292-353 | every other such read gets a decodable error naming object or property as unknown, and only the device object's errors are cached |
| DeviceClient.DeviceNameReadable | crates/bridge-core/src/local_device.rs:360-370 | the name's length octet gives a client the name's length if and only if that is below 254 |
| DeviceClient.LongNameReadsEmpty | crates/bridge-core/src/local_device.rs:932-945 | a name of 256 octets reads as an empty one, against the non-zero length the tests promise |
| DeviceClient.PresentValueAfterRun | crates/bridge-core/src/local_device.rs:852-856 | reading Present_Value after any run of raw messages returns the real that the run's parsed commands left |
| DeviceClient.PriorityArrayAfterRun | crates/bridge-core/src/local_device.rs:857 | reading the priority array after any run returns bytes from which every slot is recovered |
| DeviceClient.WriteThenRead | crates/bridge-core/src/local_device.rs:551-577 | after any run, a write of real v at priority p and then a read with a new invoke id gives v's four bytes when no lower slot is commanded, else those of the lowest commanded slot |
| DeviceClient.WireWriteThenRead | crates/bridge-core/src/local_device.rs:92-167 | the same for the bytes of a built write and a built read after any received bytes: parsing, update, resolution and encoding compose |
| DeviceWire.Dispatch | crates/bridge-core/src/local_device.rs:123-166 | which octet holds the service number, segmented or not, and which numbers are answered |
| DeviceWire.ObjectIdField | crates/bridge-core/src/local_device.rs:610-618 | an object id is read exactly after the octet 0x0C, ten bits of type and twenty-two of instance |
| DeviceWire.PropertyField | crates/bridge-core/src/local_device.rs:252-268 | property ids of one and of two octets, the one cut short, and no other length |
| DeviceWire.PriorityForms | crates/bridge-core/src/local_device.rs:776-790 | the priority is the octet after a context tag 3 of one to four octets, and 0 when there is no such tag, no octet after it, or nothing at all |
| DeviceWire.RealForm | crates/bridge-core/src/local_device.rs:743-772 | the octets of a real inside context tag 2 give that real |
| DeviceWire.NullForms | crates/bridge-core/src/local_device.rs:749-757 | both forms of null |
| DeviceWire.RefusedForms | crates/bridge-core/src/local_device.rs:744-771 | values under another tag, cut short, or of another type are refused |
| DeviceWire.FlagForms | crates/bridge-core/src/local_device.rs:578-588 | the flag is true for any octet but 0 in its one form, and any other form changes nothing |
| DeviceWire.UnprioritizedWrite | crates/bridge-core/src/local_device.rs:551-577 | after any run, the octets of a write without a priority leave every slot alone, and a fresh read returns the written real |
| DeviceWire.FlagWriteThenRead | crates/bridge-core/src/local_device.rs:578-588 | after any run, the octets of a flag write and a fresh read of it return true for every octet but 0 |
| DeviceWire.BareFlagWriteIgnored | crates/bridge-core/src/local_device.rs:488-490 | thirteen octets of such a write change nothing and get no answer |
| DeviceWire.WriteDispatch | crates/bridge-core/src/local_device.rs:481-602 | every WriteProperty by its octets: silence, the three denials octet for octet, or the acknowledgement with one object changed at most |
| DeviceWire.ObjectOctets | crates/bridge-core/src/local_device.rs:804-889 | the octets of each of the objects' properties, and that there are no others |
| DeviceWire.ObjectNames | crates/bridge-core/src/local_device.rs:831-841 | the three names octet for octet |
| DeviceWire.DeviceOctets | crates/bridge-core/src/local_device.rs:309-400 | the octets of each of the device object's properties, and that there are no others |
| DeviceWire.DeviceNameOctets | crates/bridge-core/src/local_device.rs:360-370 | the configured name, or BACnet-Bridge when there is none |
| DeviceWire.StatusFlagsReadClear | crates/bridge-core/src/local_device.rs:868-873 | the four bits a client reads are never set |
| DeviceWire.FlagRead | crates/bridge-core/src/local_device.rs:847-851 | after any run a fresh read of the flag returns the one last written, as a boolean |
| DeviceWire.FixedRead | crates/bridge-core/src/local_device.rs:820-887 | after any run object id, type, default, unit and the zero properties read the same |
| DeviceWire.NameAndStatusRead | crates/bridge-core/src/local_device.rs:831-873 | after any run the name, and the octet of the status flags |
| DeviceWire.SubscribeAnswer | crates/bridge-core/src/local_device.rs:438-479 | a subscription is acknowledged from the transport's address and changes nothing |
| DeviceWire.WhoIsAnswer | crates/bridge-core/src/local_device.rs:169-227 | a Who-Is is answered by the broadcast octets of the device's id and vendor, unless the id is out of range |
| DeviceWire.SentFromLocal | crates/bridge-core/src/local_device.rs:325-340 | in every run whatever else is sent has the device's own source address |
| DeviceMachine.LocalDevice.ReadValue | crates/bridge-core/src/local_device.rs:819-889 | the value bytes of each property, read from the record in place |
| DeviceMachine.LocalDevice.HandleReadProperty | crates/bridge-core/src/local_device.rs:229-436 | the handler sends and caches what the state machine's read step says |
| DeviceMachine.LocalDevice.HandleWriteProperty | crates/bridge-core/src/local_device.rs:481-602 | the handler changes the objects and sends the reply that the parsed outcome says, and leaves the cache alone |
| DeviceMachine.LocalDevice.Receive | crates/bridge-core/src/local_device.rs:114-166 | one turn of the receiving loop is one step of the state machine |
| DeviceMachine.LocalDevice.HandleLocalDevice | crates/bridge-core/src/local_device.rs:92-167 | the whole loop is a run of the state machine, and sends exactly its replies in order |
| Calendar.YearStep | crates/bridge-core/src/fdt.rs:52-54 | the closed-form day count grows by 366 over a leap year and by 365 over any other, by the source's leap rule |
| Calendar.MonthStep | crates/bridge-core/src/fdt.rs:31-35 | the month tables add up to the closed-form days before each month and to the year |
| Calendar.CivilOf | crates/bridge-core/src/fdt.rs:12-44 | for every u64 the result is a valid Gregorian date and time whose closed-form second count is exactly that number |
| Calendar.CivilOfInverts | crates/bridge-core/src/fdt.rs:12-44 | every valid date and time comes back from its second count, so the conversion is a bijection |
| Calendar.CivilOrder | crates/bridge-core/src/fdt.rs:19-44 | field-by-field order of dates and times is the order of their instants |
| Calendar.IsoOrder | crates/bridge-core/src/fdt.rs:46-49 | before year 10000 the text has 24 characters, sorts exactly as (seconds, milliseconds) and is injective |
| Calendar.IsoText | crates/bridge-core/src/fdt.rs:46-49 | the layout of the text: each number with its width and its separator |
| Calendar.EpochToIso | crates/bridge-core/src/fdt.rs:6-50 | the year and month loops end and produce the text that IsoOrder is about |
| ForeignDevices.UpsertContents | crates/bridge-core/src/fdt.rs:117-133 | an add replaces the key's entry or appends one, keeps keys distinct and touches no other entry |
| ForeignDevices.HistoryRefinement | crates/bridge-core/src/fdt.rs:112-137 | after any adds, removes and ticks keys are distinct, and an entry is present exactly when it is its key's latest add, not removed since, and by the clock less than ttl + 31 seconds old at every tick since |
| ForeignDevices.RetainedInTime | crates/bridge-core/src/fdt.rs:112-115 | an age of at most ttl + 30 in whole seconds is less than ttl + 31 seconds in nanoseconds of the clock |
| ForeignDevices.RemainingSeconds | crates/bridge-core/src/fdt.rs:86-87 | a row listed n whole seconds after its registration shows n seconds less than its ttl |
| ForeignDevices.ShownRegistration | crates/bridge-core/src/fdt.rs:89-99 | a row shows the wall time of its registration to the millisecond, however much later it is listed |
| ForeignDevices.ShownEpoch | crates/bridge-core/src/fdt.rs:90-95 | and the epoch when the wall clock shows less than the time since |
| ForeignDevices.RowsAreReadable | crates/bridge-core/src/fdt.rs:77-110 | a row's address parses back to the entry's, and rows never sort by text against the order of registration |
| ForeignDevices.RoundContents | src/router_cmd.rs:139-149 | after a sync round, each add and the tick at its own clock reading: of the source's last word on each key it shows, and of the older registrations of other keys, exactly what survives the tick |
| ForeignDevices.MirrorIsFresh | src/router_cmd.rs:139-149 | every mirrored device is listed with its ttl and its full remaining time less at most the round's own duration, and every remaining time is between -30 and the ttl |
| ForeignDevices.MirrorConverges | src/router_cmd.rs:132-152 | once no round for 65535 + 31 seconds of the clock has shown a device that the last round does not show, the mirror is the last round's source as a map, less only what the round itself outlived (nothing, in less than 31 seconds) |
| ForeignDevices.FdtManager.Add | crates/bridge-core/src/fdt.rs:117-133 | the in-place add extends the history the table refines by one add |
| ForeignDevices.FdtManager.Remove | crates/bridge-core/src/fdt.rs:135-137 | the in-place remove extends it by one remove |
| ForeignDevices.FdtManager.Tick | crates/bridge-core/src/fdt.rs:112-115 | the in-place expiry extends it by one tick |
| ForeignDevices.RowsOfHistory | crates/bridge-core/src/fdt.rs:77-110 | the listing has a row for exactly each live registration of the history, and no two rows share address text and port |
| ForeignDevices.FdtManager.List | crates/bridge-core/src/fdt.rs:77-110 | what `list` returns is that listing of the table's own history, in table order |
| ForeignDevices.FdtManager.Sync | src/router_cmd.rs:139-149 | the loop of adds and the later tick extend the history by exactly one round, each step at its own clock reading |
| Ipv4.ParseAccepts | crates/bridge-core/src/bbmd_transport.rs:14-28 | parsing gives an address exactly when the text has four parts that are numerals of its octets |
| Ipv4.ParseErrors | crates/bridge-core/src/bbmd_transport.rs:16-26 | which of the two errors, and about which part |
| Ipv4.AcceptedShape | crates/bridge-core/src/bbmd_transport.rs:15-26 | accepted texts are exactly four dot-free numerals of 0 to 255 joined by dots |
| Ipv4.DottedRoundTrip | crates/bridge-core/src/fdt.rs:81-84 | the printed form of an address parses back to the same four octets |
| Ipv4.ParseIpv4 | crates/bridge-core/src/bbmd_transport.rs:14-28 | the loop with early return computes that parse, with the first bad octet as its error |
| Ipv4.ConvertBdtEntry | crates/bridge-core/src/bbmd_transport.rs:30-37 | an entry converts to its own address, port and mask, or fails when its text denotes no address |
| Ipv4.BdtConversion | crates/bridge-core/src/bbmd_transport.rs:53-56 | a table converts if and only if every entry's text denotes an address, entry by entry in order; else with the first bad entry's error |
| Prelude.Collect | crates/bridge-core/src/bbmd_transport.rs:53-56 | collecting results: all values in order, or the first error |
| Filtering.LastKept | crates/bridge-core/src/logbuf.rs:50-57 | the last `limit` kept entries stand in their order, and a kept entry is missing only if it is older than all `limit` that are there |
| LogRing.LevelFilter | crates/bridge-core/src/logbuf.rs:20-29 | which entries each of the five levels lets through, by name |
| LogRing.OtherLevelFilter | crates/bridge-core/src/logbuf.rs:20-29 | and any other name, which ranks above them all |
| LogRing.LogRingBuffer.Push | crates/bridge-core/src/logbuf.rs:39-45 | the ring stays exactly the last `capacity` pushes, in order |
| LogRing.LogRingBuffer.Recent | crates/bridge-core/src/logbuf.rs:47-58 | the answer is the last `limit` of those pushes whose level passes |
| Config.SetGet | crates/bridge-core/src/config.rs:248-357 | assigning a field sets it and leaves every other field and the distribution table alone |
| Config.SameFields | crates/bridge-core/src/config.rs:60-70 | a configuration is determined by its named fields and the distribution table |
| OrderFree.OrderIndependence | crates/bridge-core/src/config.rs:232-246 | for any record of parts, folding keyed assignments is order-independent if and only if no two keys mean different values for one part |
| Overrides.OverrideOrder | crates/bridge-core/src/config.rs:232-357 | iteration order of the override map cannot matter if and only if no two keys resolve to one field with different parsed values |
| Overrides.DistinctTargets | crates/bridge-core/src/config.rs:232-357 | when no two keys resolve to one field, in every order each field is its key's parsed value or the original, and the distribution table is unchanged |
| Overrides.SharedField | crates/bridge-core/src/config.rs:249-251 | `router.transport` and `router.transport.x` share a field, and order decides unless their texts are equal |
| OverrideKeys.KeyTable | crates/bridge-core/src/config.rs:232-357 | a field is reached by its own key text and no other, but for a dot and anything after the four fields directly under `router` |
| OverrideKeys.KeyDecides | crates/bridge-core/src/config.rs:232-246 | so an override does what its key text says, and any other key does nothing |
| OverrideKeys.LanAndTailscaleKeyTexts | crates/bridge-core/src/config.rs:263-321 | the keys of both sections, written out |
| OverrideKeys.RouterKeyTexts | crates/bridge-core/src/config.rs:250-262 | the keys directly under `router`, written out |
| OverrideKeys.HubUrlKeyText | crates/bridge-core/src/config.rs:282-303 | keys of the SC section, written out |
| OverrideKeys.ReconnectKeyTexts | crates/bridge-core/src/config.rs:283-297 | keys of the SC section, written out |
| OverrideKeys.CertKeyTexts | crates/bridge-core/src/config.rs:298-300 | keys of the SC section, written out |
| OverrideKeys.WebKeyTexts | crates/bridge-core/src/config.rs:327-338 | the keys of the web section, written out |
| OverrideKeys.HubKeyTexts | crates/bridge-core/src/config.rs:344-347 | keys of the hub section, written out |
| OverrideKeys.AcmeKeyTexts | crates/bridge-core/src/config.rs:348-354 | keys of the hub section, written out |
| OverrideKeys.RouterTexts | crates/bridge-core/src/config.rs:248-324 | each text field of the router takes the text, and nothing else in the record moves |
| OverrideKeys.WebAndHubTexts | crates/bridge-core/src/config.rs:327-347 | the same for the web and hub sections |
| OverrideKeys.AcmeTexts | crates/bridge-core/src/config.rs:348-349 | the same for the two ACME texts |
| OverrideKeys.ShortNumbers | crates/bridge-core/src/config.rs:257-317 | a printed number sets a 16-bit field exactly up to 65535 |
| OverrideKeys.WideNumbers | crates/bridge-core/src/config.rs:252-297 | the same for the 32-bit and 64-bit fields |
| OverrideKeys.NoNumeral | crates/bridge-core/src/config.rs:252-317 | a text that is no numeral leaves a number field alone |
| OverrideKeys.FlagFields | crates/bridge-core/src/config.rs:301-353 | flags take `true` and `false` only, and the certificate check any text, with `1` for true |
| Decimal.ParseUnsignedAccepts | crates/bridge-core/src/config.rs:253 | exactly the numerals up to the maximum are accepted, with leading zeros and one plus sign |
| Overrides.ConfigStore.ApplyOverrides | crates/bridge-core/src/config.rs:232-246 | the loop over the map is such a fold, in some order of its keys |
| Overrides.ConfigStore.ApplyRouterOverride | crates/bridge-core/src/config.rs:248-324 | the nested dispatch assigns exactly the field the key resolves to, when the text parses, and nothing else |
| Overrides.ConfigStore.ApplyWebOverride | crates/bridge-core/src/config.rs:326-341 | the same for the web section |
| Overrides.ConfigStore.ApplyHubOverride | crates/bridge-core/src/config.rs:343-357 | the same for the hub section |
| EnvNames.EnvRoundTrip | crates/bridge-core/src/config.rs:222-226 | the variable that spells a key is read back as that key if and only if the key has no capital letter and no underscore before an underscore or a dot |
| EnvNames.ReadNames | crates/bridge-core/src/config.rs:222 | exactly the variables that begin with BACNET_BRIDGE_ are read |
| EnvNames.ThreeUnderscores | crates/bridge-core/src/config.rs:226 | of three underscores the first two are the dot |
| EnvNames.CollectedOverrides | crates/bridge-core/src/config.rs:220-230 | the map holds exactly the keys some variable stands for, with the last such variable's text |
| State.TryWalks | crates/bridge-core/src/state.rs:44-62 | exactly the next position of the walk Stopped, Starting, Running, Stopping is accepted, so published states always follow it |
| State.StateManager.TryTransition | crates/bridge-core/src/state.rs:44-62 | accepted exactly for the next position, then published once; otherwise nothing is published |
| RouterLoop.HandleKeeps | src/router_cmd.rs:192-302 | every turn keeps the head invariant: handle iff Running, never Stopping, Starting iff the last attempt failed, started minus stopped is the handle, transport agreement |
| RouterLoop.RunKeeps | src/router_cmd.rs:104-302 | the head invariant holds at every loop head of every run, for all commands, PUTs and start outcomes |
| RouterLoop.BootEffect | src/router_cmd.rs:104-120 | what the first start leaves, in each outcome, with the configuration untouched |
| RouterLoop.StopEffect | src/router_cmd.rs:206-216 | a Stop in Running takes the router down and nothing else |
| RouterLoop.StartEffect | src/router_cmd.rs:217-245 | a Start in Stopped brings up a router of the configured transport, when it can be started |
| RouterLoop.UnknownModeIgnored | src/router_cmd.rs:247-250 | a switch to any mode but the two is ignored |
| RouterLoop.ConfigAfterTurn | src/router_cmd.rs:261-265 | over any turn, field by field: only a PUT and a switch to one of the two modes change the configuration, the switch in its transport alone |
| RouterLoop.ExitIsClean | src/router_cmd.rs:194-203 | leaving by Ctrl-C or Exit leaves no router, also on the error return, which happens exactly when none was running |
| RouterLoop.StaleCommands | src/router_cmd.rs:206-229 | any number of Stops and Starts publish nothing if and only if all are late or repeated, and then touch no router; after a failed start every Stop and Start is late |
| RouterLoop.DroppedIffStale | src/router_cmd.rs:206-245 | one Stop or Start publishes nothing if and only if it does not find the state it needs |
| RouterLoop.LateSwitchStarts | src/router_cmd.rs:246-287 | a switch handled in another state than Running is not dropped: it attempts a start, and a success brings up a router that had been stopped |
| RouterLoop.SwitchTransportEffect | src/router_cmd.rs:246-287 | a valid switch changes, field by field, only the transport even when the start fails, stops the old router once and holds the new one exactly when the start succeeded |
| RouterLoop.Supervisor.constructor | src/router_cmd.rs:44-120 | the first start, as the model's first state |
| RouterLoop.Supervisor.StopRunning | src/router_cmd.rs:253-259 | take the handle, publish, stop the router, publish |
| RouterLoop.Supervisor.StartRouter | src/router_cmd.rs:269-286 | the two outcomes of a start attempt |
| RouterLoop.Supervisor.Open | src/router_cmd.rs:217-268 | which commands make a start attempt, and what they do before it |
| RouterLoop.Supervisor.LeaveLoop | src/router_cmd.rs:288-298 | leaving, with the error return |
| RouterLoop.Supervisor.Turn | src/router_cmd.rs:193-301 | one turn of the select loop is one step of the model |
| RouterLoop.Supervisor.Serve | src/router_cmd.rs:192-302 | the loop is a run of the model, until it is left |
| Interleaving.InterleavingIsARun | src/web/api.rs:189-307 | in every interleaving of handlers, queue, PUTs and loop steps, the loop's variables at its head are those of a sequential run over the logged turns, with the last PUT laid over |
| Interleaving.AlwaysSafe | src/router_cmd.rs:192-302 | at every step: published states walk, live routers are started minus stopped and at most one, a live router has the configured transport unless a PUT came after its start, no handle is overwritten, none is left at the end |
| Interleaving.CommandsInOrder | src/router_cmd.rs:122 | every queued command is handled once, in the order queued, and at most 32 wait |
| Interleaving.QueueHolds32 | src/router_cmd.rs:122 | with 32 queued a handler's send waits and the tray's is lost, before that both are queued last |
| Interleaving.GateAgrees | src/web/api.rs:189-287 | a gate lets a Stop or Start through exactly when the loop would publish something for it in that state, a switch exactly in Running to one of the two modes |
| Interleaving.PutEffect | src/web/api.rs:293-304 | a PUT waits for a start under way, and at any other time replaces the configuration and nothing else |
| Interleaving.SwitchServed | src/router_cmd.rs:246-277 | a served switch brings up a router with its mode and has changed the configuration, field by field, in its transport alone |
| Interleaving.PutAgreement | src/web/api.rs:289-307 | a PUT keeps a live router and the configuration in agreement if and only if it brings that router's transport |
| Interleaving.StopOvertakesRequest | src/web/api.rs:207-255 | a run in which a stop and any other command pass their gates in Running, and the other one is still queued when the stop has been handled |
| Interleaving.SecondStopIsDropped | src/web/api.rs:239-255 | so a second stop is received in Stopped and changes nothing in the loop |
| Interleaving.LateSwitchRestarts | src/web/api.rs:207-226 | and a switch is received in Stopped and brings up a router with its transport |
| Interleaving.LockedOutForGood | src/web/api.rs:207-307 | with Starting published and no known-mode switch under way, no steps of dashboard, tray, signal, queue and loop publish or start anything again, but for the tray's switch to a known mode |
| Interleaving.FailedBootLocksOut | src/router_cmd.rs:105-115 | after a failed first start no dashboard request ever passes and no other step but that switch starts a router |
| Interleaving.TraySwitchRescues | src/router_cmd.rs:246-287 | and that switch does bring up a router, from any locked-out loop head with an empty queue |
| Interleaving.SamplesInOrder | src/web/api.rs:207-211 | of two samples of the state, the later stands at the same or a later place of the walk |

## Left out

- The BACnet stack (`BACnetRouter`, `RouterTable`, SC hub and spoke, `BbmdState`, `BipTransport`) is not part of this model; the BBMD's table is an arbitrary list in each round.
- The layout of network-layer frames, failures of encoding them and send errors: a frame is a value and sending it always works.
- Debug and warning output, and the text of error messages.
- Reading and saving the configuration file, the command-line transport override and the embedded hub's start-up and change of hub URL.
- Sockets, TLS, certificates, ACME, signals other than Ctrl-C, the scheduler; locks appear only where they keep a PUT out of a start.
- The tray: its commands are `TraySend` steps that are queued or dropped, from any state, since the source sends them without a gate.
- HTTP routing and the read-only status handlers; a handler's answer to its caller.
- Web handlers are steps of a state machine on values, since what matters about them is where they interleave.
- The name of an object of a type other than the three the device creates: no such object exists.
- I-Am: its bytes are modelled; no property is stated beyond them.
- Lower-casing of environment names covers ASCII letters only.
- The free-form `fields` of a log entry, which push and recent only carry along.
- LogRing.LogRingBuffer.Push: requires a positive capacity, because the source removes from an empty list and panics when the capacity is zero.
- ForeignDevices.FdtManager.List: elapsed time and wall clock are read once for the whole list, where the source reads them for each row.
- After a stop the mirror keeps reading the stopped router's table, which here is one more arbitrary source; between the adds and the tick, when the lock is free, only listings can come, since nothing else in the program writes the table.
- DeviceClient.DeviceNameReadable: is about the length octet; the source writes no character-set octet before the name, and the model keeps it so.
