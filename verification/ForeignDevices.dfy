/** The Foreign Device Table (Annex J.5.2 of ASHRAE 135), with the clock as an explicit argument. */
module ForeignDevices {
  import opened Prelude
  import opened Ipv4
  import Calendar
  import Text

  const GRACE_PERIOD_SECS := 30
  const NANOS_PER_SEC := 1_000_000_000
  const NANOS_PER_MILLI := 1_000_000

  /** A span since the epoch in nanoseconds; its whole seconds fit 64 bits. */
  const DURATION_LIMIT := 0x1_0000_0000_0000_0000 * NANOS_PER_SEC
  type Duration = d: int | 0 <= d < DURATION_LIMIT

  datatype Key = Key(ip: Octets, port: u16)
  datatype FdtEntry = FdtEntry(key: Key, ttl: u16, registeredAt: nat)

  /** `registered_at.elapsed().as_secs()` at clock reading now: whole seconds, never negative. */
  function Age(now: nat, registeredAt: nat): nat
  {
    if now < registeredAt then 0 else (now - registeredAt) / NANOS_PER_SEC
  }

  predicate Retained(e: FdtEntry, now: nat) { e.ttl + GRACE_PERIOD_SECS >= Age(now, e.registeredAt) }

  /** In clock units: less than ttl + 31 seconds of 10^9 nanoseconds have passed since the registration. */
  predicate InTime(e: FdtEntry, now: nat) { now < e.registeredAt + (e.ttl + 31) * 1_000_000_000 }

  /** An age in whole seconds within ttl + 30 is less than ttl + 31 seconds on the clock. */
  lemma {:induction false} RetainedInTime(e: FdtEntry, now: nat)
    ensures Retained(e, now) <==> InTime(e, now)
  {
  }

  /** The place of a key (`iter_mut().find`), or the length. */
  function Find(entries: seq<FdtEntry>, key: Key): (i: nat)
    ensures i <= |entries|
    ensures i < |entries| ==> entries[i].key == key
    ensures forall k | 0 <= k < i :: entries[k].key != key
  {
    if entries == [] || entries[0].key == key then 0 else 1 + Find(entries[1..], key)
  }

  /** `retain`: the kept entries in their order. */
  function Retain(entries: seq<FdtEntry>, keep: FdtEntry -> bool): (r: seq<FdtEntry>)
    ensures forall e :: e in r <==> e in entries && keep(e)
    ensures Distinct(entries) ==> Distinct(r)
  {
    if entries == [] then []
    else
      var rest := Retain(entries[1..], keep);
      assert forall e :: e in entries <==> e == entries[0] || e in entries[1..];
      assert Distinct(entries) ==> Distinct(entries[1..]) && forall e | e in rest :: e.key != entries[0].key;
      if keep(entries[0]) then [entries[0]] + rest else rest
  }

  predicate Distinct(entries: seq<FdtEntry>)
  {
    forall i, j | 0 <= i < j < |entries| :: entries[i].key != entries[j].key
  }

  // The operations on the list of entries.

  function Upsert(entries: seq<FdtEntry>, key: Key, ttl: u16, now: nat): seq<FdtEntry>
  {
    var i := Find(entries, key);
    if i < |entries| then entries[i := entries[i].(ttl := ttl, registeredAt := now)]
    else entries + [FdtEntry(key, ttl, now)]
  }

  function Without(key: Key): FdtEntry -> bool { (e: FdtEntry) => e.key != key }

  function NotExpired(now: nat): FdtEntry -> bool { (e: FdtEntry) => Retained(e, now) }

  // What happened to a table, and what that means.

  datatype Event =
    | Added(now: nat, key: Key, ttl: u16)
    | Removed(now: nat, key: Key)
    | Ticked(now: nat)

  /**
   The meaning of a history for one key: its registration at event i is the latest word on the key, and
   every tick since came within its time to live and the grace period, by the clock.
   */
  predicate Live(h: seq<Event>, i: nat, e: FdtEntry)
  {
    && i < |h|
    && h[i] == Added(e.registeredAt, e.key, e.ttl)
    && (forall j | i < j < |h| :: h[j].Added? || h[j].Removed? ==> h[j].key != e.key)
    && (forall j | i < j < |h| :: h[j].Ticked? ==> InTime(e, h[j].now))
  }

  ghost predicate Registered(h: seq<Event>, e: FdtEntry) { exists i: nat :: Live(h, i, e) }

  /** A table that a history accounts for: one entry a key, and exactly the live registrations. */
  ghost predicate Explains(h: seq<Event>, entries: seq<FdtEntry>)
  {
    Distinct(entries) && forall e :: e in entries <==> Registered(h, e)
  }

  function Apply(entries: seq<FdtEntry>, ev: Event): seq<FdtEntry>
  {
    match ev
    case Added(now, key, ttl) => Upsert(entries, key, ttl, now)
    case Removed(_, key) => Retain(entries, Without(key))
    case Ticked(now) => Retain(entries, NotExpired(now))
  }

  function TableAfter(h: seq<Event>): seq<FdtEntry>
  {
    if h == [] then [] else Apply(TableAfter(h[..|h| - 1]), h[|h| - 1])
  }

  lemma {:induction false} LiveStep(h: seq<Event>, ev: Event, e: FdtEntry)
    ensures Registered(h + [ev], e) <==>
            match ev
            case Added(now, key, ttl) => e == FdtEntry(key, ttl, now) || (Registered(h, e) && e.key != key)
            case Removed(_, key) => Registered(h, e) && e.key != key
            case Ticked(now) => Registered(h, e) && InTime(e, now)
  {
    var h' := h + [ev];
    if i: nat :| Live(h', i, e) {
      if i < |h| {
        assert Live(h, i, e) by { assert forall j | i <= j < |h| :: h[j] == h'[j]; }
        assert h'[|h|] == ev;
      }
    }
    if i: nat :| Live(h, i, e) {
      assert forall j | i <= j < |h| :: h[j] == h'[j];
      if (ev.Ticked? && InTime(e, ev.now)) || (!ev.Ticked? && ev.key != e.key) {
        assert Live(h', i, e);
      }
    }
    if ev == Added(e.registeredAt, e.key, e.ttl) {
      assert Live(h', |h|, e);
    }
  }

  lemma {:induction false} UpsertContents(entries: seq<FdtEntry>, key: Key, ttl: u16, now: nat)
    requires Distinct(entries)
    ensures Distinct(Upsert(entries, key, ttl, now))
    ensures forall e :: e in Upsert(entries, key, ttl, now)
                   <==> e == FdtEntry(key, ttl, now) || (e in entries && e.key != key)
  {
    var i := Find(entries, key);
    var r := Upsert(entries, key, ttl, now);
    if i < |entries| {
      assert r[i] == FdtEntry(key, ttl, now);
      assert forall k | 0 <= k < |entries| && k != i :: r[k] == entries[k] && entries[k].key != key;
    }
  }

  /**
   After any history the table holds one entry a key, and exactly the live registrations: the latest add of
   the key with its own ttl and time, not removed since, and less than ttl + 31 seconds old at every tick since.
   */
  lemma {:induction false} HistoryRefinement(h: seq<Event>)
    ensures Explains(h, TableAfter(h))
  {
    if h != [] {
      var front, ev := h[..|h| - 1], h[|h| - 1];
      HistoryRefinement(front);
      assert h == front + [ev];
      var entries := TableAfter(front);
      if ev.Added? {
        UpsertContents(entries, ev.key, ev.ttl, ev.now);
      }
      forall e
        ensures e in TableAfter(h) <==> Registered(h, e)
      {
        LiveStep(front, ev, e);
        if ev.Ticked? {
          RetainedInTime(e, ev.now);
        }
      }
    }
  }

  /** One row of the dashboard's table. */
  datatype FdtDisplayEntry =
    FdtDisplayEntry(ip: string, port: u16, ttl: u16, remainingTtl: int, registeredAt: string)

  /** The wall-clock time of registration: now minus the elapsed time, not below the epoch. */
  function RegisteredWall(e: FdtEntry, now: nat, wall: Duration): Duration
  {
    var elapsed := if now < e.registeredAt then 0 else now - e.registeredAt;
    if wall < elapsed then 0 else wall - elapsed
  }

  function Display(e: FdtEntry, now: nat, wall: Duration): FdtDisplayEntry
  {
    var at := RegisteredWall(e, now, wall);
    FdtDisplayEntry(Dotted(e.key.ip), e.key.port, e.ttl, e.ttl - Age(now, e.registeredAt),
                    Calendar.Iso(at / NANOS_PER_SEC, at % NANOS_PER_SEC / NANOS_PER_MILLI))
  }

  /** A row listed n whole seconds after its registration shows n seconds less than its ttl. */
  lemma {:induction false} RemainingSeconds(e: FdtEntry, n: nat, fraction: nat, wall: Duration)
    requires fraction < 1_000_000_000
    ensures Display(e, e.registeredAt + n * 1_000_000_000 + fraction, wall).remainingTtl == e.ttl - n
  {
    assert (n * 1_000_000_000 + fraction) / 1_000_000_000 == n;
  }

  /**
   A row shows the wall time of its registration, in seconds and milliseconds, however much later it is
   listed, as long as both clocks have run alike.
   */
  lemma {:induction false} ShownRegistration(e: FdtEntry, later: nat, secs: u64, millis: u32, rest: nat)
    requires millis < 1000 && rest < 1_000_000
    requires secs * 1_000_000_000 + millis * 1_000_000 + rest + later < DURATION_LIMIT
    ensures Display(e, e.registeredAt + later, secs * 1_000_000_000 + millis * 1_000_000 + rest + later).registeredAt
         == Calendar.Iso(secs, millis)
  {
    WallParts(secs, millis, rest);
    WallAtRegistration(e, later, secs * 1_000_000_000 + millis * 1_000_000 + rest, secs, millis);
  }

  lemma {:induction false} WallAtRegistration(e: FdtEntry, later: nat, at: nat, secs: u64, millis: u32)
    requires at + later < DURATION_LIMIT && at / NANOS_PER_SEC == secs && at % NANOS_PER_SEC / NANOS_PER_MILLI == millis
    ensures Display(e, e.registeredAt + later, at + later).registeredAt == Calendar.Iso(secs, millis)
  {
    assert RegisteredWall(e, e.registeredAt + later, at + later) == at;
  }

  /** And the epoch, when the wall clock shows less than the time since. */
  lemma {:induction false} ShownEpoch(e: FdtEntry, later: nat, wall: Duration, epoch: u32)
    requires wall < later && epoch == 0
    ensures Display(e, e.registeredAt + later, wall).registeredAt == Calendar.Iso(epoch, epoch)
  {
    assert RegisteredWall(e, e.registeredAt + later, wall) == 0;
    assert 0 / NANOS_PER_SEC == epoch && 0 % NANOS_PER_SEC / NANOS_PER_MILLI == epoch;
  }

  lemma {:induction false} WallParts(secs: u64, millis: u32, rest: nat)
    requires millis < 1000 && rest < 1_000_000
    ensures var at := secs * 1_000_000_000 + millis * 1_000_000 + rest;
            at / NANOS_PER_SEC == secs && at % NANOS_PER_SEC / NANOS_PER_MILLI == millis
  {
    var part := millis * 1_000_000 + rest;
    assert (secs * 1_000_000_000 + part) / 1_000_000_000 == secs;
    assert (secs * 1_000_000_000 + part) % 1_000_000_000 == part;
    assert part / 1_000_000 == millis;
  }

  /**
   What a row says about its entry: the printed address parses back to the entry's own, and rows whose
   registration times are before year 10000 never sort by text against the order of registration.
   */
  lemma {:induction false} RowsAreReadable(e: FdtEntry, f: FdtEntry, now: nat, wall: Duration)
    requires e.registeredAt <= f.registeredAt
    requires wall / NANOS_PER_SEC < Calendar.YEAR_10000_SECS
    ensures ParseAddress(Display(e, now, wall).ip) == Ok(e.key.ip)
    ensures Display(e, now, wall).port == e.key.port && Display(e, now, wall).ttl == e.ttl
    ensures !Text.LexLess(Display(f, now, wall).registeredAt, Display(e, now, wall).registeredAt)
  {
    DottedRoundTrip(e.key.ip);
    var a, b := RegisteredWall(e, now, wall), RegisteredWall(f, now, wall);
    SplitTime(a, b);
    SplitTime(b, wall);
    Calendar.IsoOrder(b / NANOS_PER_SEC, b % NANOS_PER_SEC / NANOS_PER_MILLI,
                      a / NANOS_PER_SEC, a % NANOS_PER_SEC / NANOS_PER_MILLI);
  }

  lemma {:induction false} SplitTime(a: nat, b: nat)
    requires a <= b
    ensures a % NANOS_PER_SEC / NANOS_PER_MILLI < 1000 && b % NANOS_PER_SEC / NANOS_PER_MILLI < 1000
    ensures || a / NANOS_PER_SEC < b / NANOS_PER_SEC
            || (&& a / NANOS_PER_SEC == b / NANOS_PER_SEC
                && a % NANOS_PER_SEC / NANOS_PER_MILLI <= b % NANOS_PER_SEC / NANOS_PER_MILLI)
  {
    assert a == a / NANOS_PER_SEC * NANOS_PER_SEC + a % NANOS_PER_SEC;
    assert b == b / NANOS_PER_SEC * NANOS_PER_SEC + b % NANOS_PER_SEC;
  }

  // The mirror kept beside the BBMD's own table.

  /** A device the BBMD holds, and the clock reading at which the round adds it. */
  datatype Foreign = Foreign(key: Key, ttl: u16, addedAt: nat)

  /**
   One pass of the two-second loop: what the BBMD holds, if there is a BBMD, and the clock reading of the tick,
   which is a lock later than the adds.
   */
  datatype Round = Round(source: Option<seq<Foreign>>, tickedAt: nat)

  function Adds(source: seq<Foreign>): (evs: seq<Event>)
    ensures |evs| == |source|
    ensures forall i | 0 <= i < |source| :: evs[i] == Added(source[i].addedAt, source[i].key, source[i].ttl)
  {
    seq(|source|, i requires 0 <= i < |source| => Added(source[i].addedAt, source[i].key, source[i].ttl))
  }

  lemma {:induction false} AddsStep(source: seq<Foreign>, i: nat)
    requires i < |source|
    ensures Adds(source[..i + 1]) == Adds(source[..i]) + [Added(source[i].addedAt, source[i].key, source[i].ttl)]
  {
  }

  function SourceOf(r: Round): seq<Foreign> { match r.source case Some(s) => s case None => [] }

  function RoundEvents(r: Round): seq<Event> { Adds(SourceOf(r)) + [Ticked(r.tickedAt)] }

  function RoundsEvents(rounds: seq<Round>): seq<Event>
  {
    if rounds == [] then [] else RoundsEvents(rounds[..|rounds| - 1]) + RoundEvents(rounds[|rounds| - 1])
  }

  predicate Shows(r: Round, key: Key) { exists f :: f in SourceOf(r) && f.key == key }

  /** The source's last word on a key. */
  predicate Latest(source: seq<Foreign>, f: Foreign)
  {
    exists i | 0 <= i < |source| :: source[i] == f && forall j | i < j < |source| :: source[j].key != f.key
  }

  function AsEntry(f: Foreign): FdtEntry { FdtEntry(f.key, f.ttl, f.addedAt) }

  function AsForeign(e: FdtEntry): Foreign { Foreign(e.key, e.ttl, e.registeredAt) }

  /** After a round, whatever came before: of the round's registrations and the older ones, what its tick kept. */
  lemma {:induction false} RoundContents(h: seq<Event>, r: Round, e: FdtEntry)
    ensures e in TableAfter(h + RoundEvents(r)) <==>
            && InTime(e, r.tickedAt)
            && if Shows(r, e.key) then Latest(SourceOf(r), AsForeign(e)) else Registered(h, e)
  {
    var adds := Adds(SourceOf(r));
    HistoryRefinement(h + RoundEvents(r));
    AddsContents(h, SourceOf(r), e);
    assert h + RoundEvents(r) == (h + adds) + [Ticked(r.tickedAt)];
    LiveStep(h + adds, Ticked(r.tickedAt), e);
  }

  lemma {:induction false} AddsContents(h: seq<Event>, source: seq<Foreign>, e: FdtEntry)
    ensures Registered(h + Adds(source), e) <==>
            if exists f :: f in source && f.key == e.key
            then Latest(source, AsForeign(e))
            else Registered(h, e)
  {
    if source == [] {
      assert h + Adds(source) == h;
    } else {
      var front, last := source[..|source| - 1], source[|source| - 1];
      AddsContents(h, front, e);
      assert h + Adds(source) == (h + Adds(front)) + [Added(last.addedAt, last.key, last.ttl)];
      LiveStep(h + Adds(front), Added(last.addedAt, last.key, last.ttl), e);
      assert source == front + [last];
      var f := AsForeign(e);
      if last.key == e.key {
        assert last in source;
        assert Latest(source, f) <==> last == f by {
          if last == f { assert source[|source| - 1] == f; }
        }
      } else {
        assert Latest(source, f) <==> Latest(front, f) by {
          if i :| 0 <= i < |front| && front[i] == f && forall j | i < j < |front| :: front[j].key != f.key {
            assert source[i] == f && forall j | i < j < |source| :: source[j].key != f.key;
          }
          if i :| 0 <= i < |source| && source[i] == f && forall j | i < j < |source| :: source[j].key != f.key {
            assert front[i] == f && forall j | i < j < |front| :: front[j] == source[j];
          }
        }
      }
    }
  }

  /** Every add of the round is at most lag nanoseconds older than its tick. */
  predicate Within(r: Round, lag: nat) { forall f | f in SourceOf(r) :: r.tickedAt <= f.addedAt + lag }

  lemma {:induction false} AgeWithin(now: nat, registeredAt: nat, lag: nat)
    requires now <= registeredAt + lag
    ensures Age(now, registeredAt) <= lag / 1_000_000_000
  {
  }

  /**
   Every mirrored device that the round's own duration does not outlive is listed with its ttl, and its
   remaining time is the full ttl but for that duration; and nothing older than its grace period is listed.
   A round of less than a second lists every device with its full remaining time.
   */
  lemma {:induction false} MirrorIsFresh(h: seq<Event>, r: Round, lag: nat, wall: Duration)
    requires Within(r, lag)
    ensures forall f | Latest(SourceOf(r), f) && lag < (f.ttl + 31) * 1_000_000_000 ::
              AsEntry(f) in TableAfter(h + RoundEvents(r))
    ensures forall f | f in SourceOf(r) :: exists g :: Latest(SourceOf(r), g) && g.key == f.key
    ensures forall e | e in TableAfter(h + RoundEvents(r)) ::
              && -30 <= Display(e, r.tickedAt, wall).remainingTtl <= e.ttl
              && (Shows(r, e.key) ==> Display(e, r.tickedAt, wall).remainingTtl >= e.ttl - lag / 1_000_000_000)
  {
    var source := SourceOf(r);
    forall f | Latest(source, f) && lag < (f.ttl + 31) * 1_000_000_000
      ensures AsEntry(f) in TableAfter(h + RoundEvents(r))
    {
      RoundContents(h, r, AsEntry(f));
    }
    forall f | f in source
      ensures exists g :: Latest(source, g) && g.key == f.key
    {
      var i := LastPlace(source, f.key);
      assert Latest(source, source[i]);
    }
    forall e | e in TableAfter(h + RoundEvents(r))
      ensures -30 <= Display(e, r.tickedAt, wall).remainingTtl <= e.ttl
      ensures Shows(r, e.key) ==> Display(e, r.tickedAt, wall).remainingTtl >= e.ttl - lag / 1_000_000_000
    {
      RoundContents(h, r, e);
      RetainedInTime(e, r.tickedAt);
      if Shows(r, e.key) {
        assert AsForeign(e) in source;
        AgeWithin(r.tickedAt, e.registeredAt, lag);
      }
    }
  }

  lemma {:induction false} LastPlace(source: seq<Foreign>, key: Key) returns (i: nat)
    requires exists f :: f in source && f.key == key
    ensures i < |source| && source[i].key == key && forall j | i < j < |source| :: source[j].key != key
  {
    if source[|source| - 1].key == key {
      i := |source| - 1;
    } else {
      var front := source[..|source| - 1];
      assert forall f | f in source && f.key == key :: f in front;
      i := LastPlace(front, key);
    }
  }

  /** An entry that no source mentions in any of the rounds was registered before them. */
  lemma {:induction false} OldRegistration(h: seq<Event>, rounds: seq<Round>, e: FdtEntry)
    requires forall r | r in rounds :: !Shows(r, e.key)
    requires Registered(h + RoundsEvents(rounds), e)
    ensures Registered(h, e)
  {
    if rounds == [] {
      assert h + RoundsEvents(rounds) == h;
    } else {
      var front, last := rounds[..|rounds| - 1], rounds[|rounds| - 1];
      var before := h + RoundsEvents(front);
      assert h + RoundsEvents(rounds) == before + RoundEvents(last);
      assert last in rounds && forall r | r in front :: r in rounds;
      HistoryRefinement(before + RoundEvents(last));
      RoundContents(before, last, e);
      OldRegistration(h, front, e);
    }
  }

  /**
   Convergence: once no round for 65535 + 31 seconds has shown a device that the last round does
   not show, the mirror is the last round's source as a map, each entry registered when that round added it,
   less only what the round itself outlived; nothing, when the round takes less than 31 seconds. A source
   that stays constant, or stays absent, is the special case.
   */
  lemma {:induction false} MirrorConverges(h: seq<Event>, rounds: seq<Round>, last: Round, since: nat, e: FdtEntry)
    requires forall ev | ev in h :: ev.now <= since
    requires last.tickedAt >= since + 65566 * 1_000_000_000
    requires forall r, key | r in rounds && Shows(r, key) :: Shows(last, key)
    ensures e in TableAfter(h + RoundsEvents(rounds) + RoundEvents(last))
       <==> Latest(SourceOf(last), AsForeign(e)) && InTime(e, last.tickedAt)
    ensures Within(last, 31 * 1_000_000_000 - 1) ==>
              (e in TableAfter(h + RoundsEvents(rounds) + RoundEvents(last)) <==> Latest(SourceOf(last), AsForeign(e)))
  {
    var before := h + RoundsEvents(rounds);
    RoundContents(before, last, e);
    if Latest(SourceOf(last), AsForeign(e)) {
      assert AsForeign(e) in SourceOf(last) && Shows(last, e.key);
    }
    if !Shows(last, e.key) && Registered(before, e) {
      OldRegistration(h, rounds, e);
      var i: nat :| Live(h, i, e);
      assert h[i] in h && e.registeredAt <= since;
    }
  }

  // What the dashboard shows.

  function Rows(entries: seq<FdtEntry>, now: nat, wall: Duration): (rows: seq<FdtDisplayEntry>)
    ensures |rows| == |entries|
    ensures forall i | 0 <= i < |rows| :: rows[i] == Display(entries[i], now, wall)
  {
    seq(|entries|, i requires 0 <= i < |entries| => Display(entries[i], now, wall))
  }

  /** No two rows are for the same address and port, as texts. */
  predicate DistinctRows(rows: seq<FdtDisplayEntry>)
  {
    forall i, j | 0 <= i < j < |rows| :: rows[i].ip != rows[j].ip || rows[i].port != rows[j].port
  }

  /** The printed address and the port determine the key. */
  lemma {:induction false} RowKey(e: FdtEntry, f: FdtEntry, now: nat, wall: Duration)
    requires Display(e, now, wall).ip == Display(f, now, wall).ip && e.key.port == f.key.port
    ensures e.key == f.key
  {
    DottedRoundTrip(e.key.ip);
    DottedRoundTrip(f.key.ip);
  }

  lemma {:induction false} RowsAreDistinct(entries: seq<FdtEntry>, now: nat, wall: Duration)
    requires Distinct(entries)
    ensures DistinctRows(Rows(entries, now, wall))
  {
    var rows := Rows(entries, now, wall);
    forall i, j | 0 <= i < j < |rows|
      ensures rows[i].ip != rows[j].ip || rows[i].port != rows[j].port
    {
      if rows[i].ip == rows[j].ip && rows[i].port == rows[j].port {
        RowKey(entries[i], entries[j], now, wall);
      }
    }
  }

  lemma {:induction false} RowsAreEntries(entries: seq<FdtEntry>, now: nat, wall: Duration, row: FdtDisplayEntry)
    ensures row in Rows(entries, now, wall) <==> exists e :: e in entries && row == Display(e, now, wall)
  {
    var rows := Rows(entries, now, wall);
    if i :| 0 <= i < |rows| && rows[i] == row {
      assert entries[i] in entries;
    }
    if e :| e in entries && row == Display(e, now, wall) {
      var i :| 0 <= i < |entries| && entries[i] == e;
      assert rows[i] == row;
    }
  }

  /** The listing against the history: a row for every live registration, no other row, and none twice. */
  lemma {:induction false} RowsOfHistory(h: seq<Event>, now: nat, wall: Duration)
    ensures DistinctRows(Rows(TableAfter(h), now, wall))
    ensures forall row :: row in Rows(TableAfter(h), now, wall) <==>
                          exists e :: Registered(h, e) && row == Display(e, now, wall)
  {
    HistoryRefinement(h);
    RowsAreDistinct(TableAfter(h), now, wall);
    forall row
      ensures row in Rows(TableAfter(h), now, wall) <==> exists e :: Registered(h, e) && row == Display(e, now, wall)
    {
      RowsAreEntries(TableAfter(h), now, wall, row);
    }
  }

  class FdtManager {
    var entries: seq<FdtEntry>
    /** Everything done to this table, oldest first. */
    ghost var history: seq<Event>

    ghost predicate Valid()
      reads this
    {
      entries == TableAfter(history)
    }

    constructor ()
      ensures Valid() && history == []
    {
      entries := [];
      history := [];
    }

    method Add(now: nat, key: Key, ttl: u16)
      requires Valid()
      modifies this
      ensures Valid() && history == old(history) + [Added(now, key, ttl)]
    {
      var i := Find(entries, key);
      if i < |entries| {
        var existing := entries[i];
        entries := entries[i := existing.(ttl := ttl, registeredAt := now)];
      } else {
        entries := entries + [FdtEntry(key, ttl, now)];
      }
      history := history + [Added(now, key, ttl)];
    }

    method Remove(now: nat, key: Key)
      requires Valid()
      modifies this
      ensures Valid() && history == old(history) + [Removed(now, key)]
    {
      entries := Retain(entries, Without(key));
      history := history + [Removed(now, key)];
    }

    method Tick(now: nat)
      requires Valid()
      modifies this
      ensures Valid() && history == old(history) + [Ticked(now)]
    {
      entries := Retain(entries, NotExpired(now));
      history := history + [Ticked(now)];
    }

    /** A row for every live registration of the history and no other row, none of them twice. */
    function List(now: nat, wall: Duration): (rows: seq<FdtDisplayEntry>)
      requires Valid()
      reads this
      ensures |rows| == |entries| && DistinctRows(rows)
      ensures forall row :: row in rows <==> exists e :: Registered(history, e) && row == Display(e, now, wall)
      ensures forall i | 0 <= i < |rows| :: rows[i] == Display(entries[i], now, wall)
    {
      RowsOfHistory(history, now, wall);
      Rows(entries, now, wall)
    }

    /** One pass of the mirror loop: add what the BBMD holds, then expire. */
    method Sync(r: Round)
      requires Valid()
      modifies this
      ensures Valid() && history == old(history) + RoundEvents(r)
    {
      if r.source.Some? {
        var source := r.source.value;
        for i := 0 to |source|
          invariant Valid() && history == old(history) + Adds(source[..i])
        {
          Add(source[i].addedAt, source[i].key, source[i].ttl);
          AddsStep(source, i);
        }
        assert source[..|source|] == source;
      }
      Tick(r.tickedAt);
    }
  }
}
