/** The command loop that owns the running router. */
module RouterLoop {
  import opened Prelude
  import opened State
  import opened Config

  datatype Command = Stop | Start | SwitchTransport(mode: string) | Exit

  datatype Event = CtrlC | Received(cmd: Command)

  /** A live router, by the transport mode it was built with. */
  datatype Router = Router(mode: string)

  datatype Status = Serving | Finished | Failed

  /**
   One turn of the loop: what woke it, the configuration a PUT left since the last turn or while a router
   was being stopped, the one a PUT slipped in between the loop's own write and its read, and whether
   starting a router would succeed.
   */
  datatype Input = Input(event: Event, putBefore: Option<BridgeConfig>, putBetween: Option<BridgeConfig>, startOk: bool)

  /** The loop's variables at its head, with the accounts the theorems are about. */
  datatype Loop = Loop(
    published: Published,
    running: Option<Router>,
    config: BridgeConfig,
    started: nat,
    stopped: nat,
    lastStartOk: bool,
    putSinceStart: bool,
    status: Status)

  predicate KnownMode(mode: string) { mode == "sc" || mode == "tailscale" }

  function WithTransport(c: BridgeConfig, mode: string): BridgeConfig { c.(router := c.router.(transport := mode)) }

  function PutOn(l: Loop, put: Option<BridgeConfig>): Loop
  {
    match put
    case None => l
    case Some(c) => l.(config := c, putSinceStart := true)
  }

  function Publish(l: Loop, to: AppState): Loop { l.(published := Try(l.published, to)) }

  // The stages of a turn, cut where the source waits.

  /** The handle is taken out and the stop begins. */
  function TakeDown(l: Loop): Loop { Publish(l.(running := None), Stopping) }

  /** The taken router, if there was one, has stopped. */
  function TakenDown(l: Loop, taken: Option<Router>): Loop
  {
    Publish(l.(stopped := l.stopped + if taken.Some? then 1 else 0), Stopped)
  }

  function StopRouter(l: Loop): Loop { TakenDown(TakeDown(l), l.running) }

  function WriteMode(l: Loop, mode: string): Loop { Publish(l.(config := WithTransport(l.config, mode)), Starting) }

  /** `start_router` can only succeed with a transport mode it knows. */
  predicate Starts(l: Loop, ok: bool) { ok && KnownMode(l.config.router.transport) }

  function Launch(l: Loop): Loop { l.(started := l.started + 1, lastStartOk := true, putSinceStart := false) }

  function Install(l: Loop, r: Router): Loop { Publish(l.(running := Some(r)), Running) }

  /** The failed start's own transition is swallowed: Starting to Stopped is not legal. */
  function StartFailed(l: Loop): Loop { Publish(l.(lastStartOk := false), Stopped) }

  function Attempt(l: Loop, ok: bool): Loop
  {
    if Starts(l, ok) then Install(Launch(l), Router(l.config.router.transport)) else StartFailed(l)
  }

  function Leave(l: Loop): Loop
  {
    if Legal(Last(l.published), Stopping) then StopRouter(l).(status := Finished) else l.(status := Failed)
  }

  /** What is done to the loop before a start attempt, for the commands that make one. */
  function Opened(l: Loop, cmd: Command): Loop
    requires cmd.Start? || cmd.SwitchTransport?
  {
    match cmd
    case Start => Publish(l, Starting)
    case SwitchTransport(mode) => WriteMode(if l.running.Some? then StopRouter(l) else l, mode)
  }

  predicate MakesAttempt(l: Loop, cmd: Command)
  {
    match cmd
    case Start => Last(l.published) == Stopped
    case SwitchTransport(mode) => KnownMode(mode)
    case _ => false
  }

  function Handle(l: Loop, turn: Input): Loop
  {
    var l0 := PutOn(l, turn.putBefore);
    match turn.event
    case CtrlC => Leave(l0)
    case Received(cmd) =>
      if MakesAttempt(l0, cmd) then Attempt(PutOn(Opened(l0, cmd), turn.putBetween), turn.startOk)
      else
        match cmd
        case Exit => Leave(l0)
        case Stop => if Last(l0.published) == Running then StopRouter(l0) else l0
        case _ => l0
  }

  function Run(l: Loop, turns: seq<Input>): Loop
  {
    if turns == [] then l
    else
      var before := Run(l, turns[..|turns| - 1]);
      if before.status.Serving? then Handle(before, turns[|turns| - 1]) else before
  }

  /** The first start, made before anything else can happen. */
  function Boot(config: BridgeConfig, ok: bool): Loop
  {
    Attempt(Loop([Stopped, Starting], None, config, 0, 0, false, false, Serving), ok)
  }

  // The loop as the source writes it.

  class Supervisor {
    const state: StateManager
    var running: Option<Router>
    var config: BridgeConfig
    var started: nat
    var stopped: nat
    var lastStartOk: bool
    var putSinceStart: bool
    var status: Status

    ghost predicate Valid()
      reads this, state
    {
      state.Valid()
    }

    function View(): Loop
      reads this, state
    {
      Loop(state.published, running, config, started, stopped, lastStartOk, putSinceStart, status)
    }

    constructor (initial: BridgeConfig, startOk: bool)
      ensures Valid() && fresh(state)
      ensures View() == Boot(initial, startOk)
    {
      state := new StateManager();
      running, config := None, initial;
      started, stopped, lastStartOk, putSinceStart, status := 0, 0, false, false, Serving;
      new;
      var ok := state.TryTransition(Starting);
      StartRouter(startOk);
    }

    /** A PUT of a whole configuration, from outside the loop. */
    method TakePut(put: Option<BridgeConfig>)
      requires Valid()
      modifies this
      ensures Valid() && View() == PutOn(old(View()), put)
    {
      if put.Some? {
        config := put.value;
        putSinceStart := true;
      }
    }

    method StopRunning()
      requires Valid()
      modifies this, state
      ensures Valid() && View() == StopRouter(old(View()))
    {
      var ok := state.TryTransition(Stopping);
      if running.Some? {
        running := None;
        stopped := stopped + 1;
      }
      ok := state.TryTransition(Stopped);
    }

    method StartRouter(startOk: bool)
      requires Valid()
      modifies this, state
      ensures Valid() && View() == Attempt(old(View()), startOk)
    {
      var ok;
      if startOk && KnownMode(config.router.transport) {
        running := Some(Router(config.router.transport));
        started, lastStartOk, putSinceStart := started + 1, true, false;
        ok := state.TryTransition(Running);
      } else {
        lastStartOk := false;
        ok := state.TryTransition(Stopped);
      }
    }

    method LeaveLoop()
      requires Valid()
      modifies this, state
      ensures Valid() && View() == Leave(old(View()))
    {
      var ok := state.TryTransition(Stopping);
      if !ok {
        status := Failed;
        return;
      }
      if running.Some? {
        running := None;
        stopped := stopped + 1;
      }
      ok := state.TryTransition(Stopped);
      status := Finished;
    }

    /** Start and SwitchTransport up to the point where the configuration is read; whether a start follows. */
    method Open(cmd: Command) returns (attempt: bool)
      requires Valid() && (cmd.Start? || cmd.SwitchTransport?)
      modifies this, state
      ensures Valid() && attempt == MakesAttempt(old(View()), cmd)
      ensures View() == if attempt then Opened(old(View()), cmd) else old(View())
    {
      var ok;
      match cmd
      case Start =>
        if state.current != Stopped {
          return false;
        }
        ok := state.TryTransition(Starting);
        return true;
      case SwitchTransport(mode) =>
        if mode != "sc" && mode != "tailscale" {
          return false;
        }
        if running.Some? {
          StopRunning();
        }
        config := config.(router := config.router.(transport := mode));
        ok := state.TryTransition(Starting);
        return true;
    }

    method Turn(turn: Input)
      requires Valid()
      modifies this, state
      ensures Valid() && View() == Handle(old(View()), turn)
    {
      TakePut(turn.putBefore);
      match turn.event
      case CtrlC => LeaveLoop();
      case Received(cmd) =>
        match cmd {
          case Exit => LeaveLoop();
          case Stop =>
            if state.current == Running {
              StopRunning();
            }
          case _ =>
            var attempt := Open(cmd);
            if attempt {
              TakePut(turn.putBetween);
              StartRouter(turn.startOk);
            }
        }
    }

    method Serve(turns: seq<Input>)
      requires Valid() && status.Serving?
      modifies this, state
      ensures Valid() && View() == Run(old(View()), turns)
    {
      var i := 0;
      while i < |turns| && status.Serving?
        invariant 0 <= i <= |turns| && Valid()
        invariant View() == Run(old(View()), turns[..i])
      {
        assert turns[..i + 1][..i] == turns[..i];
        Turn(turns[i]);
        i := i + 1;
      }
      if i < |turns| {
        RunOver(old(View()), turns, i);
      }
      assert turns[..|turns|] == turns;
    }
  }

  /** Once the loop has been left, further turns do not happen. */
  lemma {:induction false} RunOver(l: Loop, turns: seq<Input>, i: nat)
    requires i <= |turns| && !Run(l, turns[..i]).status.Serving?
    ensures Run(l, turns) == Run(l, turns[..i])
  {
    if i == |turns| {
      assert turns[..i] == turns;
    } else {
      assert turns[..|turns| - 1][..i] == turns[..i];
      RunOver(l, turns[..|turns| - 1], i);
    }
  }

  // What holds at every loop head.

  function Accepted(l: Loop): nat { |l.published| - 1 }

  predicate HeadInvariant(l: Loop)
  {
    && Walks(l.published)
    && (l.status.Serving? ==>
          && (l.running.Some? <==> Last(l.published) == Running)
          && Last(l.published) != Stopping
          && (Last(l.published) == Starting <==> !l.lastStartOk))
    && (!l.status.Serving? ==> l.running.None?)
    && l.started - l.stopped == (if l.running.Some? then 1 else 0)
    && l.started == (Accepted(l) + 2) / 4 && l.stopped == Accepted(l) / 4
    && (l.running.Some? ==> KnownMode(l.running.value.mode))
    && (l.running.Some? && !l.putSinceStart ==> l.running.value.mode == l.config.router.transport)
  }

  lemma {:induction false} AttemptKeeps(l: Loop, ok: bool)
    requires Walks(l.published) && l.status.Serving? && l.running.None? && Last(l.published) == Starting
    requires l.started == l.stopped == Accepted(l) / 4
    ensures HeadInvariant(Attempt(l, ok))
  {
    if Starts(l, ok) { TryWalks(l.published, Running); } else { TryWalks(l.published, Stopped); }
  }

  lemma {:induction false} StopRouterKeeps(l: Loop)
    requires HeadInvariant(l) && l.status.Serving? && l.running.Some?
    ensures HeadInvariant(StopRouter(l)) && Last(StopRouter(l).published) == Stopped
    ensures StopRouter(l).status.Serving? && StopRouter(l).running.None?
  {
    TryWalks(l.published, Stopping);
    TryWalks(TakeDown(l).published, Stopped);
  }

  lemma {:induction false} OpenedKeeps(l: Loop, cmd: Command)
    requires HeadInvariant(l) && l.status.Serving? && MakesAttempt(l, cmd)
    ensures var o := Opened(l, cmd);
            && Walks(o.published) && o.status.Serving? && o.running.None? && Last(o.published) == Starting
            && o.started == o.stopped == Accepted(o) / 4
  {
    if cmd.SwitchTransport? && l.running.Some? {
      StopRouterKeeps(l);
      TryWalks(StopRouter(l).published, Starting);
    } else {
      TryWalks(l.published, Starting);
    }
  }

  lemma {:induction false} LeaveKeeps(l: Loop)
    requires HeadInvariant(l) && l.status.Serving?
    ensures HeadInvariant(Leave(l)) && !Leave(l).status.Serving?
  {
    if l.running.Some? {
      StopRouterKeeps(l);
    }
  }

  lemma {:induction false} AttemptTurnKeeps(l: Loop, cmd: Command, put: Option<BridgeConfig>, ok: bool)
    requires HeadInvariant(l) && l.status.Serving? && MakesAttempt(l, cmd)
    ensures HeadInvariant(Attempt(PutOn(Opened(l, cmd), put), ok))
  {
    OpenedKeeps(l, cmd);
    AttemptKeeps(PutOn(Opened(l, cmd), put), ok);
  }

  lemma {:induction false} OtherTurnKeeps(l: Loop, cmd: Command)
    requires HeadInvariant(l) && l.status.Serving? && cmd.Stop?
    ensures HeadInvariant(if Last(l.published) == Running then StopRouter(l) else l)
  {
    if Last(l.published) == Running {
      StopRouterKeeps(l);
    }
  }

  /** Every turn keeps the head invariant, whatever the command, the PUTs around it and the start's outcome. */
  lemma {:induction false} HandleKeeps(l: Loop, turn: Input)
    requires HeadInvariant(l) && l.status.Serving?
    ensures HeadInvariant(Handle(l, turn))
  {
    var l0 := PutOn(l, turn.putBefore);
    assert HeadInvariant(l0) && l0.status.Serving?;
    match turn.event
    case CtrlC => LeaveKeeps(l0);
    case Received(cmd) =>
      if MakesAttempt(l0, cmd) {
        AttemptTurnKeeps(l0, cmd, turn.putBetween, turn.startOk);
      } else if cmd.Exit? {
        LeaveKeeps(l0);
      } else if cmd.Stop? {
        OtherTurnKeeps(l0, cmd);
      }
  }

  /** At every loop head of every run. */
  lemma {:induction false} RunKeeps(config: BridgeConfig, ok: bool, turns: seq<Input>)
    ensures HeadInvariant(Run(Boot(config, ok), turns))
  {
    if turns == [] {
      AttemptKeeps(Loop([Stopped, Starting], None, config, 0, 0, false, false, Serving), ok);
    } else {
      var front := turns[..|turns| - 1];
      RunKeeps(config, ok, front);
      var before := Run(Boot(config, ok), front);
      if before.status.Serving? {
        HandleKeeps(before, turns[|turns| - 1]);
      }
    }
  }

  // Single commands.

  lemma {:induction false} LeaveEffect(l: Loop)
    requires HeadInvariant(l) && l.status.Serving?
    ensures Leave(l).running.None? && Leave(l).started == Leave(l).stopped
    ensures Leave(l).status == if l.running.Some? then Finished else Failed
    ensures Leave(l).published == if l.running.Some? then l.published + [Stopping, Stopped] else l.published
  {
    if l.running.Some? {
      StopRouterKeeps(l);
      assert l.published + [Stopping] + [Stopped] == l.published + [Stopping, Stopped];
    }
  }

  /** Leaving the loop, also by its error return, leaves no router behind; it errs exactly when none is running. */
  lemma {:induction false} ExitIsClean(l: Loop, turn: Input)
    requires HeadInvariant(l) && l.status.Serving?
    requires turn.event == CtrlC || turn.event == Received(Exit)
    ensures Handle(l, turn).running.None? && Handle(l, turn).started == Handle(l, turn).stopped
    ensures Handle(l, turn).status == if l.running.Some? then Finished else Failed
    ensures Handle(l, turn).published == if l.running.Some? then l.published + [Stopping, Stopped] else l.published
  {
    var l0 := PutOn(l, turn.putBefore);
    assert HeadInvariant(l0) && l0.status.Serving?;
    LeaveEffect(l0);
  }

  /** Stop and Start queued on the strength of a state that has passed publish nothing and touch no router. */
  predicate Stale(l: Loop, cmd: Command)
  {
    (cmd.Stop? && Last(l.published) != Running) || (cmd.Start? && Last(l.published) != Stopped)
  }

  predicate OnlyConfigMoved(a: Loop, b: Loop)
  {
    b == a.(config := b.config, putSinceStart := b.putSinceStart)
  }

  lemma {:induction false} StopPublishes(l: Loop)
    requires Last(l.published) == Running
    ensures StopRouter(l).published == l.published + [Stopping] + [Stopped]
  {
  }

  lemma {:induction false} AttemptPublishes(l: Loop, ok: bool)
    ensures l.published <= Attempt(l, ok).published
    ensures Attempt(l, ok).status == l.status
  {
  }

  /** A Stop or Start is dropped exactly when it is stale; otherwise it is published. */
  lemma {:induction false} DroppedIffStale(l: Loop, turn: Input)
    requires turn.event.Received? && (turn.event.cmd.Stop? || turn.event.cmd.Start?)
    ensures l.published <= Handle(l, turn).published
    ensures Handle(l, turn).published == l.published <==> Stale(l, turn.event.cmd)
    ensures Stale(l, turn.event.cmd) ==> OnlyConfigMoved(l, Handle(l, turn))
    ensures Handle(l, turn).status == l.status
  {
    var l0 := PutOn(l, turn.putBefore);
    if turn.event.cmd.Stop? {
      if Last(l.published) == Running { StopPublishes(l0); }
    } else if Last(l.published) == Stopped {
      var o := PutOn(Opened(l0, turn.event.cmd), turn.putBetween);
      assert o.published == l.published + [Starting] && o.status == l.status;
      AttemptPublishes(o, turn.startOk);
    }
  }

  /** Every command of the turns is stale now. */
  predicate AllStale(l: Loop, turns: seq<Input>)
    requires forall t | t in turns :: t.event.Received?
  {
    forall t | t in turns :: Stale(l, t.event.cmd)
  }

  /**
   However many Stops and Starts arrive, they publish nothing exactly when all of them are stale, and then
   nothing but the configuration moves. After a failed start every Stop and every Start is stale.
   */
  lemma {:induction false} StaleCommands(l: Loop, turns: seq<Input>)
    requires l.status.Serving?
    requires forall t | t in turns :: t.event.Received? && (t.event.cmd.Stop? || t.event.cmd.Start?)
    ensures Run(l, turns).status.Serving? && l.published <= Run(l, turns).published
    ensures Run(l, turns).published == l.published <==> AllStale(l, turns)
    ensures AllStale(l, turns) ==> OnlyConfigMoved(l, Run(l, turns))
    ensures HeadInvariant(l) && !l.lastStartOk ==> Last(l.published) == Starting
                                                   && forall cmd: Command | cmd.Stop? || cmd.Start? :: Stale(l, cmd)
  {
    if turns != [] {
      var front, last := turns[..|turns| - 1], turns[|turns| - 1];
      assert turns == front + [last];
      assert forall t | t in front :: t in turns;
      StaleCommands(l, front);
      assert last in turns;
      DroppedIffStale(Run(l, front), last);
      assert AllStale(l, turns) <==> AllStale(l, front) && Stale(l, last.event.cmd);
    }
  }

  /**
   A switch that was accepted in Running but is handled in another state is not dropped: it starts a router
   that had been stopped.
   */
  lemma {:induction false} LateSwitchStarts(l: Loop, turn: Input)
    requires HeadInvariant(l) && l.status.Serving? && Last(l.published) != Running
    requires turn.event.Received? && turn.event.cmd.SwitchTransport? && KnownMode(turn.event.cmd.mode)
    requires turn.putBetween.None?
    ensures var r := Handle(l, turn);
            && l.running.None?
            && r.running == (if turn.startOk then Some(Router(turn.event.cmd.mode)) else None)
            && r.published == l.published + (if Last(l.published) == Stopped then [Starting] else [])
                              + (if turn.startOk then [Running] else [])
            && r.started == l.started + (if turn.startOk then 1 else 0)
  {
    var l0 := PutOn(l, turn.putBefore);
    assert HeadInvariant(l0);
    OpenedKeeps(l0, turn.event.cmd);
  }

  /** The two modes the program knows, by name. */
  predicate ByName(mode: string) { mode == "sc" || mode == "tailscale" }

  /** The configuration a turn starts from: the last PUT, if there was one. */
  function ConfigBefore(l: Loop, turn: Input): BridgeConfig { turn.putBefore.UnwrapOr(l.config) }

  /**
   Only a PUT and a switch change the configuration: a PUT replaces it, a switch to one of the two modes
   replaces the transport in it and leaves every other field and the distribution table as they were.
   */
  lemma {:induction false} ConfigAfterTurn(l: Loop, turn: Input, f: Field)
    ensures var r := Handle(l, turn).config;
            var switches := turn.event.Received? && turn.event.cmd.SwitchTransport? && ByName(turn.event.cmd.mode);
            if turn.putBetween.Some? && turn.event.Received? && MakesAttempt(PutOn(l, turn.putBefore), turn.event.cmd)
            then r == turn.putBetween.value
            else Get(r, f) == (if switches && f == Transport then Text(turn.event.cmd.mode)
                               else Get(ConfigBefore(l, turn), f))
                 && Bdt(r) == Bdt(ConfigBefore(l, turn))
  {
    var l0 := PutOn(l, turn.putBefore);
    TurnConfig(l, turn);
    if turn.event.Received? && MakesAttempt(l0, turn.event.cmd) {
      OpenedConfig(l0, turn.event.cmd, f);
    }
  }

  lemma {:induction false} TurnConfig(l: Loop, turn: Input)
    ensures var l0 := PutOn(l, turn.putBefore);
            Handle(l, turn).config ==
            if turn.event.Received? && MakesAttempt(l0, turn.event.cmd)
            then turn.putBetween.UnwrapOr(Opened(l0, turn.event.cmd).config) else l0.config
  {
    var l0 := PutOn(l, turn.putBefore);
    StagesKeepConfig(l0, turn.startOk);
    if turn.event.Received? && MakesAttempt(l0, turn.event.cmd) {
      StagesKeepConfig(PutOn(Opened(l0, turn.event.cmd), turn.putBetween), turn.startOk);
    }
  }

  lemma {:induction false} StagesKeepConfig(l: Loop, ok: bool)
    ensures Attempt(l, ok).config == StopRouter(l).config == Leave(l).config == l.config
  {
  }

  lemma {:induction false} OpenedConfig(l: Loop, cmd: Command, f: Field)
    requires MakesAttempt(l, cmd)
    ensures Get(Opened(l, cmd).config, f)
         == (if cmd.SwitchTransport? && f == Transport then Text(cmd.mode) else Get(l.config, f))
    ensures Bdt(Opened(l, cmd).config) == Bdt(l.config)
  {
    if cmd.SwitchTransport? {
      SwitchedField(l.config, cmd.mode, f);
    }
  }

  lemma {:induction false} SwitchedField(c: BridgeConfig, mode: string, f: Field)
    ensures Get(WithTransport(c, mode), f) == (if f == Transport then Text(mode) else Get(c, f))
    ensures Bdt(WithTransport(c, mode)) == Bdt(c)
  {
  }

  /** The first start: the configured transport's router, or none and Starting published. */
  lemma {:induction false} BootEffect(config: BridgeConfig, ok: bool)
    ensures var l := Boot(config, ok);
            var up := ok && ByName(config.router.transport);
            && l.config == config && l.status.Serving?
            && l.running == (if up then Some(Router(config.router.transport)) else None)
            && l.published == (if up then [Stopped, Starting, Running] else [Stopped, Starting])
            && l.started == (if up then 1 else 0) && l.stopped == 0
  {
  }

  /** A Stop in Running takes the router down. */
  lemma {:induction false} StopEffect(l: Loop)
    requires HeadInvariant(l) && l.status.Serving? && l.running.Some?
    ensures var r := Handle(l, Input(Received(Stop), None, None, false));
            && r.running.None? && r.stopped == l.stopped + 1 && r.started == l.started && r.config == l.config
            && r.published == l.published + [Stopping] + [Stopped]
  {
    StopPublishes(l);
  }

  /** A Start in Stopped brings up a router of the configured transport, when it can be started. */
  lemma {:induction false} StartEffect(l: Loop, ok: bool)
    requires HeadInvariant(l) && l.status.Serving? && Last(l.published) == Stopped
    ensures var r := Handle(l, Input(Received(Start), None, None, ok));
            var up := ok && ByName(l.config.router.transport);
            && r.running == (if up then Some(Router(l.config.router.transport)) else None)
            && r.started == l.started + (if up then 1 else 0) && r.stopped == l.stopped && r.config == l.config
            && r.published == l.published + [Starting] + (if up then [Running] else [])
  {
  }

  /** A switch to any other mode is ignored. */
  lemma {:induction false} UnknownModeIgnored(l: Loop, mode: string, ok: bool)
    requires !ByName(mode)
    ensures Handle(l, Input(Received(SwitchTransport(mode)), None, None, ok)) == l
  {
  }

  /**
   A valid switch changes the configuration in its transport alone, even when the start fails; the router
   it leaves is the new one when the start succeeds, and there is none when it fails.
   */
  lemma {:induction false} SwitchTransportEffect(l: Loop, mode: string, ok: bool)
    requires HeadInvariant(l) && l.status.Serving? && ByName(mode)
    ensures var r := Handle(l, Input(Received(SwitchTransport(mode)), None, None, ok));
            && (forall f: Field :: Get(r.config, f) == if f == Transport then Text(mode) else Get(l.config, f))
            && Bdt(r.config) == Bdt(l.config)
            && r.running == (if ok then Some(Router(mode)) else None)
            && Last(r.published) == (if ok then Running else Starting)
            && r.stopped == l.stopped + (if l.running.Some? then 1 else 0)
            && r.started == l.started + (if ok then 1 else 0)
  {
    var cmd := SwitchTransport(mode);
    forall f: Field
      ensures Get(WithTransport(l.config, mode), f) == if f == Transport then Text(mode) else Get(l.config, f)
    {
      SwitchedField(l.config, mode, f);
    }
    OpenedKeeps(l, cmd);
    AttemptKeeps(Opened(l, cmd), ok);
  }
}
