/** The command loop among its neighbours: handlers, the bounded queue, and PUTs, step by step. */
module Interleaving {
  import opened Prelude
  import opened State
  import opened Config
  import opened RouterLoop

  const QUEUE_CAPACITY := 32

  /** What the loop does once the router it took out has stopped. */
  datatype After = Rest | GoOn | GoOut

  /** Where the loop waits. */
  datatype Pc =
    | AtSelect              // for a signal or a command
    | AtStop(after: After)  // for the taken router to stop
    | AtWrite               // for the configuration's write lock
    | AtRead                // for its read lock
    | AtStart               // for the start, holding the read lock
    | AtInstall             // between the start and the handle's installation
    | AtEnd                 // the loop has been left

  /**
   The whole system. The loop's variables are in `loop`; a handle that is neither stored nor gone is
   `inHand`; `pending` are the commands of handlers that passed their gate and have not queued yet; `sent` is
   every command ever queued. The last five fields are the account of the current turn and of those completed.
   */
  datatype Sys = Sys(
    loop: Loop,
    pc: Pc,
    inHand: Option<Router>,
    queue: seq<Command>,
    pending: seq<Command>,
    sent: seq<Command>,
    event: Event,
    putA: Option<BridgeConfig>,
    putB: Option<BridgeConfig>,
    putC: Option<BridgeConfig>,
    log: seq<Input>)

  datatype Step =
    | Request(cmd: Command)    // a dashboard handler samples the state and passes its gate, or is refused
    | Send(i: nat)             // a handler's send completes, if the queue has room
    | TraySend(cmd: Command)   // the tray's try_send: queued or dropped
    | Put(config: BridgeConfig)
    | Signal                   // Ctrl-C
    | Receive                  // the loop takes the oldest command
    | Advance                  // the loop's wait ends
    | Attempted(ok: bool)      // the start ends

  predicate GatePasses(state: AppState, cmd: Command)
  {
    match cmd
    case SwitchTransport(mode) => KnownMode(mode) && state == Running
    case Stop => state == Running
    case Start => state == Stopped
    case Exit => false
  }

  /** The turn being made, as an input of the sequential loop. */
  function CurrentTurn(s: Sys, ok: bool): Input { Input(s.event, s.putA, s.putB, ok) }

  /** Back at the head: the turn goes on the log, and what was PUT since the start opens the next one. */
  function Complete(s: Sys, ok: bool): Sys
  {
    s.(pc := AtSelect, log := s.log + [CurrentTurn(s, ok)], putA := s.putC, putB := None, putC := None)
  }

  function End(s: Sys): Sys
  {
    s.(pc := AtEnd, log := s.log + [CurrentTurn(s, false)], putA := s.putC, putB := None, putC := None)
  }

  function Take(s: Sys, after: After): Sys
  {
    s.(loop := TakeDown(s.loop), inHand := s.loop.running, pc := AtStop(after))
  }

  function Begin(s: Sys): Sys
  {
    match s.event
    case CtrlC => BeginLeave(s)
    case Received(cmd) =>
      match cmd
      case Exit => BeginLeave(s)
      case Stop => if Last(s.loop.published) == Running then Take(s, Rest) else Complete(s, false)
      case Start =>
        if MakesAttempt(s.loop, cmd) then s.(loop := Opened(s.loop, cmd), pc := AtRead) else Complete(s, false)
      case SwitchTransport(_) =>
        if !MakesAttempt(s.loop, cmd) then Complete(s, false)
        else if s.loop.running.Some? then Take(s, GoOn)
        else s.(pc := AtWrite)
  }

  function BeginLeave(s: Sys): Sys
  {
    if Legal(Last(s.loop.published), Stopping) then Take(s, GoOut) else End(s.(loop := s.loop.(status := Failed)))
  }

  function Resume(s: Sys): Sys
  {
    match s.pc
    case AtStop(after) =>
      var t := s.(loop := TakenDown(s.loop, s.inHand), inHand := None);
      (match after
       case Rest => Complete(t, false)
       case GoOn => t.(pc := AtWrite)
       case GoOut => End(t.(loop := t.loop.(status := Finished))))
    case AtWrite =>
      if s.event.Received? && s.event.cmd.SwitchTransport? then
        s.(loop := WriteMode(s.loop, s.event.cmd.mode), pc := AtRead)
      else s
    case AtRead => s.(pc := AtStart)
    case AtInstall =>
      if s.inHand.Some? then Complete(s.(loop := Install(s.loop, s.inHand.value), inHand := None), true) else s
    case _ => s
  }

  function TakePut(s: Sys, config: BridgeConfig): Sys
  {
    var t := s.(loop := PutOn(s.loop, Some(config)));
    match s.pc
    case AtStart => s  // the loop holds the read lock
    case AtRead => t.(putB := Some(config))
    case AtInstall => t.(putC := Some(config))
    case _ => t.(putA := Some(config))
  }

  function FinishStart(s: Sys, ok: bool): Sys
  {
    if Starts(s.loop, ok) then
      s.(loop := Launch(s.loop), inHand := Some(Router(s.loop.config.router.transport)), pc := AtInstall)
    else Complete(s.(loop := StartFailed(s.loop)), ok)
  }

  function Enqueue(s: Sys, cmd: Command): Sys { s.(queue := s.queue + [cmd], sent := s.sent + [cmd]) }

  /** One step of any participant; a step that cannot be made now changes nothing. */
  function Next(s: Sys, step: Step): Sys
  {
    match step
    case Request(cmd) => if GatePasses(Last(s.loop.published), cmd) then s.(pending := s.pending + [cmd]) else s
    case Send(i) =>
      if i < |s.pending| && |s.queue| < QUEUE_CAPACITY
      then Enqueue(s, s.pending[i]).(pending := s.pending[..i] + s.pending[i + 1..]) else s
    case TraySend(cmd) => if |s.queue| < QUEUE_CAPACITY then Enqueue(s, cmd) else s
    case Put(config) => TakePut(s, config)
    case Signal => if s.pc.AtSelect? then Begin(s.(event := CtrlC)) else s
    case Receive =>
      if s.pc.AtSelect? && s.queue != [] then Begin(s.(event := Received(s.queue[0]), queue := s.queue[1..])) else s
    case Advance => Resume(s)
    case Attempted(ok) => if s.pc.AtStart? then FinishStart(s, ok) else s
  }

  function Initial(config: BridgeConfig, ok: bool): Sys
  {
    Sys(Boot(config, ok), AtSelect, None, [], [], [], CtrlC, None, None, None, [])
  }

  function Exec(s: Sys, steps: seq<Step>): Sys
  {
    if steps == [] then s else Next(Exec(s, steps[..|steps| - 1]), steps[|steps| - 1])
  }

  // The account of the turn: where the loop's variables stand, by where it waits.

  predicate TurnInvariant(s: Sys, h: Loop)
  {
    var l := PutOn(h, s.putA);
    && HeadInvariant(h)
    && |s.queue| <= QUEUE_CAPACITY
    && match s.pc
       case AtSelect => h.status.Serving? && s.loop == l && s.inHand.None? && s.putB.None? && s.putC.None?
       case AtEnd => !h.status.Serving? && s.loop == l && s.inHand.None?
       case AtStop(after) =>
         && h.status.Serving? && s.putB.None? && s.putC.None?
         && s.loop == TakeDown(l) && s.inHand == l.running && Last(l.published) == Running
         && (match after
             case Rest => s.event == Received(Stop)
             case GoOn => s.event.Received? && s.event.cmd.SwitchTransport? && MakesAttempt(l, s.event.cmd)
             case GoOut => s.event == CtrlC || s.event == Received(Exit))
       case AtWrite =>
         && h.status.Serving? && s.inHand.None? && s.putB.None? && s.putC.None?
         && s.event.Received? && s.event.cmd.SwitchTransport? && MakesAttempt(l, s.event.cmd)
         && s.loop == if l.running.Some? then StopRouter(l) else l
       case AtRead | AtStart =>
         && h.status.Serving? && s.inHand.None? && s.putC.None?
         && s.event.Received? && MakesAttempt(l, s.event.cmd)
         && s.loop == PutOn(Opened(l, s.event.cmd), s.putB)
       case AtInstall =>
         && h.status.Serving?
         && s.event.Received? && MakesAttempt(l, s.event.cmd)
         && (var ready := PutOn(Opened(l, s.event.cmd), s.putB);
             && Starts(ready, true)
             && s.inHand == Some(Router(ready.config.router.transport))
             && s.loop == PutOn(Launch(ready), s.putC))
  }

  lemma {:induction false} Logged(boot: Loop, log: seq<Input>, turn: Input)
    requires Run(boot, log).status.Serving?
    ensures Run(boot, log + [turn]) == Handle(Run(boot, log), turn)
  {
    assert (log + [turn])[..|log|] == log;
  }

  predicate Accounted(s: Sys, boot: Loop) { TurnInvariant(s, Run(boot, s.log)) }

  /** A turn that ends as the sequential loop would end it leaves the system accounted for. */
  lemma {:induction false} CompleteKeeps(s: Sys, ok: bool, boot: Loop)
    requires var h := Run(boot, s.log); HeadInvariant(h) && h.status.Serving?
    requires |s.queue| <= QUEUE_CAPACITY && s.inHand.None?
    requires s.loop == PutOn(Handle(Run(boot, s.log), CurrentTurn(s, ok)), s.putC)
    ensures s.loop.status.Serving? ==> Accounted(Complete(s, ok), boot)
    ensures !s.loop.status.Serving? && !ok ==> Accounted(End(s), boot)
  {
    Logged(boot, s.log, CurrentTurn(s, ok));
    HandleKeeps(Run(boot, s.log), CurrentTurn(s, ok));
  }

  lemma {:induction false} BeginKeeps(s: Sys, boot: Loop)
    requires s.pc.AtSelect? && Accounted(s, boot)
    ensures Accounted(Begin(s), boot)
  {
    var l := s.loop;
    var t := s.(loop := l.(status := Failed));
    match s.event
    case CtrlC =>
      if Last(l.published) != Running { CompleteKeeps(t, false, boot); }
    case Received(cmd) =>
      match cmd {
        case Exit => if Last(l.published) != Running { CompleteKeeps(t, false, boot); }
        case Stop => if Last(l.published) != Running { CompleteKeeps(s, false, boot); }
        case _ => if !MakesAttempt(l, cmd) { CompleteKeeps(s, false, boot); }
      }
  }

  lemma {:induction false} StopKeeps(s: Sys, boot: Loop)
    requires s.pc.AtStop? && Accounted(s, boot)
    ensures Accounted(Resume(s), boot)
  {
    var t := s.(loop := TakenDown(s.loop, s.inHand), inHand := None);
    match s.pc.after
    case Rest => CompleteKeeps(t, false, boot);
    case GoOn =>
    case GoOut => CompleteKeeps(t.(loop := t.loop.(status := Finished)), false, boot);
  }

  lemma {:induction false} WriteKeeps(s: Sys, boot: Loop)
    requires s.pc.AtWrite? && Accounted(s, boot)
    ensures Accounted(Resume(s), boot)
  {
  }

  lemma {:induction false} InstallKeeps(s: Sys, boot: Loop)
    requires s.pc.AtInstall? && Accounted(s, boot)
    ensures Accounted(Resume(s), boot)
  {
    var l := PutOn(Run(boot, s.log), s.putA);
    var ready := PutOn(Opened(l, s.event.cmd), s.putB);
    var r := s.inHand.value;
    InstallAfterPut(Launch(ready), s.putC, r);
    InstalledTurn(Run(boot, s.log), CurrentTurn(s, true), r);
    CompleteKeeps(s.(loop := Install(s.loop, r), inHand := None), true, boot);
  }

  lemma {:induction false} InstallAfterPut(l: Loop, put: Option<BridgeConfig>, r: Router)
    ensures Install(PutOn(l, put), r) == PutOn(Install(l, r), put)
    ensures Install(PutOn(l, put), r).status == l.status
  {
  }

  lemma {:induction false} InstalledTurn(h: Loop, turn: Input, r: Router)
    requires turn.event.Received? && MakesAttempt(PutOn(h, turn.putBefore), turn.event.cmd)
    requires var ready := PutOn(Opened(PutOn(h, turn.putBefore), turn.event.cmd), turn.putBetween);
             turn.startOk && Starts(ready, true) && r == Router(ready.config.router.transport)
    ensures var ready := PutOn(Opened(PutOn(h, turn.putBefore), turn.event.cmd), turn.putBetween);
            Handle(h, turn) == Install(Launch(ready), r)
  {
  }

  lemma {:induction false} FinishKeeps(s: Sys, ok: bool, boot: Loop)
    requires s.pc.AtStart? && Accounted(s, boot)
    ensures Accounted(FinishStart(s, ok), boot)
  {
    if !Starts(s.loop, ok) {
      CompleteKeeps(s.(loop := StartFailed(s.loop)), ok, boot);
    }
  }

  lemma {:induction false} PutWhileStoppingKeeps(s: Sys, config: BridgeConfig, boot: Loop)
    requires (s.pc.AtStop? || s.pc.AtWrite?) && Accounted(s, boot)
    ensures Accounted(TakePut(s, config), boot)
  {
  }

  lemma {:induction false} PutAfterOpeningKeeps(s: Sys, config: BridgeConfig, boot: Loop)
    requires (s.pc.AtRead? || s.pc.AtInstall?) && Accounted(s, boot)
    ensures Accounted(TakePut(s, config), boot)
  {
  }

  lemma {:induction false} PutKeeps(s: Sys, config: BridgeConfig, boot: Loop)
    requires Accounted(s, boot)
    ensures Accounted(TakePut(s, config), boot)
  {
    if s.pc.AtStop? || s.pc.AtWrite? {
      PutWhileStoppingKeeps(s, config, boot);
    } else if s.pc.AtRead? || s.pc.AtInstall? {
      PutAfterOpeningKeeps(s, config, boot);
    }
  }

  lemma {:induction false} NextKeeps(s: Sys, step: Step, boot: Loop)
    requires Accounted(s, boot)
    ensures Accounted(Next(s, step), boot)
  {
    match step
    case Put(config) => PutKeeps(s, config, boot);
    case Signal => if s.pc.AtSelect? { BeginKeeps(s.(event := CtrlC), boot); }
    case Receive =>
      if s.pc.AtSelect? && s.queue != [] {
        BeginKeeps(s.(event := Received(s.queue[0]), queue := s.queue[1..]), boot);
      }
    case Advance =>
      if s.pc.AtStop? { StopKeeps(s, boot); }
      if s.pc.AtWrite? { WriteKeeps(s, boot); }
      if s.pc.AtInstall? { InstallKeeps(s, boot); }
    case Attempted(ok) => if s.pc.AtStart? { FinishKeeps(s, ok, boot); }
    case _ =>
  }

  lemma {:induction false} ExecKeeps(config: BridgeConfig, ok: bool, steps: seq<Step>)
    ensures Accounted(Exec(Initial(config, ok), steps), Boot(config, ok))
  {
    if steps == [] {
      RunKeeps(config, ok, []);
    } else {
      ExecKeeps(config, ok, steps[..|steps| - 1]);
      NextKeeps(Exec(Initial(config, ok), steps[..|steps| - 1]), steps[|steps| - 1], Boot(config, ok));
    }
  }

  /**
   Whenever the loop is at its head, or has been left, its variables are exactly those of a sequential run
   over the logged turns, with the last PUT laid over: every interleaving is explained by such a run.
   */
  lemma {:induction false} InterleavingIsARun(config: BridgeConfig, ok: bool, steps: seq<Step>)
    ensures var s := Exec(Initial(config, ok), steps);
            s.pc.AtSelect? || s.pc.AtEnd? ==> s.loop == PutOn(Run(Boot(config, ok), s.log), s.putA) && s.inHand.None?
  {
    ExecKeeps(config, ok, steps);
  }

  // No command is lost, repeated or overtaken on its way through the queue.

  function CommandsOf(log: seq<Input>): seq<Command>
  {
    if log == [] then []
    else CommandsOf(log[..|log| - 1])
         + match log[|log| - 1].event case Received(cmd) => [cmd] case CtrlC => []
  }

  function InTurn(s: Sys): seq<Command>
  {
    if s.pc.AtSelect? || s.pc.AtEnd? || s.event.CtrlC? then [] else [s.event.cmd]
  }

  predicate Fifo(s: Sys) { s.sent == CommandsOf(s.log) + InTurn(s) + s.queue && |s.queue| <= QUEUE_CAPACITY }

  lemma {:induction false} CommandsLogged(s: Sys, ok: bool)
    ensures CommandsOf(Complete(s, ok).log) == CommandsOf(s.log) + (if s.event.Received? then [s.event.cmd] else [])
    ensures CommandsOf(End(s).log) == CommandsOf(s.log) + (if s.event.Received? then [s.event.cmd] else [])
  {
    assert (s.log + [CurrentTurn(s, ok)])[..|s.log|] == s.log;
    assert (s.log + [CurrentTurn(s, false)])[..|s.log|] == s.log;
  }

  /** The turn's own command, also while the loop has not left its head yet. */
  function EventCommand(s: Sys): seq<Command> { match s.event case Received(cmd) => [cmd] case CtrlC => [] }

  predicate FifoMidTurn(s: Sys)
  {
    s.sent == CommandsOf(s.log) + EventCommand(s) + s.queue && |s.queue| <= QUEUE_CAPACITY
  }

  lemma {:induction false} FifoComplete(s: Sys, ok: bool)
    requires FifoMidTurn(s)
    ensures Fifo(Complete(s, ok)) && Fifo(End(s))
  {
    CommandsLogged(s, ok);
    assert CommandsOf(s.log) + EventCommand(s) + [] == CommandsOf(s.log) + EventCommand(s);
  }

  lemma {:induction false} FifoBegin(s: Sys)
    requires s.pc.AtSelect? && FifoMidTurn(s)
    ensures Fifo(Begin(s))
  {
    FifoComplete(s, false);
    FifoComplete(s.(loop := s.loop.(status := Failed)), false);
  }

  lemma {:induction false} FifoResume(s: Sys)
    requires Fifo(s)
    ensures Fifo(Resume(s))
  {
    match s.pc
    case AtStop(_) =>
      var t := s.(loop := TakenDown(s.loop, s.inHand), inHand := None);
      FifoComplete(t, false);
      FifoComplete(t.(loop := t.loop.(status := Finished)), false);
    case AtInstall =>
      if s.inHand.Some? {
        FifoComplete(s.(loop := Install(s.loop, s.inHand.value), inHand := None), true);
      }
    case _ =>
  }

  lemma {:induction false} FifoFinish(s: Sys, ok: bool)
    requires s.pc.AtStart? && Fifo(s)
    ensures Fifo(FinishStart(s, ok))
  {
    FifoComplete(s.(loop := StartFailed(s.loop)), ok);
  }

  lemma {:induction false} FifoReceive(s: Sys)
    requires s.pc.AtSelect? && s.queue != [] && Fifo(s)
    ensures Fifo(Begin(s.(event := Received(s.queue[0]), queue := s.queue[1..])))
  {
    assert s.queue == [s.queue[0]] + s.queue[1..];
    FifoBegin(s.(event := Received(s.queue[0]), queue := s.queue[1..]));
  }

  lemma {:induction false} FifoOutside(s: Sys, step: Step)
    requires step.Request? || step.Send? || step.TraySend? || step.Put?
    requires Fifo(s)
    ensures Fifo(Next(s, step))
  {
    match step
    case Send(i) => if i < |s.pending| && |s.queue| < QUEUE_CAPACITY { FifoEnqueue(s, s.pending[i]); }
    case TraySend(cmd) => if |s.queue| < QUEUE_CAPACITY { FifoEnqueue(s, cmd); }
    case _ =>
  }

  lemma {:induction false} FifoEnqueue(s: Sys, cmd: Command)
    requires Fifo(s) && |s.queue| < QUEUE_CAPACITY
    ensures Fifo(Enqueue(s, cmd))
  {
    assert CommandsOf(s.log) + InTurn(s) + s.queue + [cmd] == CommandsOf(s.log) + InTurn(s) + (s.queue + [cmd]);
  }

  lemma {:induction false} FifoStep(s: Sys, step: Step)
    requires Fifo(s)
    ensures Fifo(Next(s, step))
  {
    match step
    case Signal => if s.pc.AtSelect? { FifoBegin(s.(event := CtrlC)); }
    case Receive => if s.pc.AtSelect? && s.queue != [] { FifoReceive(s); }
    case Advance => FifoResume(s);
    case Attempted(ok) => if s.pc.AtStart? { FifoFinish(s, ok); }
    case _ => FifoOutside(s, step);
  }

  /** Commands are handled in the order they were queued, each once, and at most 32 wait. */
  lemma {:induction false} CommandsInOrder(config: BridgeConfig, ok: bool, steps: seq<Step>)
    ensures Fifo(Exec(Initial(config, ok), steps))
  {
    if steps != [] {
      CommandsInOrder(config, ok, steps[..|steps| - 1]);
      FifoStep(Exec(Initial(config, ok), steps[..|steps| - 1]), steps[|steps| - 1]);
    }
  }

  // Safety at every step, not only at the head.

  function Live(s: Sys): nat { (if s.loop.running.Some? then 1 else 0) + (if s.inHand.Some? then 1 else 0) }

  predicate Agrees(s: Sys, r: Router)
  {
    KnownMode(r.mode) && (!s.loop.putSinceStart ==> r.mode == s.loop.config.router.transport)
  }

  predicate Safe(s: Sys)
  {
    && Walks(s.loop.published)
    && Live(s) <= 1
    && s.loop.started - s.loop.stopped == Live(s)
    && (s.loop.running.Some? ==> Agrees(s, s.loop.running.value))
    && (s.inHand.Some? ==> Agrees(s, s.inHand.value))
    && (s.pc.AtInstall? ==> s.loop.running.None?)
    && (s.pc.AtEnd? ==> Live(s) == 0)
  }

  lemma {:induction false} StopIsSafe(s: Sys, h: Loop)
    requires TurnInvariant(s, h) && (s.pc.AtStop? || s.pc.AtWrite?)
    ensures Safe(s)
  {
    var l := PutOn(h, s.putA);
    assert HeadInvariant(l);
    if s.pc.AtStop? {
      TryWalks(l.published, Stopping);
    } else if l.running.Some? {
      StopRouterKeeps(l);
    }
  }

  lemma {:induction false} StartIsSafe(s: Sys, h: Loop)
    requires TurnInvariant(s, h) && (s.pc.AtRead? || s.pc.AtStart? || s.pc.AtInstall?)
    ensures Safe(s)
  {
    var l := PutOn(h, s.putA);
    assert HeadInvariant(l);
    OpenedKeeps(l, s.event.cmd);
  }

  lemma {:induction false} TurnIsSafe(s: Sys, h: Loop)
    requires TurnInvariant(s, h)
    ensures Safe(s)
  {
    match s.pc
    case AtStop(_) => StopIsSafe(s, h);
    case AtWrite => StopIsSafe(s, h);
    case AtRead => StartIsSafe(s, h);
    case AtStart => StartIsSafe(s, h);
    case AtInstall => StartIsSafe(s, h);
    case _ => assert HeadInvariant(PutOn(h, s.putA));
  }

  /**
   At every step of every interleaving: the published states follow the walk; routers started minus routers
   stopped is the number alive, at most one; a live router has the configured transport unless a PUT came
   after its start; installing a handle overwrites none; and none is alive once the loop has been left.
   */
  lemma {:induction false} AlwaysSafe(config: BridgeConfig, ok: bool, steps: seq<Step>)
    ensures Safe(Exec(Initial(config, ok), steps))
  {
    ExecKeeps(config, ok, steps);
    var s := Exec(Initial(config, ok), steps);
    TurnIsSafe(s, Run(Boot(config, ok), s.log));
  }

  /** A PUT keeps a live router in agreement with the configuration exactly when it brings that router's mode. */
  lemma {:induction false} PutAgreement(s: Sys, config: BridgeConfig)
    requires !s.pc.AtStart? && s.loop.running.Some?
    ensures var t := Next(s, Put(config)).loop;
            && t.running == s.loop.running && t.config == config
            && (t.running.value.mode == t.config.router.transport
                <==> config.router.transport == s.loop.running.value.mode)
  {
  }

  /** A PUT waits while a start holds the read lock; at any other time it replaces the configuration alone. */
  lemma {:induction false} PutEffect(s: Sys, config: BridgeConfig)
    ensures s.pc.AtStart? ==> Next(s, Put(config)) == s
    ensures !s.pc.AtStart? ==>
              var t := Next(s, Put(config));
              && t.loop.config == config && OnlyConfigMoved(s.loop, t.loop)
              && t.pc == s.pc && t.inHand == s.inHand && t.queue == s.queue && t.pending == s.pending
  {
  }

  // What subscribers see.

  predicate Extends(a: Loop, b: Loop) { a.published <= b.published }

  lemma {:induction false} LeaveExtends(s: Sys)
    ensures Extends(s.loop, BeginLeave(s).loop)
  {
  }

  lemma {:induction false} BeginExtends(s: Sys)
    ensures Extends(s.loop, Begin(s).loop)
  {
    LeaveExtends(s);
    if s.event.Received? && MakesAttempt(s.loop, s.event.cmd) && s.event.cmd.Start? {
      assert Extends(s.loop, Opened(s.loop, s.event.cmd));
    }
  }

  lemma {:induction false} ResumeExtends(s: Sys)
    ensures Extends(s.loop, Resume(s).loop)
  {
  }

  lemma {:induction false} FinishExtends(s: Sys, ok: bool)
    ensures Extends(s.loop, FinishStart(s, ok).loop)
  {
  }

  lemma {:induction false} NextExtends(s: Sys, step: Step)
    ensures Extends(s.loop, Next(s, step).loop)
  {
    match step
    case Signal => BeginExtends(s.(event := CtrlC));
    case Receive => if s.queue != [] { BeginExtends(s.(event := Received(s.queue[0]), queue := s.queue[1..])); }
    case Advance => ResumeExtends(s);
    case Attempted(ok) => FinishExtends(s, ok);
    case _ =>
  }

  lemma {:induction false} ExecExtends(s: Sys, steps: seq<Step>, i: nat)
    requires i <= |steps|
    ensures Extends(Exec(s, steps[..i]).loop, Exec(s, steps).loop)
  {
    if i == |steps| {
      assert steps[..i] == steps;
    } else {
      var front := steps[..|steps| - 1];
      assert front[..i] == steps[..i];
      ExecExtends(s, front, i);
      NextExtends(Exec(s, front), steps[|steps| - 1]);
    }
  }

  lemma {:induction false} OnTheWalk(config: BridgeConfig, ok: bool, steps: seq<Step>)
    ensures var p := Exec(Initial(config, ok), steps).loop.published; Last(p) == OnWalk(|p| - 1)
  {
    AlwaysSafe(config, ok, steps);
  }

  /**
   States are only ever added: of two samples of the published state, the later one stands at the same or a
   later place of the walk.
   */
  lemma {:induction false} SamplesInOrder(config: BridgeConfig, ok: bool, steps: seq<Step>, i: nat)
    requires i <= |steps|
    ensures var early, late := Exec(Initial(config, ok), steps[..i]).loop.published,
                               Exec(Initial(config, ok), steps).loop.published;
            && early <= late
            && Last(early) == OnWalk(|early| - 1) && Last(late) == OnWalk(|late| - 1)
  {
    OnTheWalk(config, ok, steps);
    OnTheWalk(config, ok, steps[..i]);
    ExecExtends(Initial(config, ok), steps, i);
  }

  // Requests that outlive the state that let them pass.

  lemma {:induction false} ExecConcat(s: Sys, a: seq<Step>, b: seq<Step>)
    ensures Exec(s, a + b) == Exec(Exec(s, a), b)
  {
    if b == [] {
      assert a + b == a;
    } else {
      assert (a + b)[..|a + b| - 1] == a + b[..|b| - 1];
      ExecConcat(s, a, b[..|b| - 1]);
    }
  }

  lemma {:induction false} ExecPair(s: Sys, a: Step, b: Step)
    ensures Exec(s, [a, b]) == Next(Next(s, a), b)
  {
    assert [a, b][..1] == [a] && [a][..0] == [];
    assert Exec(s, [a]) == Next(Exec(s, []), a);
  }

  /** A second command is accepted while a stop, accepted before it, is still under way. */
  lemma {:induction false} BothPass(s: Sys, cmd: Command)
    requires Last(s.loop.published) == Running && s.pending == [] && GatePasses(Running, cmd)
    ensures GatePasses(Last(s.loop.published), Stop)
    ensures GatePasses(Last(Next(s, Request(Stop)).loop.published), cmd)
    ensures Next(Next(s, Request(Stop)), Request(cmd)) == s.(pending := [Stop, cmd])
  {
    assert [Stop] + [cmd] == [Stop, cmd];
  }

  lemma {:induction false} BothQueue(s: Sys, cmd: Command)
    requires s.pending == [Stop, cmd] && s.queue == []
    ensures Next(Next(s, Send(0)), Send(0)) == s.(pending := [], queue := [Stop, cmd], sent := s.sent + [Stop] + [cmd])
  {
    var t := Next(s, Send(0));
    assert t == s.(pending := [cmd], queue := [Stop], sent := s.sent + [Stop]);
  }

  lemma {:induction false} StopHandled(s: Sys, cmd: Command)
    requires s.pc.AtSelect? && Last(s.loop.published) == Running && s.queue == [Stop, cmd]
    ensures var t := Next(Next(s, Receive), Advance);
            t.pc.AtSelect? && t.queue == [cmd] && Last(t.loop.published) == Stopped && t.loop.running.None?
  {
    var b := s.(event := Received(Stop), queue := [cmd]);
    assert s.queue[1..] == [cmd];
    assert Next(s, Receive) == Take(b, Rest);
  }

  /** A stop and another command are requested and queued while the router runs, and the stop is handled. */
  function StopAnd(cmd: Command): seq<Step>
  {
    [Request(Stop), Request(cmd)] + ([Send(0), Send(0)] + [Receive, Advance])
  }

  lemma {:induction false} StopOvertakesRequest(config: BridgeConfig, cmd: Command)
    requires KnownMode(config.router.transport) && GatePasses(Running, cmd)
    ensures var s := Initial(config, true);
            && GatePasses(Last(s.loop.published), Stop)
            && GatePasses(Last(Exec(s, [Request(Stop)]).loop.published), cmd)
    ensures var s := Exec(Initial(config, true), StopAnd(cmd));
            s.pc.AtSelect? && s.queue == [cmd] && Last(s.loop.published) == Stopped && s.loop.running.None?
  {
    var s := Initial(config, true);
    assert Last(s.loop.published) == Running;
    assert [Request(Stop)][..0] == [] && Exec(s, []) == s;
    ExecConcat(s, [Request(Stop), Request(cmd)], [Send(0), Send(0)] + [Receive, Advance]);
    ExecPair(s, Request(Stop), Request(cmd));
    BothPass(s, cmd);
    var t := s.(pending := [Stop, cmd]);
    ExecConcat(t, [Send(0), Send(0)], [Receive, Advance]);
    ExecPair(t, Send(0), Send(0));
    BothQueue(t, cmd);
    var u := t.(pending := [], queue := [Stop, cmd], sent := t.sent + [Stop] + [cmd]);
    ExecPair(u, Receive, Advance);
    StopHandled(u, cmd);
  }

  lemma {:induction false} StaleStopDropped(s: Sys)
    requires s.pc.AtSelect? && s.queue == [Stop] && Stale(s.loop, Stop)
    ensures var t := Next(s, Receive); t.loop == s.loop && t.queue == [] && t.pc.AtSelect?
  {
    assert s.queue[1..] == [];
  }

  /** A second stop was accepted like the first; when its turn comes it is stale, and it is dropped. */
  lemma {:induction false} SecondStopIsDropped(config: BridgeConfig)
    requires KnownMode(config.router.transport)
    ensures var s := Initial(config, true);
            && GatePasses(Last(s.loop.published), Stop)
            && GatePasses(Last(Exec(s, [Request(Stop)]).loop.published), Stop)
    ensures var s := Exec(Initial(config, true), StopAnd(Stop));
            && s.pc.AtSelect? && s.queue == [Stop] && Stale(s.loop, Stop)
            && Next(s, Receive).loop == s.loop && Next(s, Receive).queue == [] && Next(s, Receive).pc.AtSelect?
  {
    StopOvertakesRequest(config, Stop);
    StaleStopDropped(Exec(Initial(config, true), StopAnd(Stop)));
  }

  /**
   A gate lets a Stop or Start through exactly when the loop, asked in that state, would publish something for
   it; a switch to one of the two modes exactly in Running; Exit never.
   */
  lemma {:induction false} GateAgrees(l: Loop, cmd: Command)
    ensures cmd.Stop? || cmd.Start? ==>
              (GatePasses(Last(l.published), cmd)
               <==> Handle(l, Input(Received(cmd), None, None, false)).published != l.published)
    ensures cmd.SwitchTransport? ==>
              (GatePasses(Last(l.published), cmd) <==> Last(l.published) == Running && ByName(cmd.mode))
    ensures !GatePasses(Last(l.published), Exit)
  {
    if cmd.Stop? || cmd.Start? {
      DroppedIffStale(l, Input(Received(cmd), None, None, false));
    }
  }

  /** The queue has room for 32: then a handler waits and the tray's command is lost; before, both are queued last. */
  lemma {:induction false} QueueHolds32(s: Sys, i: nat, cmd: Command)
    requires i < |s.pending|
    ensures |s.queue| >= 32 ==> Next(s, Send(i)) == s && Next(s, TraySend(cmd)) == s
    ensures |s.queue| < 32 ==>
              && Next(s, TraySend(cmd)).queue == s.queue + [cmd] && Next(s, TraySend(cmd)).pending == s.pending
              && Next(s, Send(i)).queue == s.queue + [s.pending[i]]
              && Next(s, Send(i)).pending == s.pending[..i] + s.pending[i + 1..]
  {
  }

  /** What the loop does with a transport switch when no router is running and the start succeeds. */
  function ServeSwitch(): seq<Step> { [Receive, Advance] + ([Advance, Attempted(true)] + [Advance]) }

  lemma {:induction false} SwitchOpens(s: Sys, mode: string)
    requires s.pc.AtSelect? && s.queue == [SwitchTransport(mode)] && KnownMode(mode) && s.loop.running.None?
    ensures Next(Next(s, Receive), Advance)
         == s.(event := Received(SwitchTransport(mode)), queue := [], pc := AtRead, loop := WriteMode(s.loop, mode))
  {
    assert s.queue[1..] == [];
    assert Next(s, Receive) == s.(event := Received(SwitchTransport(mode)), queue := [], pc := AtWrite);
  }

  lemma {:induction false} SwitchStarts(s: Sys)
    requires s.pc.AtRead? && KnownMode(s.loop.config.router.transport)
    ensures Next(Next(s, Advance), Attempted(true))
         == s.(loop := Launch(s.loop), inHand := Some(Router(s.loop.config.router.transport)), pc := AtInstall)
  {
    assert Next(s, Advance) == s.(pc := AtStart);
  }

  lemma {:induction false} SwitchInstalls(s: Sys)
    requires s.pc.AtInstall? && s.inHand.Some? && Last(s.loop.published) == Starting
    ensures var t := Next(s, Advance);
            && t.pc.AtSelect? && t.loop.running == s.inHand && t.loop.published == s.loop.published + [Running]
            && t.loop.config == s.loop.config
  {
  }

  /** From a state with no router and Stopped or Starting published, a served switch brings one up. */
  lemma {:induction false} SwitchServed(s: Sys, mode: string)
    requires s.pc.AtSelect? && s.queue == [SwitchTransport(mode)] && KnownMode(mode) && s.loop.running.None?
    requires Last(s.loop.published) == Stopped || Last(s.loop.published) == Starting
    ensures var t := Exec(s, ServeSwitch());
            && t.pc.AtSelect? && t.loop.running == Some(Router(mode)) && Last(t.loop.published) == Running
            && (forall f: Field :: Get(t.loop.config, f) == if f == Transport then Text(mode) else Get(s.loop.config, f))
            && Bdt(t.loop.config) == Bdt(s.loop.config)
  {
    forall f: Field
      ensures Get(WithTransport(s.loop.config, mode), f) == if f == Transport then Text(mode) else Get(s.loop.config, f)
    {
      SwitchedField(s.loop.config, mode, f);
    }
    ExecConcat(s, [Receive, Advance], [Advance, Attempted(true)] + [Advance]);
    ExecPair(s, Receive, Advance);
    SwitchOpens(s, mode);
    var t := Exec(s, [Receive, Advance]);
    ExecConcat(t, [Advance, Attempted(true)], [Advance]);
    ExecPair(t, Advance, Attempted(true));
    SwitchStarts(t);
    var u := Exec(t, [Advance, Attempted(true)]);
    SwitchInstalls(u);
    assert [Advance][..0] == [] && Exec(u, [Advance]) == Next(Exec(u, []), Advance);
  }

  /** A switch accepted while the router runs, behind a stop, starts the router the stop took down. */
  lemma {:induction false} LateSwitchRestarts(config: BridgeConfig, mode: string)
    requires KnownMode(config.router.transport) && KnownMode(mode)
    ensures var s := Initial(config, true);
            && GatePasses(Last(s.loop.published), Stop)
            && GatePasses(Last(Exec(s, [Request(Stop)]).loop.published), SwitchTransport(mode))
    ensures var s := Exec(Initial(config, true), StopAnd(SwitchTransport(mode)));
            && s.loop.running.None? && Last(s.loop.published) == Stopped
            && Exec(s, ServeSwitch()).loop.running == Some(Router(mode))
            && Last(Exec(s, ServeSwitch()).loop.published) == Running
  {
    StopOvertakesRequest(config, SwitchTransport(mode));
    SwitchServed(Exec(Initial(config, true), StopAnd(SwitchTransport(mode))), mode);
  }

  // A failed start locks the dashboard out.

  /** The one command that can get the loop out of Starting. */
  predicate Rescues(cmd: Command) { cmd.SwitchTransport? && KnownMode(cmd.mode) }

  predicate NoRescue(cmds: seq<Command>) { forall c | c in cmds :: !Rescues(c) }

  /** At the head or past the end with Starting published, and no switch to a known mode on its way. */
  predicate LockedOut(s: Sys)
  {
    && (s.pc.AtSelect? || s.pc.AtEnd?) && Last(s.loop.published) == Starting
    && NoRescue(s.queue) && NoRescue(s.pending)
  }

  /** Any step at all but the tray's switch to a known mode. */
  predicate WithoutRescue(step: Step) { step.TraySend? ==> !Rescues(step.cmd) }

  lemma {:induction false} LockOutStep(s: Sys, step: Step)
    requires LockedOut(s) && WithoutRescue(step)
    ensures LockedOut(Next(s, step)) && Next(s, step).loop.published == s.loop.published
    ensures Next(s, step).loop.started == s.loop.started
  {
    if step.Receive? && s.queue != [] {
      assert s.queue[0] in s.queue;
      assert forall c | c in s.queue[1..] :: c in s.queue;
    }
  }

  /** Whatever else is done, no state is published any more and no router is started. */
  lemma {:induction false} LockedOutForGood(s: Sys, steps: seq<Step>)
    requires LockedOut(s) && forall step | step in steps :: WithoutRescue(step)
    ensures LockedOut(Exec(s, steps)) && Exec(s, steps).loop.published == s.loop.published
    ensures Exec(s, steps).loop.started == s.loop.started
  {
    if steps != [] {
      var front := steps[..|steps| - 1];
      assert forall step | step in front :: step in steps;
      LockedOutForGood(s, front);
      assert steps[|steps| - 1] in steps;
      LockOutStep(Exec(s, front), steps[|steps| - 1]);
    }
  }

  /**
   So after a failed first start no request from the dashboard ever passes, and no new configuration helps:
   the router stays down until the tray switches the transport.
   */
  lemma {:induction false} FailedBootLocksOut(config: BridgeConfig, ok: bool, steps: seq<Step>)
    requires !(ok && KnownMode(config.router.transport))
    requires forall step | step in steps :: WithoutRescue(step)
    ensures var s := Exec(Initial(config, ok), steps);
            && s.loop.published == [Stopped, Starting] && s.loop.running.None? && s.loop.started == 0
            && forall cmd :: !GatePasses(Last(s.loop.published), cmd)
  {
    LockedOutForGood(Initial(config, ok), steps);
    AlwaysSafe(config, ok, steps);
    ExecKeeps(config, ok, steps);
  }

  /** And the tray's switch does help, at the head of any locked-out loop with nothing queued. */
  lemma {:induction false} TraySwitchRescues(s: Sys, mode: string)
    requires LockedOut(s) && s.pc.AtSelect? && s.queue == [] && s.loop.running.None? && KnownMode(mode)
    ensures var t := Exec(Next(s, TraySend(SwitchTransport(mode))), ServeSwitch());
            t.pc.AtSelect? && t.loop.running == Some(Router(mode)) && Last(t.loop.published) == Running
  {
    assert [] + [SwitchTransport(mode)] == [SwitchTransport(mode)];
    SwitchServed(Next(s, TraySend(SwitchTransport(mode))), mode);
  }
}
