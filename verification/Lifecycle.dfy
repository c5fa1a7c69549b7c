/** Start-up, signals, health flags and shutdown of the process: pkg/signals, the flags of
    pkg/api/http/health.go, Graceful with its timing, and the order of main in cmd/podinfo/main.go. */
module Lifecycle {
  import opened Runs

  /** The main goroutine: ListenAndServe raises the flags, SetupSignalHandler registers for the
      signals, Graceful waits, clears the flags, pauses and stops the servers. */
  datatype Main =
    | RaisingHealthy | RaisingReady | Registering
    | Awaiting | ClearingHealthy | ClearingReady | Pausing
    | StoppingGrpc | StoppingHttp | StoppingHttps | Returned

  /** The goroutine of SetupSignalHandler. */
  datatype Handler = NotStarted | FirstReceive | ClosingStop | SecondReceive | Exiting

  /** Which of the servers: started, or stopped. */
  datatype Servers = Servers(grpc: bool, http: bool, https: bool)

  const NO_SERVERS := Servers(false, false, false)

  /** How the process ended: main returned, the second signal, a signal before the registration,
      or a panic. */
  datatype Exit = Alive | Code0 | Code1 | Killed | Panic

  /** The signal goroutine and its channel; `delivered` and `dropped` count the signals since the
      registration. */
  datatype Signals = Signals(handler: Handler, stopClosed: bool, delivered: nat, buffered: nat, consumed: nat, dropped: nat)

  /** `debug` is the log level at which there is no pause, `timeout` that of the shutdown context. */
  datatype Config = Config(unhealthy: bool, unready: bool, servers: Servers, debug: bool, timeout: nat)

  /** When the stop channel was found closed, and when each of the servers had been stopped. */
  datatype Times = Times(stop: nat, grpcEnd: nat, httpEnd: nat, httpsEnd: nat)

  datatype State = State(
    config: Config, main: Main, signals: Signals, exit: Exit,
    healthy: bool, ready: bool, stopped: Servers, now: nat, times: Times)

  function Start(config: Config): State {
    State(config, RaisingHealthy, Signals(NotStarted, false, 0, 0, 0, 0), Alive, false, false, NO_SERVERS,
      0, Times(0, 0, 0, 0))
  }

  /** `Signal` is one of the signals registered for, `EnableReady` and `DisableReady` are requests,
      `Pass` lets time go by. */
  datatype Action = Signal | EnableReady | DisableReady | StepMain | StepHandler | Pass(seconds: nat)

  const BUFFER := 2

  predicate CanReceive(g: Signals) {
    !g.handler.NotStarted? && (g.handler.FirstReceive? || g.handler.SecondReceive? ==> g.buffered > 0)
  }

  const GRACE := 3

  function Pause(config: Config): nat {
    if config.debug then 0 else GRACE
  }

  function Deadline(s: State): nat {
    s.times.stop + s.config.timeout
  }

  /** How long main may stay where it is. Clearing a flag takes no time, the pause no more than its
      three seconds, GracefulStop as long as it likes, and a Shutdown(ctx) is over by the deadline,
      or at once if that has passed. */
  predicate MayPass(s: State, seconds: nat) {
    || seconds == 0
    || match s.main
       case Awaiting => !s.signals.stopClosed
       case ClearingHealthy | ClearingReady => false
       case Pausing => s.now + seconds <= s.times.stop + Pause(s.config)
       case StoppingGrpc => s.config.servers.grpc
       case StoppingHttp => s.config.servers.http && s.now + seconds <= Deadline(s)
       case StoppingHttps => s.config.servers.https && s.now + seconds <= Deadline(s)
       case _ => true
  }

  predicate Enabled(s: State, a: Action) {
    && s.exit.Alive?
    && match a
       case StepMain =>
         && (s.main.Awaiting? ==> s.signals.stopClosed)
         && (s.main.Pausing? ==> s.now >= s.times.stop + Pause(s.config))
       case Pass(seconds) => MayPass(s, seconds)
       case StepHandler => CanReceive(s.signals)
       case _ => true
  }

  function NextMain(s: State): State {
    match s.main
    case RaisingHealthy => s.(main := RaisingReady, healthy := s.healthy || !s.config.unhealthy)
    case RaisingReady => s.(main := Registering, ready := s.ready || !s.config.unready)
    case Registering => s.(main := Awaiting, signals := s.signals.(handler := FirstReceive))
    case Awaiting => s.(main := ClearingHealthy, times := s.times.(stop := s.now))
    case ClearingHealthy => s.(main := ClearingReady, healthy := false)
    case ClearingReady => s.(main := Pausing, ready := false)
    case Pausing => s.(main := StoppingGrpc)
    case StoppingGrpc =>
      s.(main := StoppingHttp, stopped := s.stopped.(grpc := s.config.servers.grpc), times := s.times.(grpcEnd := s.now))
    case StoppingHttp =>
      s.(main := StoppingHttps, stopped := s.stopped.(http := s.config.servers.http), times := s.times.(httpEnd := s.now))
    case StoppingHttps =>
      s.(main := Returned, stopped := s.stopped.(https := s.config.servers.https), times := s.times.(httpsEnd := s.now))
    case Returned => s.(exit := Code0)
  }

  function Receive(g: Signals, handler: Handler): Signals
    requires g.buffered > 0
  {
    g.(handler := handler, buffered := g.buffered - 1, consumed := g.consumed + 1)
  }

  function NextHandler(s: State): State
    requires CanReceive(s.signals)
  {
    var g := s.signals;
    match g.handler
    case NotStarted => s
    case FirstReceive => s.(signals := Receive(g, ClosingStop))
    case ClosingStop =>
      if g.stopClosed then s.(exit := Panic)
      else s.(signals := g.(handler := SecondReceive, stopClosed := true))
    case SecondReceive => s.(signals := Receive(g, Exiting))
    case Exiting => s.(exit := Code1)
  }

  /** The runtime sends a signal to the channel without blocking, and drops it if the buffer is full. */
  function Deliver(s: State): State {
    var g := s.signals;
    if g.handler.NotStarted? then s.(exit := Killed)
    else if g.buffered < BUFFER then s.(signals := g.(delivered := g.delivered + 1, buffered := g.buffered + 1))
    else s.(signals := g.(delivered := g.delivered + 1, dropped := g.dropped + 1))
  }

  function Next(s: State, a: Action): State {
    if !Enabled(s, a) then s else
    match a
    case Signal => Deliver(s)
    case EnableReady => s.(ready := true)
    case DisableReady => s.(ready := false)
    case StepMain => NextMain(s)
    case StepHandler => NextHandler(s)
    case Pass(seconds) => s.(now := s.now + seconds)
  }

  function After(config: Config, schedule: seq<Action>): State {
    Run(Next, Start(config), schedule)
  }

  predicate UntilStop(m: Main) {
    m.RaisingHealthy? || m.RaisingReady? || m.Registering? || m.Awaiting?
  }

  predicate HealthyCleared(m: Main) {
    !UntilStop(m) && !m.ClearingHealthy?
  }

  predicate Cleared(m: Main) {
    HealthyCleared(m) && !m.ClearingReady?
  }

  function Received(h: Handler): nat {
    match h
    case NotStarted | FirstReceive => 0
    case ClosingStop | SecondReceive => 1
    case Exiting => 2
  }

  /** The signals: none is lost before two have been received or wait in the buffer. */
  ghost predicate SignalsOk(g: Signals) {
    && (g.handler.NotStarted? ==> g.delivered == 0)
    && (g.stopClosed <==> g.handler.SecondReceive? || g.handler.Exiting?)
    && g.consumed == Received(g.handler)
    && g.buffered <= BUFFER
    && g.consumed + g.buffered + g.dropped == g.delivered
    && (g.dropped > 0 ==> g.consumed + g.buffered >= BUFFER)
  }

  predicate Registered(m: Main) {
    !m.RaisingHealthy? && !m.RaisingReady? && !m.Registering?
  }

  /** The shutdown: flags first, then the servers that were started, one after the other. */
  ghost predicate ShutdownOk(s: State) {
    && (HealthyCleared(s.main) ==> !s.healthy)
    && s.stopped == (match s.main
                     case StoppingHttp => Servers(s.config.servers.grpc, false, false)
                     case StoppingHttps => Servers(s.config.servers.grpc, s.config.servers.http, false)
                     case Returned => s.config.servers
                     case _ => NO_SERVERS)
  }

  ghost predicate Inv(s: State) {
    && SignalsOk(s.signals)
    && ShutdownOk(s)
    && (Registered(s.main) <==> !s.signals.handler.NotStarted?)
    && (!UntilStop(s.main) ==> s.signals.stopClosed)
    && !s.exit.Panic?
    && (s.exit.Code0? ==> s.main.Returned?)
    && (s.exit.Code1? ==> s.signals.handler.Exiting?)
  }

  lemma HandlerNext(s: State)
    requires SignalsOk(s.signals)
    ensures var t := Next(s, StepHandler);
            && SignalsOk(t.signals) && t.main == s.main
            && (t.signals.handler.NotStarted? <==> s.signals.handler.NotStarted?)
            && (s.signals.stopClosed ==> t.signals.stopClosed)
  {
  }

  lemma SignalsNext(s: State, a: Action)
    requires SignalsOk(s.signals) && (Registered(s.main) <==> !s.signals.handler.NotStarted?)
    ensures SignalsOk(Next(s, a).signals)
    ensures Registered(Next(s, a).main) <==> !Next(s, a).signals.handler.NotStarted?
    ensures s.signals.stopClosed ==> Next(s, a).signals.stopClosed
  {
    if a.StepHandler? {
      HandlerNext(s);
    }
  }

  lemma ShutdownNext(s: State, a: Action)
    requires ShutdownOk(s)
    ensures ShutdownOk(Next(s, a))
  {
  }

  lemma InvNext(s: State, a: Action)
    requires Inv(s)
    ensures Inv(Next(s, a))
  {
    SignalsNext(s, a);
    ShutdownNext(s, a);
  }

  lemma {:induction false} Safety(config: Config, schedule: seq<Action>)
    ensures Inv(After(config, schedule))
  {
    var n := |schedule| - 1;
    if n >= 0 {
      Safety(config, schedule[..n]);
      InvNext(After(config, schedule[..n]), schedule[n]);
    }
  }

  // ---------------------------------------------------------------- what a schedule has done so far

  /** The step `a` takes effect after `schedule`. */
  predicate Works(config: Config, schedule: seq<Action>, a: Action) {
    Enabled(After(config, schedule), a)
  }

  /** The steps of main and of the signal goroutine that took effect. */
  function MainSteps(config: Config, schedule: seq<Action>): nat {
    var n := |schedule| - 1;
    if n < 0 then 0
    else MainSteps(config, schedule[..n]) + if schedule[n] == StepMain && Works(config, schedule[..n], StepMain) then 1 else 0
  }

  function HandlerSteps(config: Config, schedule: seq<Action>): nat {
    var n := |schedule| - 1;
    if n < 0 then 0
    else HandlerSteps(config, schedule[..n]) + if schedule[n] == StepHandler && Works(config, schedule[..n], StepHandler) then 1 else 0
  }

  /** The signals that arrive while the process lives: before the registration, or after it. */
  function SignalsSeen(config: Config, schedule: seq<Action>, registered: bool): nat {
    var n := |schedule| - 1;
    if n < 0 then 0
    else SignalsSeen(config, schedule[..n], registered)
         + if schedule[n] == Signal && Works(config, schedule[..n], Signal) && (MainSteps(config, schedule[..n]) >= 3) == registered
           then 1 else 0
  }

  /** The statements of main in their order. */
  function Position(m: Main): nat {
    match m
    case RaisingHealthy => 0
    case RaisingReady => 1
    case Registering => 2
    case Awaiting => 3
    case ClearingHealthy => 4
    case ClearingReady => 5
    case Pausing => 6
    case StoppingGrpc => 7
    case StoppingHttp => 8
    case StoppingHttps => 9
    case Returned => 10
  }

  predicate MainAt(s: State, steps: nat) {
    Position(s.main) + (if s.exit.Code0? then 1 else 0) == steps && (s.exit.Code0? ==> s.main.Returned?)
  }

  lemma MainAtMain(s: State)
    requires Enabled(s, StepMain)
    ensures if s.main.Returned? then NextMain(s).main.Returned? && NextMain(s).exit.Code0?
            else Position(NextMain(s).main) == Position(s.main) + 1 && NextMain(s).exit.Alive?
  {
  }

  lemma MainAtOthers(s: State, a: Action)
    requires a != StepMain
    ensures Next(s, a).main == s.main && Next(s, a).exit.Code0? == s.exit.Code0?
  {
  }

  lemma MainAtNext(s: State, a: Action, steps: nat)
    requires MainAt(s, steps)
    ensures MainAt(Next(s, a), steps + if a.StepMain? && Enabled(s, a) then 1 else 0)
  {
    if a != StepMain {
      MainAtOthers(s, a);
    } else if Enabled(s, a) {
      MainAtMain(s);
    }
  }

  /** main does what it does in the order of its statements, and its last step ends the process. */
  lemma {:induction false} MainInOrder(config: Config, schedule: seq<Action>)
    ensures MainAt(After(config, schedule), MainSteps(config, schedule))
  {
    var n := |schedule| - 1;
    if n >= 0 {
      MainInOrder(config, schedule[..n]);
      MainAtNext(After(config, schedule[..n]), schedule[n], MainSteps(config, schedule[..n]));
    }
  }

  predicate HandlerAt(g: Signals, exit: Exit, steps: nat) {
    && steps <= 4
    && (g.handler.NotStarted? || g.handler.FirstReceive? <==> steps == 0)
    && (g.handler.ClosingStop? <==> steps == 1)
    && (g.handler.SecondReceive? <==> steps == 2)
    && (g.stopClosed <==> steps >= 2)
    && (exit.Code1? <==> steps == 4)
  }

  lemma HandlerAtHandler(s: State, steps: nat)
    requires HandlerAt(s.signals, s.exit, steps) && SignalsOk(s.signals) && Enabled(s, StepHandler)
    ensures HandlerAt(NextHandler(s).signals, NextHandler(s).exit, steps + 1)
  {
  }

  lemma HandlerAtOthers(s: State, a: Action, steps: nat)
    requires HandlerAt(s.signals, s.exit, steps) && a != StepHandler
    requires Registered(s.main) <==> !s.signals.handler.NotStarted?
    ensures HandlerAt(Next(s, a).signals, Next(s, a).exit, steps)
  {
  }

  lemma DeliveredNext(s: State, a: Action)
    requires Registered(s.main) <==> !s.signals.handler.NotStarted?
    ensures var t := Next(s, a); var seen := a.Signal? && Enabled(s, a);
            && t.signals.delivered == s.signals.delivered + (if seen && Registered(s.main) then 1 else 0)
            && (t.exit.Killed? <==> s.exit.Killed? || (seen && !Registered(s.main)))
  {
  }

  /** The signal goroutine closes the stop channel with its second step and ends the process with its
      fourth. */
  lemma {:induction false} HandlerInOrder(config: Config, schedule: seq<Action>)
    ensures var s := After(config, schedule); var steps := HandlerSteps(config, schedule);
            HandlerAt(s.signals, s.exit, steps)
  {
    var n := |schedule| - 1;
    if n >= 0 {
      var s, steps := After(config, schedule[..n]), HandlerSteps(config, schedule[..n]);
      HandlerInOrder(config, schedule[..n]);
      assert SignalsOk(s.signals) && (Registered(s.main) <==> !s.signals.handler.NotStarted?) by { Safety(config, schedule[..n]); }
      if schedule[n] != StepHandler {
        HandlerAtOthers(s, schedule[n], steps);
      } else if Enabled(s, StepHandler) {
        HandlerAtHandler(s, steps);
      }
    }
  }

  /** Each signal is delivered that comes after the registration, and one before it kills the process. */
  lemma {:induction false} SignalsExactly(config: Config, schedule: seq<Action>)
    ensures var s := After(config, schedule);
            && s.signals.delivered == SignalsSeen(config, schedule, true)
            && (s.exit.Killed? <==> SignalsSeen(config, schedule, false) > 0)
  {
    var n := |schedule| - 1;
    if n >= 0 {
      var s := After(config, schedule[..n]);
      SignalsExactly(config, schedule[..n]);
      assert Registered(s.main) <==> !s.signals.handler.NotStarted? by { Safety(config, schedule[..n]); }
      MainInOrder(config, schedule[..n]);
      DeliveredNext(s, schedule[n]);
    }
  }

  // ---------------------------------------------------------------- signals

  /** However many signals arrive and however they interleave: the stop channel is closed once and
      only after a first signal, exit code 1 takes a second, and neither of the first two is lost. */
  lemma TwoSignals(config: Config, schedule: seq<Action>)
    ensures var s := After(config, schedule);
            && !s.exit.Panic?
            && (s.signals.stopClosed ==> s.signals.delivered >= 1)
            && (s.exit.Code1? ==> s.signals.delivered >= 2)
            && s.signals.buffered <= 2
            && s.signals.consumed + s.signals.buffered >= (if s.signals.delivered < 2 then s.signals.delivered else 2)
            && (s.exit.Alive? && s.signals.delivered >= 1 && !s.signals.stopClosed ==> Enabled(s, StepHandler))
            && (s.exit.Alive? && s.signals.delivered >= 2 ==> Enabled(s, StepHandler))
  {
    Safety(config, schedule);
  }

  /** A second signal cuts the shutdown short wherever it is: at most four steps of the handler
      separate it from exit code 1. */
  lemma SecondSignalExits(config: Config, schedule: seq<Action>) returns (n: nat)
    requires var s := After(config, schedule); s.exit.Alive? && s.signals.delivered >= 2
    ensures n <= 4 && Run(Next, After(config, schedule), seq(n, _ => StepHandler)).exit.Code1?
  {
    Safety(config, schedule);
    var s := After(config, schedule);
    ExitsIn(s);
    n := StepsToExit(s.signals.handler);
  }

  function StepsToExit(h: Handler): nat {
    match h
    case NotStarted => 5
    case FirstReceive => 4
    case ClosingStop => 3
    case SecondReceive => 2
    case Exiting => 1
  }

  lemma HandlerMovesOn(s: State)
    requires Inv(s) && s.exit.Alive? && s.signals.delivered >= 2
    ensures var t := Next(s, StepHandler);
            && t.signals.delivered == s.signals.delivered && 1 <= StepsToExit(s.signals.handler) <= 4
            && if s.signals.handler.Exiting? then t.exit.Code1?
               else t.exit.Alive? && StepsToExit(t.signals.handler) == StepsToExit(s.signals.handler) - 1
  {
  }

  lemma {:induction false} ExitsIn(s: State)
    requires Inv(s) && s.exit.Alive? && s.signals.delivered >= 2
    ensures StepsToExit(s.signals.handler) <= 4
    ensures Run(Next, s, seq(StepsToExit(s.signals.handler), _ => StepHandler)).exit.Code1?
    decreases StepsToExit(s.signals.handler)
  {
    var n := StepsToExit(s.signals.handler);
    HandlerMovesOn(s);
    InvNext(s, StepHandler);
    Cons(s, n - 1);
    if !s.signals.handler.Exiting? {
      ExitsIn(Next(s, StepHandler));
    }
  }

  lemma Cons(s: State, n: nat)
    ensures Run(Next, s, seq(n + 1, _ => StepHandler)) == Run(Next, Next(s, StepHandler), seq(n, _ => StepHandler))
  {
    assert seq(n + 1, _ => StepHandler) == [StepHandler] + seq(n, _ => StepHandler);
    Append(Next, s, [StepHandler], seq(n, _ => StepHandler));
    Snoc(Next, s, [], StepHandler);
    assert [] + [StepHandler] == [StepHandler];
  }

  // ---------------------------------------------------------------- the probes

  /** The status of a probe: 200 if its flag is raised, 503 otherwise. */
  function Probe(flag: bool): nat {
    if flag then 200 else 503
  }

  /** Once Graceful has cleared it, healthz fails in every later state; and no server is stopped,
      and the process does not end well, before both flags have been cleared. */
  lemma ClearedFirst(config: Config, schedule: seq<Action>, k: nat)
    requires k <= |schedule|
    ensures var s := After(config, schedule[..k]);
            var t := After(config, schedule);
            && (HealthyCleared(s.main) ==> Probe(t.healthy) == 503)
            && (t.stopped != NO_SERVERS || t.exit.Code0? ==> Cleared(t.main) && Probe(t.healthy) == 503)
            && (t.exit.Code0? ==> t.stopped == config.servers)
  {
    Safety(config, schedule);
    SameConfig(config, schedule);
    var start := Start(config);
    if HealthyCleared(Run(Next, start, schedule[..k]).main) {
      StaysCleared(start, schedule, k);
    }
  }

  lemma {:induction false} StaysCleared(start: State, schedule: seq<Action>, k: nat)
    requires k <= |schedule| && HealthyCleared(Run(Next, start, schedule[..k]).main)
    ensures HealthyCleared(Run(Next, start, schedule).main)
  {
    var n := |schedule| - 1;
    if n >= k {
      assert schedule[..n][..k] == schedule[..k];
      StaysCleared(start, schedule[..n], k);
      ClearedNext(Run(Next, start, schedule[..n]), schedule[n]);
    } else {
      assert schedule[..k] == schedule;
    }
  }

  lemma ClearedNext(s: State, a: Action)
    requires HealthyCleared(s.main)
    ensures HealthyCleared(Next(s, a).main)
  {
  }

  lemma {:induction false} SameConfig(config: Config, schedule: seq<Action>)
    ensures After(config, schedule).config == config
  {
    if |schedule| > 0 {
      SameConfig(config, schedule[..|schedule| - 1]);
      ConfigKept(After(config, schedule[..|schedule| - 1]), schedule[|schedule| - 1]);
    }
  }

  lemma ConfigKept(s: State, a: Action)
    ensures Next(s, a).config == s.config
  {
  }

  /** Whether the last to touch the ready flag raised it: the second step of main unless configured
      otherwise, its sixth, which clears the flag, and the requests that enable and disable it. */
  function Raised(config: Config, schedule: seq<Action>): bool {
    var n := |schedule| - 1;
    if n < 0 then false
    else if !Works(config, schedule[..n], schedule[n]) then Raised(config, schedule[..n])
    else match schedule[n]
         case EnableReady => true
         case DisableReady => false
         case StepMain =>
           if MainSteps(config, schedule[..n]) == 1 && !config.unready then true
           else if MainSteps(config, schedule[..n]) == 5 then false
           else Raised(config, schedule[..n])
         case _ => Raised(config, schedule[..n])
  }

  lemma ReadyNext(s: State, a: Action)
    requires Enabled(s, a)
    ensures Next(s, a).ready ==
            match a
            case EnableReady => true
            case DisableReady => false
            case StepMain => if s.main.ClearingReady? then false else s.ready || (s.main.RaisingReady? && !s.config.unready)
            case _ => s.ready
  {
  }

  /** readyz succeeds, in every state of every schedule, exactly if the last to touch its flag raised it. */
  lemma {:induction false} ReadyExactly(config: Config, schedule: seq<Action>)
    ensures Probe(After(config, schedule).ready) == 200 <==> Raised(config, schedule)
  {
    var n := |schedule| - 1;
    if n >= 0 {
      ReadyExactly(config, schedule[..n]);
      MainInOrder(config, schedule[..n]);
      SameConfig(config, schedule[..n]);
      if Works(config, schedule[..n], schedule[n]) {
        ReadyNext(After(config, schedule[..n]), schedule[n]);
      }
    }
  }

  /** Whether the last request to touch the ready flag raised it. */
  function LastRaises(actions: seq<Action>): bool {
    if |actions| == 0 then false
    else match actions[|actions| - 1]
         case EnableReady => true
         case DisableReady => false
         case _ => LastRaises(actions[..|actions| - 1])
  }

  /** Once Graceful has cleared the ready flag, readyz succeeds again exactly if a later request
      enables it and none disables it after that (as long as the process lives). */
  lemma {:induction false} ReadyAfterClearing(s: State, later: seq<Action>)
    requires Cleared(s.main) && !s.ready && Run(Next, s, later).exit.Alive?
    ensures var t := Run(Next, s, later);
            Cleared(t.main) && (Probe(t.ready) == 200 <==> LastRaises(later))
  {
    var n := |later| - 1;
    if n >= 0 {
      ClearedStep(Run(Next, s, later[..n]), later[n]);
      ReadyAfterClearing(s, later[..n]);
    }
  }

  lemma ClearedStep(s: State, a: Action)
    requires Next(s, a).exit.Alive?
    ensures s.exit.Alive?
    ensures Cleared(s.main) ==> Cleared(Next(s, a).main)
    ensures Cleared(s.main) ==> Next(s, a).ready == if a.EnableReady? then true else if a.DisableReady? then false else s.ready
  {
  }

  /** healthz succeeds exactly between the start-up that raises its flag, if it is not configured
      down, and the shutdown that clears it. */
  lemma {:induction false} HealthyExactly(config: Config, schedule: seq<Action>)
    ensures var s := After(config, schedule);
            Probe(s.healthy) == 200 <==> !config.unhealthy && !s.main.RaisingHealthy? && !HealthyCleared(s.main)
  {
    var n := |schedule| - 1;
    if n >= 0 {
      HealthyExactly(config, schedule[..n]);
      SameConfig(config, schedule[..n]);
      HealthyNext(After(config, schedule[..n]), schedule[n]);
    }
  }

  lemma HealthyNext(s: State, a: Action)
    requires s.healthy <==> !s.config.unhealthy && !s.main.RaisingHealthy? && !HealthyCleared(s.main)
    ensures var t := Next(s, a);
            t.healthy <==> !s.config.unhealthy && !t.main.RaisingHealthy? && !HealthyCleared(t.main)
  {
  }

  // ---------------------------------------------------------------- timing

  function Max(a: nat, b: nat): nat {
    if a < b then b else a
  }

  /** The times a shutdown that began at `stop` may take, and no others: the pause, then gRPC without
      a bound, then HTTP and HTTPS, both by the one deadline, or at once if gRPC has overrun it. */
  predicate Possible(config: Config, c: Times) {
    && c.stop + Pause(config) <= c.grpcEnd <= c.httpEnd <= c.httpsEnd <= Max(c.stop + config.timeout, c.grpcEnd)
    && (!config.servers.grpc ==> c.grpcEnd == c.stop + Pause(config))
    && (!config.servers.http ==> c.httpEnd == c.grpcEnd)
    && (!config.servers.https ==> c.httpsEnd == c.httpEnd)
  }

  /** The shutdown so far: were the phases still ahead to take no time, it would be `Possible`. */
  function Projected(main: Main, now: nat, c: Times): Times {
    match main
    case StoppingGrpc => c.(grpcEnd := now, httpEnd := now, httpsEnd := now)
    case StoppingHttp => c.(httpEnd := now, httpsEnd := now)
    case StoppingHttps => c.(httpsEnd := now)
    case _ => c
  }

  ghost predicate Timed(s: State) {
    match s.main
    case ClearingHealthy | ClearingReady => s.now == s.times.stop
    case Pausing => s.times.stop <= s.now <= s.times.stop + Pause(s.config)
    case StoppingGrpc | StoppingHttp | StoppingHttps | Returned => Possible(s.config, Projected(s.main, s.now, s.times))
    case _ => true
  }

  lemma TimedMain(s: State)
    requires Timed(s)
    ensures Timed(Next(s, StepMain))
  {
  }

  lemma TimedPass(s: State, seconds: nat)
    requires Timed(s)
    ensures Timed(Next(s, Pass(seconds)))
  {
  }

  lemma TimedNext(s: State, a: Action)
    requires Timed(s)
    ensures Timed(Next(s, a))
  {
    match a
    case StepMain => TimedMain(s);
    case Pass(seconds) => TimedPass(s, seconds);
    case _ => Untimed(s, a);
  }

  lemma Untimed(s: State, a: Action)
    requires !a.StepMain? && !a.Pass?
    ensures var t := Next(s, a); t.main == s.main && t.now == s.now && t.times == s.times && t.config == s.config
  {
  }

  lemma {:induction false} AlwaysTimed(config: Config, schedule: seq<Action>)
    ensures Timed(After(config, schedule))
  {
    var n := |schedule| - 1;
    if n >= 0 {
      AlwaysTimed(config, schedule[..n]);
      TimedNext(After(config, schedule[..n]), schedule[n]);
    }
  }

  /** Once main has returned, under any schedule: Graceful ended by the deadline exactly if the gRPC
      phase did, and together with that phase if not. */
  lemma BoundedByDeadline(config: Config, schedule: seq<Action>)
    requires After(config, schedule).main.Returned?
    ensures var c := After(config, schedule).times; var deadline := c.stop + config.timeout;
            && c.grpcEnd <= c.httpsEnd <= Max(deadline, c.grpcEnd)
            && (c.httpsEnd <= deadline <==> c.grpcEnd <= deadline)
            && (c.grpcEnd >= deadline ==> c.httpsEnd == c.grpcEnd)
            && c.grpcEnd >= c.stop + (if config.debug then 0 else 3)
            && (!config.servers.grpc ==> c.grpcEnd == c.stop + if config.debug then 0 else 3)
  {
    AlwaysTimed(config, schedule);
    SameConfig(config, schedule);
  }

  /** The stop channel is closed at time `stop`, and main has seen it or is about to. */
  predicate StoppedAt(s: State, stop: nat) {
    && (s.main.Awaiting? ==> s.signals.stopClosed && s.now == stop)
    && (!s.main.Awaiting? ==> !UntilStop(s.main) && s.times.stop == stop)
  }

  lemma StoppedAtNext(s: State, a: Action, stop: nat)
    requires StoppedAt(s, stop)
    ensures StoppedAt(Next(s, a), stop)
  {
  }

  lemma {:induction false} StoppedAtAlong(s: State, schedule: seq<Action>, stop: nat)
    requires StoppedAt(s, stop)
    ensures StoppedAt(Run(Next, s, schedule), stop)
  {
    var n := |schedule| - 1;
    if n >= 0 {
      StoppedAtAlong(s, schedule[..n], stop);
      StoppedAtNext(Run(Next, s, schedule[..n]), schedule[n], stop);
    }
  }

  /** Main returns after `rest`, having taken the times of `c`. */
  ghost predicate Takes(s: State, rest: seq<Action>, c: Times) {
    var t := Run(Next, s, rest);
    t.main.Returned? && t.times == c
  }

  ghost predicate CanTake(s: State, c: Times) {
    exists rest: seq<Action> :: Takes(s, rest, c)
  }

  /** Some time where main is now, and then its next step. */
  lemma Spend(s: State, rest: seq<Action>, t: State, seconds: nat) returns (rest': seq<Action>, t': State)
    requires t == Run(Next, s, rest) && Enabled(t, Pass(seconds)) && !t.main.Awaiting? && !t.main.Returned?
    requires t.main.Pausing? ==> t.now + seconds == t.times.stop + Pause(t.config)
    ensures t' == Run(Next, s, rest') == NextMain(t.(now := t.now + seconds)) && t'.exit.Alive?
  {
    rest', t' := Go(Next, s, rest, t, Pass(seconds));
    rest', t' := Go(Next, s, rest', t', StepMain);
  }

  lemma ToThePause(s: State) returns (rest: seq<Action>, t: State)
    requires s.exit.Alive? && s.main.Awaiting? && s.signals.stopClosed
    ensures t == Run(Next, s, rest) && t.exit.Alive? && t.main.Pausing? && t.config == s.config
    ensures t.now == s.now == t.times.stop
  {
    rest, t := Go(Next, s, [], s, StepMain);
    rest, t := Spend(s, rest, t, 0);
    rest, t := Spend(s, rest, t, 0);
  }

  /** From gRPC to the end, keeping to `c`. */
  lemma StopTheServers(s: State, rest: seq<Action>, t: State, c: Times) returns (rest': seq<Action>)
    requires t == Run(Next, s, rest) && t.exit.Alive? && t.main.StoppingGrpc?
    requires Possible(t.config, c) && t.times.stop == c.stop && t.now == c.stop + Pause(t.config)
    ensures Takes(s, rest', c)
  {
    var u;
    rest', u := Spend(s, rest, t, c.grpcEnd - t.now);
    rest', u := Spend(s, rest', u, c.httpEnd - c.grpcEnd);
    rest', u := Spend(s, rest', u, c.httpsEnd - c.httpEnd);
  }

  /** A shutdown that keeps to `c`. */
  lemma KeepTo(s: State, c: Times) returns (rest: seq<Action>)
    requires s.exit.Alive? && s.main.Awaiting? && s.signals.stopClosed
    requires c.stop == s.now && Possible(s.config, c)
    ensures Takes(s, rest, c)
  {
    var t;
    rest, t := ToThePause(s);
    rest, t := Spend(s, rest, t, Pause(s.config));
    rest := StopTheServers(s, rest, t, c);
  }

  /** The process lives, and main finds the stop channel closed. */
  ghost predicate Stopping(config: Config, s: State) {
    && (exists schedule: seq<Action> :: s == After(config, schedule))
    && s.exit.Alive? && s.main.Awaiting? && s.signals.stopClosed
  }

  lemma OnlyPossible(config: Config, s: State, rest: seq<Action>)
    requires Stopping(config, s)
    ensures var t := Run(Next, s, rest); t.main.Returned? ==> t.times.stop == s.now && Possible(config, t.times)
  {
    var schedule :| s == After(config, schedule);
    Append(Next, Start(config), schedule, rest);
    AlwaysTimed(config, schedule + rest);
    SameConfig(config, schedule + rest);
    StoppedAtAlong(s, rest, s.now);
  }

  /** The possible shutdowns exactly: over all schedules from the moment of the stop, these times
      and no others are taken. */
  lemma TimesExactly(config: Config, s: State, c: Times)
    requires Stopping(config, s)
    ensures CanTake(s, c) <==> c.stop == s.now && Possible(config, c)
  {
    if CanTake(s, c) {
      var rest :| Takes(s, rest, c);
      OnlyPossible(config, s, rest);
    }
    if c.stop == s.now && Possible(config, c) {
      var schedule :| s == After(config, schedule);
      SameConfig(config, schedule);
      var rest := KeepTo(s, c);
    }
  }

  /** However it is scheduled, the shutdown does not end after `bound`. */
  ghost predicate EndsBy(s: State, bound: nat) {
    forall c: Times :: CanTake(s, c) ==> c.httpsEnd <= bound
  }

  /** The timeout is sure to be met exactly if there is no gRPC server and it leaves room for the
      pause; and with a gRPC server nothing else bounds the shutdown either. */
  lemma TimeoutMetExactly(config: Config, s: State, bound: nat)
    requires Stopping(config, s)
    ensures EndsBy(s, s.now + config.timeout) <==> !config.servers.grpc && (config.debug || config.timeout >= 3)
    ensures config.servers.grpc ==> !EndsBy(s, bound)
  {
    var late := s.now + Pause(config) + if config.servers.grpc then Max(bound, s.now + config.timeout) + 1 else 0;
    var c := Times(s.now, late, late, late);
    TimesExactly(config, s, c);
    forall c: Times | CanTake(s, c) ensures Possible(config, c) && c.stop == s.now {
      TimesExactly(config, s, c);
    }
  }

  /** HTTP and HTTPS share the deadline: the secure connections get `b` seconds after the plain ones
      have had `a` exactly if the deadline has room for both. */
  lemma SharedDeadline(config: Config, s: State, grpcEnd: nat, a: nat, b: nat)
    requires Stopping(config, s) && config.servers.http && config.servers.https && b > 0
    requires if config.servers.grpc then grpcEnd >= s.now + Pause(config) else grpcEnd == s.now + Pause(config)
    ensures CanTake(s, Times(s.now, grpcEnd, grpcEnd + a, grpcEnd + a + b)) <==> grpcEnd + a + b <= s.now + config.timeout
  {
    TimesExactly(config, s, Times(s.now, grpcEnd, grpcEnd + a, grpcEnd + a + b));
  }

  // ---------------------------------------------------------------- Graceful in place

  lemma Returns(config: Config, schedule: seq<Action>)
    ensures var s := After(config, schedule);
            s.main.Returned? ==> !s.healthy && s.stopped == config.servers && Possible(config, s.times)
  {
    Safety(config, schedule);
    AlwaysTimed(config, schedule);
    SameConfig(config, schedule);
  }

  lemma MainStays(s: State, a: Action)
    requires !a.StepMain?
    ensures var t := Next(s, a);
            t == s.(signals := t.signals, exit := t.exit, healthy := t.healthy, ready := t.ready, now := t.now)
  {
  }

  /** The process: its goroutines, signals and clock around the main goroutine. */
  class Process {
    const config: Config
    var main: Main
    var signals: Signals
    var exit: Exit
    var healthy: bool
    var ready: bool
    var stopped: Servers
    var now: nat
    var times: Times
    ghost var history: seq<Action>

    function View(): State
      reads this
    {
      State(config, main, signals, exit, healthy, ready, stopped, now, times)
    }

    ghost predicate Valid()
      reads this
    {
      View() == After(config, history)
    }

    constructor (config: Config)
      ensures Valid() && this.config == config && main.RaisingHealthy? && history == []
    {
      this.config, main, signals, exit := config, RaisingHealthy, Signals(NotStarted, false, 0, 0, 0, 0), Alive;
      healthy, ready, stopped, now, times, history := false, false, NO_SERVERS, 0, Times(0, 0, 0, 0), [];
    }

    /** The fields have just taken step `a`. */
    ghost method Took(a: Action)
      requires View() == Next(After(config, history), a)
      modifies this`history
      ensures Valid() && history == old(history) + [a]
    {
      Snoc(Next, Start(config), history, a);
      history := history + [a];
    }

    /** Any number of signals, requests to the ready endpoints, steps of the signal goroutine and
        seconds, as long as main stays where it is. */
    method Others()
      requires Valid()
      modifies this`signals, this`exit, this`healthy, this`ready, this`now, this`history
      ensures Valid() && old(history) <= history
    {
      var steps: nat := *;
      while steps > 0
        invariant Valid() && old(history) <= history
      {
        var a: Action := *;
        if !a.StepMain? {
          MainStays(View(), a);
          var t := Next(View(), a);
          signals, exit, healthy, ready, now := t.signals, t.exit, t.healthy, t.ready, t.now;
          Took(a);
        }
        steps := steps - 1;
      }
    }

    /** `<-stopCh`: false if the process ends first, or the channel is not closed yet. */
    method Await() returns (stop: bool)
      requires Valid() && main.Awaiting?
      modifies this
      ensures Valid() && old(history) <= history
      ensures if stop then main.ClearingHealthy? else main.Awaiting? && (exit.Alive? ==> !signals.stopClosed)
    {
      Others();
      stop := exit.Alive? && signals.stopClosed;
      if stop {
        times := times.(stop := now);
        main := ClearingHealthy;
        Took(StepMain);
      }
    }

    /** The two atomic stores. */
    method ClearFlags()
      requires Valid() && main.ClearingHealthy?
      modifies this
      ensures Valid() && old(history) <= history && (exit.Alive? ==> main.Pausing?)
    {
      Others();
      if exit.Alive? {
        healthy := false;
        main := ClearingReady;
        Took(StepMain);
        Others();
        if exit.Alive? {
          ready := false;
          main := Pausing;
          Took(StepMain);
        }
      }
    }

    /** The sleep, unless the log level is debug: what is left of it passes at the end. */
    method Sleep()
      requires Valid() && main.Pausing?
      modifies this
      ensures Valid() && old(history) <= history && (exit.Alive? ==> main.StoppingGrpc?)
    {
      Others();
      AlwaysTimed(config, history);
      if exit.Alive? {
        if !config.debug {
          ghost var left := times.stop + GRACE - now;
          now := times.stop + GRACE;
          Took(Pass(left));
        }
        main := StoppingGrpc;
        Took(StepMain);
      }
    }

    /** GracefulStop, if there is a gRPC server, lasts for whatever goes on meanwhile. */
    method StopGrpc()
      requires Valid() && main.StoppingGrpc?
      modifies this
      ensures Valid() && old(history) <= history && (exit.Alive? ==> main.StoppingHttp?)
    {
      Others();
      if exit.Alive? {
        if config.servers.grpc {
          stopped := stopped.(grpc := true);
        }
        times := times.(grpcEnd := now);
        main := StoppingHttp;
        Safety(config, history);
        Took(StepMain);
      }
    }

    method StopHttp()
      requires Valid() && main.StoppingHttp?
      modifies this
      ensures Valid() && old(history) <= history && (exit.Alive? ==> main.StoppingHttps?)
    {
      Others();
      if exit.Alive? {
        if config.servers.http {
          stopped := stopped.(http := true);
        }
        times := times.(httpEnd := now);
        main := StoppingHttps;
        Safety(config, history);
        Took(StepMain);
      }
    }

    method StopHttps()
      requires Valid() && main.StoppingHttps?
      modifies this
      ensures Valid() && old(history) <= history && (exit.Alive? ==> main.Returned?)
    {
      Others();
      if exit.Alive? {
        if config.servers.https {
          stopped := stopped.(https := true);
        }
        times := times.(httpsEnd := now);
        main := Returned;
        Safety(config, history);
        Took(StepMain);
      }
    }

    /** The three servers, one after the other. */
    method StopServers()
      requires Valid() && main.StoppingGrpc?
      modifies this
      ensures Valid() && old(history) <= history && (exit.Alive? ==> main.Returned?)
    {
      StopGrpc();
      if exit.Alive? {
        StopHttp();
        if exit.Alive? {
          StopHttps();
        }
      }
    }

    /** Graceful, with everything else going on between its statements: unless the process ends
        first or the stop channel stays open, it returns with healthz failing, the servers stopped,
        and in a time that is possible. */
    method Graceful()
      requires Valid() && main.Awaiting?
      modifies this
      ensures Valid() && old(history) <= history
      ensures exit.Alive? && signals.stopClosed ==> main.Returned?
      ensures main.Returned? ==> !healthy && stopped == config.servers && Possible(config, times)
    {
      var stop := Await();
      if stop {
        ClearFlags();
        if exit.Alive? {
          Sleep();
          if exit.Alive? {
            StopServers();
          }
        }
      }
      Returns(config, history);
    }
  }
}
