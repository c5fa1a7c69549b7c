/** The backend fan-out of the echo handler: one goroutine a backend, a shared result slice, a
    WaitGroup, and a captured context that every goroutine reassigns (pkg/api/http/echo.go). */
module FanOut {
  import opened Runs

  // ---------------------------------------------------------------- contexts

  /** The tree of contexts: the request's own, wrapped with a client trace, or given a timeout by
      one of the goroutines. A trace also remembers the context it was made from (`base`). */
  datatype Ctx = Request | Traced(parent: Ctx, base: Ctx) | Deadline(parent: Ctx, owner: nat)

  /** The goroutines whose cancel reaches this context: the timeouts on its chain of parents. */
  function Owners(c: Ctx): set<nat> {
    match c
    case Request => {}
    case Traced(p, _) => Owners(p)
    case Deadline(p, i) => Owners(p) + {i}
  }

  /** Only trace wrappers around the request's own context. */
  predicate Shareable(c: Ctx) {
    match c
    case Request => true
    case Traced(p, b) => Shareable(p) && Shareable(b)
    case Deadline(_, _) => false
  }

  /** The context `up` parents above `c`, or the request's own. */
  function Ancestor(c: Ctx, up: nat): Ctx {
    if up == 0 || c.Request? then c else Ancestor(c.parent, up - 1)
  }

  predicate TimeoutOf(c: Ctx, i: nat) {
    c.Deadline? && c.owner == i
  }

  /** A goroutine's cancel reaches exactly the contexts with one of its timeouts among their ancestors,
      through any number of traces and other timeouts. */
  lemma {:induction false} OwnersExactly(c: Ctx, i: nat)
    ensures i in Owners(c) <==> exists up: nat :: TimeoutOf(Ancestor(c, up), i)
  {
    if c.Request? {
      assert forall up: nat :: Ancestor(c, up) == c;
    } else {
      OwnersExactly(c.parent, i);
      OwnersAbove(c, i);
      if i in Owners(c.parent) {
        var up: nat :| TimeoutOf(Ancestor(c.parent, up), i);
        AncestorAbove(c, up);
      } else if TimeoutOf(c, i) {
        Found(c, 0, i);
      } else {
        forall up: nat ensures !TimeoutOf(Ancestor(c, up), i) {
          if up > 0 {
            AncestorAbove(c, up - 1);
          }
        }
      }
    }
  }

  lemma Found(c: Ctx, up: nat, i: nat)
    requires TimeoutOf(Ancestor(c, up), i)
    ensures exists above: nat :: TimeoutOf(Ancestor(c, above), i)
  {
  }

  lemma AncestorAbove(c: Ctx, up: nat)
    requires !c.Request?
    ensures Ancestor(c, up + 1) == Ancestor(c.parent, up)
  {
  }

  lemma OwnersAbove(c: Ctx, i: nat)
    requires !c.Request?
    ensures i in Owners(c) <==> i in Owners(c.parent) || TimeoutOf(c, i)
  {
  }

  lemma ShareableOwnsNothing(c: Ctx)
    requires Shareable(c)
    ensures Owners(c) == {}
  {
  }

  // ---------------------------------------------------------------- backends

  datatype Body = Text(text: string) | Broken(error: string)

  /** What a backend does with the call, unless the call's context is cancelled first. */
  datatype Outcome = BadUrl | CallError(error: string) | Reply(status: nat, body: Body)

  datatype Backend = Backend(url: string, outcome: Outcome)

  function CallFailed(b: Backend, error: string): string {
    "backend " + b.url + " call failed " + error
  }

  function BadStatus(b: Backend, status: nat): string {
    "backend " + b.url + " response status code " + Decimal(status)
  }

  function Decimal(n: nat): string {
    if n < 10 then ["0123456789"[n]] else Decimal(n / 10) + ["0123456789"[n % 10]]
  }

  const CANCELLED := "context canceled"

  /** The slot of a call cancelled on its way, which net/http reports with method and address, or in
      the middle of reading its body. */
  function CallCancelled(b: Backend): string {
    CallFailed(b, "Post \"" + b.url + "\": " + CANCELLED)
  }

  function BodyCancelled(b: Backend): string {
    CallFailed(b, CANCELLED)
  }

  /** The slot of a backend whose call was left alone. */
  function Slot(b: Backend): string {
    match b.outcome
    case BadUrl => ""
    case CallError(e) => CallFailed(b, e)
    case Reply(status, body) =>
      if status >= 400 then BadStatus(b, status)
      else match body
           case Text(text) => text
           case Broken(e) => CallFailed(b, e)
  }

  function Slots(backends: seq<Backend>): seq<string> {
    seq(|backends|, i requires 0 <= i < |backends| => Slot(backends[i]))
  }

  // ---------------------------------------------------------------- the transition system

  /** The goroutine of one backend, step by step. */
  datatype Worker =
    | LoadParent
    | LoadBase(parent: Ctx)
    | Publish(traced: Ctx)
    | Reload
    | Calling(ctx: Ctx)
    | ReadingBody(ctx: Ctx)
    | Cancelling(ctx: Ctx)
    | Releasing
    | Exited

  /** `gone` says the request's own context has been cancelled (the client went away), `cancelled`
      whose timeout contexts have been, `response` what was sent once Wait had passed. */
  datatype State = State(
    backends: seq<Backend>, workers: seq<Worker>, shared: Ctx, result: seq<string>, wg: int,
    cancelled: set<nat>, gone: bool, response: seq<seq<string>>)

  function Start(backends: seq<Backend>): State {
    var n := |backends|;
    State(backends, seq(n, _ => LoadParent), Request, seq(n, _ => ""), n, {}, false, [])
  }

  datatype Action = Step(worker: nat) | ClientGone | Join

  predicate Enabled(s: State, a: Action) {
    match a
    case Step(i) => i < |s.workers| == |s.backends| == |s.result| && !s.workers[i].Exited?
    case ClientGone => !s.gone
    case Join => s.wg == 0 && s.response == []
  }

  predicate Cancelled(s: State, c: Ctx) {
    s.gone || exists i <- Owners(c) :: i in s.cancelled
  }

  function Move(s: State, i: nat, w: Worker): State
    requires i < |s.workers|
  {
    s.(workers := s.workers[i := w])
  }

  /** `result[i] = text` and return, which leaves the deferred cancel to do. */
  function Answer(s: State, i: nat, ctx: Ctx, text: string): State
    requires i < |s.workers| == |s.result|
  {
    Move(s.(result := s.result[i := text]), i, Cancelling(ctx))
  }

  function StepOf(s: State, i: nat): State
    requires Enabled(s, Step(i))
  {
    var b := s.backends[i];
    match s.workers[i]
    case LoadParent => Move(s, i, LoadBase(s.shared))
    case LoadBase(parent) => Move(s, i, Publish(Traced(parent, s.shared)))
    case Publish(traced) => Move(s.(shared := traced), i, Reload)
    case Reload =>
      var ctx := Deadline(s.shared, i);
      Move(s, i, if b.outcome.BadUrl? then Cancelling(ctx) else Calling(ctx))
    case Calling(ctx) =>
      if Cancelled(s, ctx) then Answer(s, i, ctx, CallCancelled(b))
      else (match b.outcome
            case BadUrl => Move(s, i, Cancelling(ctx))
            case CallError(e) => Answer(s, i, ctx, CallFailed(b, e))
            case Reply(status, _) =>
              if status >= 400 then Answer(s, i, ctx, BadStatus(b, status)) else Move(s, i, ReadingBody(ctx)))
    case ReadingBody(ctx) =>
      if Cancelled(s, ctx) then Answer(s, i, ctx, BodyCancelled(b))
      else (match b.outcome
            case Reply(_, Text(text)) => Answer(s, i, ctx, text)
            case Reply(_, Broken(e)) => Answer(s, i, ctx, CallFailed(b, e))
            case _ => Move(s, i, Cancelling(ctx)))
    case Cancelling(_) => Move(s.(cancelled := s.cancelled + {i}), i, Releasing)
    case Releasing => Move(s.(wg := s.wg - 1), i, Exited)
    case Exited => s
  }

  function Next(s: State, a: Action): State {
    if !Enabled(s, a) then s else
    match a
    case Step(i) => StepOf(s, i)
    case ClientGone => s.(gone := true)
    case Join => s.(response := [s.result])
  }

  // ---------------------------------------------------------------- the invariant

  function Count(p: Worker -> bool, workers: seq<Worker>): nat {
    if |workers| == 0 then 0
    else Count(p, workers[..|workers| - 1]) + if p(workers[|workers| - 1]) then 1 else 0
  }

  predicate Running(w: Worker) {
    !w.Exited?
  }

  /** A timeout of the goroutine's own around trace wrappers. */
  predicate Own(c: Ctx, i: nat) {
    c.Deadline? && c.owner == i && Shareable(c.parent)
  }

  /** The slot is as the backend alone determines it, unless the client went away. */
  predicate Settled(s: State, i: nat)
    requires i < |s.backends| == |s.result|
  {
    || s.result[i] == Slot(s.backends[i])
    || (s.gone && (s.result[i] == CallCancelled(s.backends[i]) || s.result[i] == BodyCancelled(s.backends[i])))
  }

  predicate WorkerOk(s: State, i: nat)
    requires i < |s.workers| == |s.backends| == |s.result|
  {
    && (i in s.cancelled <==> s.workers[i].Releasing? || s.workers[i].Exited?)
    && match s.workers[i]
       case LoadParent => s.result[i] == ""
       case LoadBase(p) => s.result[i] == "" && Shareable(p)
       case Publish(c) => s.result[i] == "" && Shareable(c)
       case Reload => s.result[i] == ""
       case Calling(c) => Own(c, i) && !s.backends[i].outcome.BadUrl?
       case ReadingBody(c) => Own(c, i) && s.backends[i].outcome.Reply? && s.backends[i].outcome.status < 400
       case Cancelling(c) => Own(c, i) && Settled(s, i)
       case Releasing => Settled(s, i)
       case Exited => Settled(s, i)
  }

  ghost predicate Inv(s: State) {
    && |s.workers| == |s.backends| == |s.result|
    && Shareable(s.shared)
    && s.wg == Count(Running, s.workers)
    && (forall i :: 0 <= i < |s.workers| ==> WorkerOk(s, i))
    && (s.response == [] || (s.wg == 0 && s.response == [s.result]))
  }

  lemma {:induction false} CountUpdate(p: Worker -> bool, workers: seq<Worker>, i: nat, w: Worker)
    requires i < |workers|
    ensures Count(p, workers[i := w]) + (if p(workers[i]) then 1 else 0)
            == Count(p, workers) + (if p(w) then 1 else 0)
  {
    var n := |workers| - 1;
    if i < n {
      assert workers[i := w][..n] == workers[..n][i := w];
      CountUpdate(p, workers[..n], i, w);
    } else {
      assert workers[i := w][..n] == workers[..n];
    }
  }

  lemma {:induction false} CountBounds(p: Worker -> bool, workers: seq<Worker>)
    ensures Count(p, workers) <= |workers|
    ensures Count(p, workers) == 0 <==> forall i :: 0 <= i < |workers| ==> !p(workers[i])
    ensures Count(p, workers) == |workers| <==> forall i :: 0 <= i < |workers| ==> p(workers[i])
  {
    if |workers| > 0 {
      CountBounds(p, workers[..|workers| - 1]);
    }
  }

  lemma CancelledOwn(s: State, c: Ctx, i: nat)
    requires Own(c, i)
    ensures Owners(c) == {i}
    ensures Cancelled(s, c) <==> s.gone || i in s.cancelled
  {
    ShareableOwnsNothing(c.parent);
  }

  lemma StepKeepsWorkers(s: State, i: nat)
    requires Inv(s) && Enabled(s, Step(i))
    ensures var t := StepOf(s, i);
            && |t.workers| == |t.backends| == |t.result| && Shareable(t.shared)
            && forall j :: 0 <= j < |t.workers| ==> WorkerOk(t, j)
  {
    var t := StepOf(s, i);
    assert WorkerOk(s, i);
    OwnStep(s, i);
    forall j | 0 <= j < |t.workers| && j != i ensures WorkerOk(t, j) {
      assert WorkerOk(s, j);
      OthersKept(s, i, j);
    }
  }

  lemma OwnStep(s: State, i: nat)
    requires Enabled(s, Step(i)) && WorkerOk(s, i) && Shareable(s.shared)
    ensures var t := StepOf(s, i);
            |t.workers| == |t.backends| == |t.result| == |s.workers| && Shareable(t.shared) && WorkerOk(t, i)
  {
    if s.workers[i].Calling? || s.workers[i].ReadingBody? {
      CancelledOwn(s, s.workers[i].ctx, i);
    }
  }

  lemma OthersKept(s: State, i: nat, j: nat)
    requires Enabled(s, Step(i)) && j < |s.workers| && j != i
    ensures var t := StepOf(s, i);
            && |t.workers| == |t.backends| == |t.result| == |s.workers|
            && t.workers[j] == s.workers[j] && t.result[j] == s.result[j] && t.backends == s.backends && t.gone == s.gone
            && (j in t.cancelled <==> j in s.cancelled)
  {
  }

  lemma StepKeepsCount(s: State, i: nat)
    requires Inv(s) && Enabled(s, Step(i))
    ensures StepOf(s, i).wg == Count(Running, StepOf(s, i).workers)
    ensures s.response == [] && StepOf(s, i).response == []
  {
    OnlyOwnWorker(s, i);
    CountUpdate(Running, s.workers, i, StepOf(s, i).workers[i]);
    CountBounds(Running, s.workers);
  }

  lemma OnlyOwnWorker(s: State, i: nat)
    requires Enabled(s, Step(i))
    ensures i < |StepOf(s, i).workers| && StepOf(s, i).workers == s.workers[i := StepOf(s, i).workers[i]]
  {
  }

  lemma InvNext(s: State, a: Action)
    requires Inv(s)
    ensures Inv(Next(s, a))
  {
    if Enabled(s, a) {
      if a.Step? {
        StepKeepsWorkers(s, a.worker);
        StepKeepsCount(s, a.worker);
      } else {
        forall j | 0 <= j < |s.workers| ensures WorkerOk(Next(s, a), j) {
          assert WorkerOk(s, j);
        }
      }
    }
  }

  function After(backends: seq<Backend>, schedule: seq<Action>): State {
    Run(Next, Start(backends), schedule)
  }

  lemma {:induction false} Safety(backends: seq<Backend>, schedule: seq<Action>)
    ensures Inv(After(backends, schedule)) && After(backends, schedule).backends == backends
  {
    var n := |schedule| - 1;
    if n >= 0 {
      Safety(backends, schedule[..n]);
      InvNext(After(backends, schedule[..n]), schedule[n]);
      BackendsKept(After(backends, schedule[..n]), schedule[n]);
    } else {
      CountBounds(Running, Start(backends).workers);
    }
  }

  lemma BackendsKept(s: State, a: Action)
    ensures Next(s, a).backends == s.backends
  {
  }

  // ---------------------------------------------------------------- what the handler answers

  /** Whatever the interleaving, the response is the list of the backends' own outcomes in the
      order of the backends; only a client that went away can find its own cancellation in it. */
  lemma ScheduleIndependence(backends: seq<Backend>, schedule: seq<Action>)
    requires After(backends, schedule).response != []
    ensures var s := After(backends, schedule);
            && |s.response| == 1 && |s.response[0]| == |backends|
            && (!s.gone ==> s.response[0] == Slots(backends))
            && forall i :: 0 <= i < |backends| ==>
                 s.response[0][i] in {Slot(backends[i]), CallCancelled(backends[i]), BodyCancelled(backends[i])}
  {
    Safety(backends, schedule);
    AllSettled(After(backends, schedule));
  }

  // ---------------------------------------------------------------- the texts

  /** The number that a string of digits stands for. */
  function Number(digits: string): int {
    if digits == "" then 0 else 10 * Number(digits[..|digits| - 1]) + (digits[|digits| - 1] as int - '0' as int)
  }

  /** Decimal is the decimal notation: digits only, no leading zero, and the number it stands for. */
  lemma {:induction false} DecimalExactly(n: nat)
    ensures Number(Decimal(n)) == n
    ensures forall i :: 0 <= i < |Decimal(n)| ==> '0' <= Decimal(n)[i] <= '9'
    ensures Decimal(n) != "" && (n > 0 ==> Decimal(n)[0] != '0')
  {
    if n >= 10 {
      DecimalExactly(n / 10);
      assert Decimal(n)[..|Decimal(n)| - 1] == Decimal(n / 10);
    } else {
      assert Decimal(n)[..0] == "";
    }
  }

  /** Whether the client had gone is a matter of the schedule. */
  lemma {:induction false} GoneExactly(backends: seq<Backend>, schedule: seq<Action>)
    ensures After(backends, schedule).gone <==> ClientGone in schedule
  {
    var n := |schedule| - 1;
    if n >= 0 {
      GoneExactly(backends, schedule[..n]);
      assert schedule == schedule[..n] + [schedule[n]];
      GoneNext(After(backends, schedule[..n]), schedule[n]);
    }
  }

  lemma GoneNext(s: State, a: Action)
    ensures Next(s, a).gone <==> s.gone || a == ClientGone
  {
  }

  /** What the goroutine of backend `b` puts into its slot when its call returns, and when it has read
      the body, with the client gone or not; the slot stays as it is where that is nothing. */
  function Told(b: Backend, w: Worker, gone: bool, slot: string): string {
    match w
    case Calling(_) =>
      if gone then "backend " + b.url + " call failed Post \"" + b.url + "\": context canceled"
      else (match b.outcome
            case BadUrl => slot
            case CallError(e) => "backend " + b.url + " call failed " + e
            case Reply(status, _) =>
              if status >= 400 then "backend " + b.url + " response status code " + Decimal(status) else slot)
    case ReadingBody(_) =>
      if gone then "backend " + b.url + " call failed context canceled"
      else (match b.outcome
            case Reply(_, Text(text)) => text
            case Reply(_, Broken(e)) => "backend " + b.url + " call failed " + e
            case _ => slot)
    case _ => slot
  }

  /** The slot of backend `i` as the goroutine's own steps in the schedule fill it. */
  function SlotIn(backends: seq<Backend>, schedule: seq<Action>, i: nat): string
    requires i < |backends|
  {
    var n := |schedule| - 1;
    if n < 0 then ""
    else if schedule[n] != Step(i) || i >= |After(backends, schedule[..n]).workers| then SlotIn(backends, schedule[..n], i)
    else Told(backends[i], After(backends, schedule[..n]).workers[i], ClientGone in schedule[..n],
              SlotIn(backends, schedule[..n], i))
  }

  lemma ToldBySteps(backends: seq<Backend>, schedule: seq<Action>, i: nat)
    requires i < |backends|
    ensures var s := After(backends, schedule);
            && |s.workers| == |s.result| == |backends|
            && |Next(s, Step(i)).result| == |backends|
            && Next(s, Step(i)).result[i] == Told(backends[i], s.workers[i], s.gone, s.result[i])
  {
    Safety(backends, schedule);
    var s := After(backends, schedule);
    assert WorkerOk(s, i);
    if s.workers[i].Calling? || s.workers[i].ReadingBody? {
      CancelledOwn(s, s.workers[i].ctx, i);
    }
    Texts(backends[i]);
  }

  lemma Texts(b: Backend)
    ensures CallCancelled(b) == "backend " + b.url + " call failed Post \"" + b.url + "\": context canceled"
    ensures BodyCancelled(b) == "backend " + b.url + " call failed context canceled"
  {
    var rest := "Post \"" + b.url + "\": " + CANCELLED;
    assert rest == "Post \"" + b.url + "\": context canceled";
    assert "backend " + b.url + " call failed " + rest == "backend " + b.url + " call failed Post \"" + b.url + "\": context canceled";
  }

  lemma OtherSlotsKept(s: State, a: Action, i: nat)
    requires i < |s.result| == |s.workers| && a != Step(i)
    ensures i < |Next(s, a).result| && Next(s, a).result[i] == s.result[i]
  {
  }

  /** Every slot, in any schedule, answered or not and with the client gone at any moment of it, is
      what the goroutine's own steps have put into it. */
  lemma {:induction false} SlotsExactly(backends: seq<Backend>, schedule: seq<Action>, i: nat)
    requires i < |backends|
    ensures var s := After(backends, schedule);
            |s.result| == |backends| && s.result[i] == SlotIn(backends, schedule, i)
  {
    var n := |schedule| - 1;
    Safety(backends, schedule);
    if n >= 0 {
      SlotsExactly(backends, schedule[..n], i);
      Safety(backends, schedule[..n]);
      GoneExactly(backends, schedule[..n]);
      if schedule[n] == Step(i) {
        ToldBySteps(backends, schedule[..n], i);
      } else {
        OtherSlotsKept(After(backends, schedule[..n]), schedule[n], i);
      }
    }
  }

  /** The answer of a client that stayed, in full. */
  lemma AnswersExactly(backends: seq<Backend>, schedule: seq<Action>, i: nat)
    requires After(backends, schedule).response != [] && ClientGone !in schedule && i < |backends|
    ensures var b := backends[i]; var response := After(backends, schedule).response;
            && |response| == 1 && |response[0]| == |backends|
            && response[0][i] ==
               match b.outcome
               case BadUrl => ""
               case CallError(e) => "backend " + b.url + " call failed " + e
               case Reply(status, body) =>
                 if status >= 400 then "backend " + b.url + " response status code " + Decimal(status)
                 else match body
                      case Text(text) => text
                      case Broken(e) => "backend " + b.url + " call failed " + e
  {
    ScheduleIndependence(backends, schedule);
    GoneExactly(backends, schedule);
  }

  // ---------------------------------------------------------------- waiting, and isolation

  lemma AllSettled(s: State)
    requires Inv(s) && s.wg == 0
    ensures forall i :: 0 <= i < |s.result| ==>
              s.result[i] == Slot(s.backends[i])
              || (s.gone && s.result[i] in {CallCancelled(s.backends[i]), BodyCancelled(s.backends[i])})
    ensures !s.gone ==> s.result == Slots(s.backends)
  {
    CountBounds(Running, s.workers);
    forall i | 0 <= i < |s.result|
      ensures s.result[i] == Slot(s.backends[i])
              || (s.gone && s.result[i] in {CallCancelled(s.backends[i]), BodyCancelled(s.backends[i])})
    {
      assert WorkerOk(s, i);
    }
  }

  /** Wait passes exactly when every goroutine has returned, and by then every timeout context
      has been cancelled by the goroutine that made it. */
  lemma WaitExactly(backends: seq<Backend>, schedule: seq<Action>)
    ensures var s := After(backends, schedule);
            && |s.workers| == |backends|
            && (s.wg == 0 <==> forall i :: 0 <= i < |backends| ==> s.workers[i].Exited?)
            && (s.wg == 0 ==> forall i :: 0 <= i < |backends| ==> i in s.cancelled)
            && 0 <= s.wg <= |backends|
  {
    Safety(backends, schedule);
    var s := After(backends, schedule);
    CountBounds(Running, s.workers);
    if s.wg == 0 {
      forall i | 0 <= i < |backends| ensures i in s.cancelled {
        assert WorkerOk(s, i);
      }
    }
  }

  predicate HasCtx(w: Worker) {
    w.Calling? || w.ReadingBody? || w.Cancelling?
  }

  /** The shared context never carries a timeout, a goroutine's context can be cancelled by itself
      and by the client only, and no step of another goroutine reaches its context or its slot. */
  lemma Isolation(backends: seq<Backend>, schedule: seq<Action>, i: nat, j: nat)
    requires i < |backends| && i != j
    ensures var s := After(backends, schedule); var t := Next(s, Step(j));
            && |s.workers| == |s.result| == |t.workers| == |t.result| == |backends|
            && Shareable(s.shared)
            && t.workers[i] == s.workers[i] && t.result[i] == s.result[i]
            && (HasCtx(s.workers[i]) ==>
                  && Owners(s.workers[i].ctx) == {i}
                  && Cancelled(t, t.workers[i].ctx) == Cancelled(s, s.workers[i].ctx) == s.gone)
  {
    Safety(backends, schedule);
    var s := After(backends, schedule);
    assert WorkerOk(s, i);
    if Enabled(s, Step(j)) {
      OthersKept(s, j, i);
    }
    if HasCtx(s.workers[i]) {
      CancelledOwn(s, s.workers[i].ctx, i);
      CancelledOwn(Next(s, Step(j)), s.workers[i].ctx, i);
    }
  }

  // ---------------------------------------------------------------- which contexts there are

  /** The shared context as goroutine `i` found it, step by step of its own. */
  function Seen(backends: seq<Backend>, schedule: seq<Action>, i: nat): seq<Ctx> {
    var n := |schedule| - 1;
    if n < 0 then []
    else if schedule[n] == Step(i) && Enabled(After(backends, schedule[..n]), Step(i))
    then Seen(backends, schedule[..n], i) + [After(backends, schedule[..n]).shared]
    else Seen(backends, schedule[..n], i)
  }

  /** Where a goroutine is and which contexts it has, by what it has found: the trace that it writes
      back goes around what it found first and is made from what it found second, and the timeout of
      its call goes around what it found after that, at its fourth step. */
  predicate Follows(w: Worker, seen: seq<Ctx>, i: nat) {
    match w
    case LoadParent => seen == []
    case LoadBase(p) => seen == [p]
    case Publish(c) => |seen| == 2 && c == Traced(seen[0], seen[1])
    case Reload => |seen| == 3
    case Calling(c) => |seen| == 4 && c == Deadline(seen[3], i)
    case ReadingBody(c) => |seen| == 5 && c == Deadline(seen[3], i)
    case Cancelling(c) => 4 <= |seen| <= 6 && c == Deadline(seen[3], i)
    case Releasing => |seen| >= 5
    case Exited => |seen| >= 6
  }

  lemma FollowsNext(s: State, i: nat, seen: seq<Ctx>)
    requires Enabled(s, Step(i)) && Follows(s.workers[i], seen, i)
    ensures i < |StepOf(s, i).workers| && Follows(StepOf(s, i).workers[i], seen + [s.shared], i)
  {
  }

  lemma {:induction false} ContextsExactly(backends: seq<Backend>, schedule: seq<Action>, i: nat)
    requires i < |backends|
    ensures var s := After(backends, schedule);
            |s.workers| == |backends| && Follows(s.workers[i], Seen(backends, schedule, i), i)
  {
    Safety(backends, schedule);
    var n := |schedule| - 1;
    if n >= 0 {
      var s := After(backends, schedule[..n]);
      ContextsExactly(backends, schedule[..n], i);
      Safety(backends, schedule[..n]);
      if schedule[n] == Step(i) {
        if Enabled(s, Step(i)) {
          FollowsNext(s, i, Seen(backends, schedule[..n], i));
        }
      } else if schedule[n].Step? && Enabled(s, schedule[n]) {
        OthersKept(s, schedule[n].worker, i);
      }
    }
  }

  /** The trace last written back by any goroutine, at its third step. */
  function LastWritten(backends: seq<Backend>, schedule: seq<Action>): Ctx {
    var n := |schedule| - 1;
    if n < 0 then Request
    else if schedule[n].Step? && Enabled(After(backends, schedule[..n]), schedule[n])
            && |Seen(backends, schedule[..n], schedule[n].worker)| == 2
    then
      var seen := Seen(backends, schedule[..n], schedule[n].worker);
      Traced(seen[0], seen[1])
    else LastWritten(backends, schedule[..n])
  }

  lemma {:induction false} SharedExactly(backends: seq<Backend>, schedule: seq<Action>)
    ensures After(backends, schedule).shared == LastWritten(backends, schedule)
  {
    var n := |schedule| - 1;
    if n >= 0 {
      SharedExactly(backends, schedule[..n]);
      var s := After(backends, schedule[..n]);
      if schedule[n].Step? && Enabled(s, schedule[n]) {
        Safety(backends, schedule[..n]);
        ContextsExactly(backends, schedule[..n], schedule[n].worker);
        StepPublishes(s, schedule[n].worker);
      }
    }
  }

  // ---------------------------------------------------------------- the race on the context

  function Depth(c: Ctx): nat {
    if c.Request? then 0 else 1 + Depth(c.parent)
  }

  predicate Published(w: Worker) {
    !w.LoadParent? && !w.LoadBase? && !w.Publish?
  }

  /** A context in hand is still the shared one, or has fewer wrappers than there were publications. */
  ghost predicate Behind(c: Ctx, s: State) {
    c == s.shared || Depth(c) < Count(Published, s.workers)
  }

  ghost predicate InHand(w: Worker, s: State) {
    && (w.LoadBase? ==> Behind(w.parent, s))
    && (w.Publish? ==> w.traced.Traced? && Behind(w.traced.parent, s))
  }

  /** The shared context has at most one trace wrapper for each publication so far. */
  ghost predicate Thin(s: State) {
    var n := Count(Published, s.workers);
    && Depth(s.shared) <= n && (n > 0 ==> Depth(s.shared) > 0)
    && forall i :: 0 <= i < |s.workers| ==> InHand(s.workers[i], s)
  }

  /** A publication of a context whose parent is no longer the shared one: another goroutine has
      published since this one loaded it. */
  predicate Late(s: State, a: Action) {
    && a.Step? && Enabled(s, a) && s.workers[a.worker].Publish?
    && s.workers[a.worker].traced.Traced? && s.workers[a.worker].traced.parent != s.shared
  }

  /** What a step does to the shared context and to the number of publications. */
  lemma StepPublishes(s: State, i: nat)
    requires Enabled(s, Step(i))
    ensures var t := StepOf(s, i); var n := Count(Published, s.workers);
            if s.workers[i].Publish?
            then t.shared == s.workers[i].traced && t.workers == s.workers[i := Reload] && Count(Published, t.workers) == n + 1
            else t.shared == s.shared && Count(Published, t.workers) == n
  {
    OnlyOwnWorker(s, i);
    CountUpdate(Published, s.workers, i, StepOf(s, i).workers[i]);
  }

  lemma OwnInHand(s: State, i: nat)
    requires Thin(s) && Enabled(s, Step(i))
    ensures InHand(StepOf(s, i).workers[i], StepOf(s, i))
  {
    assert InHand(s.workers[i], s);
    StepPublishes(s, i);
  }

  lemma ThinNext(s: State, a: Action)
    requires Thin(s)
    ensures Thin(Next(s, a))
  {
    var t := Next(s, a);
    if a.Step? && Enabled(s, a) {
      StepPublishes(s, a.worker);
      OnlyOwnWorker(s, a.worker);
      OwnInHand(s, a.worker);
      assert InHand(s.workers[a.worker], s);
      forall j | 0 <= j < |t.workers| && j != a.worker ensures InHand(t.workers[j], t) {
        assert InHand(s.workers[j], s);
      }
    } else {
      forall j | 0 <= j < |t.workers| ensures InHand(t.workers[j], t) {
        assert InHand(s.workers[j], s);
      }
    }
  }

  /** A publication adds a wrapper unless it is late, and what a late one loses is never made up. */
  lemma CompleteNext(s: State, a: Action)
    requires Thin(s)
    ensures Depth(Next(s, a).shared) == Count(Published, Next(s, a).workers)
            <==> Depth(s.shared) == Count(Published, s.workers) && !Late(s, a)
  {
    if a.Step? && Enabled(s, a) {
      StepPublishes(s, a.worker);
      assert InHand(s.workers[a.worker], s);
    }
  }

  ghost predicate LateAt(backends: seq<Backend>, schedule: seq<Action>, t: nat)
    requires t < |schedule|
  {
    Late(After(backends, schedule[..t]), schedule[t])
  }

  lemma {:induction false} ThinAlong(backends: seq<Backend>, schedule: seq<Action>)
    ensures var s := After(backends, schedule);
            Thin(s) && (Depth(s.shared) == Count(Published, s.workers)
                        <==> forall t: nat :: t < |schedule| ==> !LateAt(backends, schedule, t))
  {
    var n := |schedule| - 1;
    if n >= 0 {
      var before := schedule[..n];
      ThinAlong(backends, before);
      ThinNext(After(backends, before), schedule[n]);
      CompleteNext(After(backends, before), schedule[n]);
      assert LateAt(backends, schedule, n) <==> Late(After(backends, before), schedule[n]);
      forall t: nat | t < n ensures LateAt(backends, schedule, t) <==> LateAt(backends, before, t) {
        assert before[..t] == schedule[..t];
      }
    } else {
      CountBounds(Published, Start(backends).workers);
    }
  }

  /** The unsynchronised reassignment of the captured context leaves it, at the answer, with at least
      one trace wrapper and at most one for each backend; and it has one for each backend exactly if
      every goroutine found the context as it had loaded it when it wrote it back. */
  lemma Wrappers(backends: seq<Backend>, schedule: seq<Action>)
    requires After(backends, schedule).response != []
    ensures var depth := Depth(After(backends, schedule).shared);
            && depth <= |backends| && (|backends| > 0 ==> depth >= 1)
            && (depth == |backends| <==> forall t: nat :: t < |schedule| ==> !LateAt(backends, schedule, t))
  {
    var s := After(backends, schedule);
    ThinAlong(backends, schedule);
    assert s.wg == Count(Running, s.workers) && |s.workers| == |backends| && s.wg == 0 by { Safety(backends, schedule); }
    CountBounds(Running, s.workers);
    CountBounds(Published, s.workers);
  }

  const RACE := [Step(0), Step(1), Step(0), Step(1), Step(0), Step(1)]

  /** Two goroutines in step with each other, with the context as it was or as both make it. */
  function Abreast(b: Backend, w: Worker, shared: Ctx): State {
    State([b, b], [w, w], shared, ["", ""], 2, {}, false, [])
  }

  lemma RaceRound(b: Backend, w: Worker, shared: Ctx, w': Worker, shared': Ctx)
    requires (w, shared, w', shared') in {
      (LoadParent, Request, LoadBase(Request), Request),
      (LoadBase(Request), Request, Publish(Traced(Request, Request)), Request),
      (Publish(Traced(Request, Request)), Request, Reload, Traced(Request, Request))}
    ensures Next(Next(Abreast(b, w, shared), Step(0)), Step(1)) == Abreast(b, w', shared')
  {
    assert [w, w][0 := w'] == [w', w] && [w', w][1 := w'] == [w', w'];
  }

  lemma TwoSteps(backends: seq<Backend>, schedule: seq<Action>, k: nat)
    requires k + 1 < |schedule|
    ensures After(backends, schedule[..k + 2]) == Next(Next(After(backends, schedule[..k]), schedule[k]), schedule[k + 1])
  {
    Snoc(Next, Start(backends), schedule[..k], schedule[k]);
    Snoc(Next, Start(backends), schedule[..k + 1], schedule[k + 1]);
    assert schedule[..k + 1] == schedule[..k] + [schedule[k]];
    assert schedule[..k + 2] == schedule[..k + 1] + [schedule[k + 1]];
  }

  /** Wrappers do get lost: two goroutines that read the context before either writes it back leave
      one wrapper between them. */
  lemma WrapperLost(b: Backend)
    ensures var s := After([b, b], RACE);
            |s.workers| == 2 && Published(s.workers[0]) && Published(s.workers[1]) && Depth(s.shared) == 1
  {
    assert RACE[..0] == [] && RACE[..6] == RACE;
    assert Start([b, b]) == Abreast(b, LoadParent, Request);
    TwoSteps([b, b], RACE, 0);
    RaceRound(b, LoadParent, Request, LoadBase(Request), Request);
    TwoSteps([b, b], RACE, 2);
    RaceRound(b, LoadBase(Request), Request, Publish(Traced(Request, Request)), Request);
    TwoSteps([b, b], RACE, 4);
    RaceRound(b, Publish(Traced(Request, Request)), Request, Reload, Traced(Request, Request));
  }

  // ---------------------------------------------------------------- termination

  function Rank(w: Worker): nat {
    match w
    case LoadParent => 8
    case LoadBase(_) => 7
    case Publish(_) => 6
    case Reload => 5
    case Calling(_) => 4
    case ReadingBody(_) => 3
    case Cancelling(_) => 2
    case Releasing => 1
    case Exited => 0
  }

  function Ranks(workers: seq<Worker>): nat {
    if |workers| == 0 then 0 else Ranks(workers[..|workers| - 1]) + Rank(workers[|workers| - 1])
  }

  function Measure(s: State): nat {
    Ranks(s.workers) + (if s.gone then 0 else 1) + (if s.response == [] then 1 else 0)
  }

  lemma {:induction false} RanksUpdate(workers: seq<Worker>, i: nat, w: Worker)
    requires i < |workers|
    ensures Ranks(workers[i := w]) + Rank(workers[i]) == Ranks(workers) + Rank(w)
  {
    var n := |workers| - 1;
    if i < n {
      assert workers[i := w][..n] == workers[..n][i := w];
      RanksUpdate(workers[..n], i, w);
    } else {
      assert workers[i := w][..n] == workers[..n];
    }
  }

  lemma {:induction false} RanksAtStart(n: nat)
    ensures Ranks(seq(n, _ => LoadParent)) == 8 * n
  {
    if n > 0 {
      assert seq(n, _ => LoadParent)[..n - 1] == seq(n - 1, _ => LoadParent);
      RanksAtStart(n - 1);
    }
  }

  lemma StepDecreases(s: State, a: Action)
    requires Enabled(s, a)
    ensures Measure(Next(s, a)) < Measure(s)
  {
    if a.Step? {
      var w := StepOf(s, a.worker).workers[a.worker];
      RanksUpdate(s.workers, a.worker, w);
      assert StepOf(s, a.worker).workers == s.workers[a.worker := w];
    }
  }

  /** How many actions of a schedule take effect. */
  function Effective(s: State, schedule: seq<Action>): nat {
    if |schedule| == 0 then 0
    else
      var n := |schedule| - 1;
      Effective(s, schedule[..n]) + if Enabled(Run(Next, s, schedule[..n]), schedule[n]) then 1 else 0
  }

  lemma {:induction false} EffectiveBound(s: State, schedule: seq<Action>)
    ensures Effective(s, schedule) + Measure(Run(Next, s, schedule)) <= Measure(s)
  {
    if |schedule| > 0 {
      var n := |schedule| - 1;
      EffectiveBound(s, schedule[..n]);
      if Enabled(Run(Next, s, schedule[..n]), schedule[n]) {
        StepDecreases(Run(Next, s, schedule[..n]), schedule[n]);
      }
    }
  }

  /** Every run ends after at most eight steps a backend (and the client's leaving and the join),
      and cannot get stuck before the handler has its answer. */
  lemma Terminates(backends: seq<Backend>, schedule: seq<Action>)
    ensures Effective(Start(backends), schedule) <= 8 * |backends| + 2
    ensures var s := After(backends, schedule);
            s.response == [] ==> Enabled(s, Join) || exists i :: Enabled(s, Step(i))
  {
    EffectiveBound(Start(backends), schedule);
    RanksAtStart(|backends|);
    Safety(backends, schedule);
    var s := After(backends, schedule);
    CountBounds(Running, s.workers);
    if s.wg != 0 {
      var i :| 0 <= i < |s.workers| && !s.workers[i].Exited?;
      assert Enabled(s, Step(i));
    }
  }

  // ---------------------------------------------------------------- the handler in place

  /** The variables the goroutines of one request share, updated in place. */
  class Handler {
    const backends: seq<Backend>
    const workers: array<Worker>
    const result: array<string>
    var shared: Ctx
    var wg: int
    var cancelled: set<nat>
    var gone: bool
    ghost var history: seq<Action>

    ghost function View(): State
      reads this, workers, result
    {
      State(backends, workers[..], shared, result[..], wg, cancelled, gone, [])
    }

    ghost predicate Valid()
      reads this, workers, result
    {
      View() == After(backends, history)
    }

    constructor (backends: seq<Backend>)
      ensures Valid() && this.backends == backends && !gone && fresh(workers) && fresh(result)
    {
      var n := |backends|;
      this.backends, workers, result := backends, new Worker[n](_ => LoadParent), new string[n](_ => "");
      shared, wg, cancelled, gone, history := Request, n, {}, false, [];
      new;
      assert workers[..] == seq(n, _ => LoadParent) && result[..] == seq(n, _ => "");
    }

    /** One step of the goroutine of backend `i`. */
    method Step(i: nat)
      requires i < workers.Length == result.Length == |backends| && !workers[i].Exited?
      modifies this`shared, this`wg, this`cancelled, workers, result
      ensures View() == Next(old(View()), Action.Step(i))
    {
      var b := backends[i];
      match workers[i] {
        case LoadParent =>
          workers[i] := LoadBase(shared);
        case LoadBase(parent) =>
          workers[i] := Publish(Traced(parent, shared));
        case Publish(traced) =>
          shared := traced;
          workers[i] := Reload;
        case Reload =>
          var ctx := Deadline(shared, i);
          workers[i] := if b.outcome.BadUrl? then Cancelling(ctx) else Calling(ctx);
        case Calling(ctx) =>
          if gone || exists j <- Owners(ctx) :: j in cancelled {
            result[i] := CallCancelled(b);
            workers[i] := Cancelling(ctx);
          } else if b.outcome.CallError? {
            result[i] := CallFailed(b, b.outcome.error);
            workers[i] := Cancelling(ctx);
          } else if b.outcome.Reply? && b.outcome.status >= 400 {
            result[i] := BadStatus(b, b.outcome.status);
            workers[i] := Cancelling(ctx);
          } else {
            workers[i] := if b.outcome.Reply? then ReadingBody(ctx) else Cancelling(ctx);
          }
        case ReadingBody(ctx) =>
          if gone || exists j <- Owners(ctx) :: j in cancelled {
            result[i] := BodyCancelled(b);
          } else if b.outcome.Reply? {
            result[i] := match b.outcome.body case Text(text) => text case Broken(e) => CallFailed(b, e);
          }
          workers[i] := Cancelling(ctx);
        case Cancelling(_) =>
          cancelled := cancelled + {i};
          workers[i] := Releasing;
        case Releasing =>
          wg := wg - 1;
          workers[i] := Exited;
      }
    }

    /** The goroutines under a scheduler that picks any of them at any time, until Wait passes; the
        client may leave at any time as well, unless `stays`. */
    method Serve(stays: bool)
      requires Valid() && !gone
      modifies this, workers, result
      ensures Valid() && wg == 0
      ensures stays ==> result[..] == Slots(backends)
    {
      Safety(backends, history);
      while wg != 0
        invariant Valid() && workers.Length == result.Length == |backends| && (stays ==> !gone)
        decreases Measure(View())
      {
        Safety(backends, history);
        CountBounds(Running, workers[..]);
        var leaves: bool := *;
        ghost var a: Action;
        if leaves && !stays && !gone {
          a := ClientGone;
          StepDecreases(View(), a);
          gone := true;
        } else {
          var i: nat :| i < workers.Length && !workers[i].Exited?;
          a := Action.Step(i);
          StepDecreases(View(), a);
          Step(i);
        }
        Snoc(Next, Start(backends), history, a);
        history := history + [a];
      }
      Safety(backends, history);
      AllSettled(View());
    }
  }
}
