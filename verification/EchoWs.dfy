/** The WebSocket echo handler: four goroutines around an unbuffered channel `in`, a channel
    `done`, a WaitGroup and deferred closes (pkg/api/http/echows.go). */
module EchoWs {
  import opened Runs

  /** What travels over `in`; a receive from the closed channel yields `Nil`. */
  datatype Frame = Client(message: string) | Host(number: nat) | Nil

  /** The request goroutine: read, send the reply, and after the loop the two deferred closes. */
  datatype Reader = Reading | Replying(message: string) | LoopLeft | DoneClosed | ReaderGone

  /** The host ticker: select, send a status, and after `done` the release of the WaitGroup. */
  datatype Ticker = Selecting | Reporting(number: nat) | Releasing | TickerGone

  /** The closer: wait for the WaitGroup, then the deferred close of `in`. */
  datatype Closer = Waiting | Woken | CloserGone

  datatype Writer = Receiving | Writing(frame: Frame) | WriterGone

  /** `read`, `ticks`, `taken` and `wire` record the messages read, the number of statuses made,
      the frames received from `in` and the frames written to the connection. */
  datatype State = State(
    reader: Reader, ticker: Ticker, closer: Closer, writer: Writer,
    doneClosed: bool, inClosed: bool, connClosed: bool, wg: int, panicked: bool,
    read: seq<string>, ticks: nat, taken: seq<Frame>, wire: seq<Frame>)

  function Start(): State {
    State(Reading, Selecting, Waiting, Receiving, false, false, false, 1, false, [], 0, [], [])
  }

  /** One atomic step of a goroutine or of its surroundings. */
  datatype Action =
    | ReadMessage(message: string) | ReadError | CloseDone | CloseConn
    | Tick | SeeDone | ReleaseGroup
    | WakeCloser | CloseIn
    | SendReply | SendStatus
    | ReceiveNil | WriteOk | WriteError

  datatype Goroutine = RequestLoop | HostTicker | GroupCloser | FrameWriter

  /** Which goroutine takes the step; a rendezvous belongs to its sender. */
  function By(a: Action): Goroutine {
    match a
    case ReadMessage(_) | ReadError | CloseDone | CloseConn | SendReply => RequestLoop
    case Tick | SeeDone | ReleaseGroup | SendStatus => HostTicker
    case WakeCloser | CloseIn => GroupCloser
    case ReceiveNil | WriteOk | WriteError => FrameWriter
  }

  /** A send on the open channel is a rendezvous with the writer; a send on the closed one panics. */
  predicate CanSend(s: State) {
    s.inClosed || s.writer.Receiving?
  }

  predicate Enabled(s: State, a: Action) {
    && !s.panicked
    && match a
       case ReadMessage(_) => s.reader.Reading?
       case ReadError => s.reader.Reading?
       case CloseDone => s.reader.LoopLeft?
       case CloseConn => s.reader.DoneClosed?
       case Tick => s.ticker.Selecting?
       case SeeDone => s.ticker.Selecting? && s.doneClosed
       case ReleaseGroup => s.ticker.Releasing?
       case WakeCloser => s.closer.Waiting? && s.wg == 0
       case CloseIn => s.closer.Woken?
       case SendReply => s.reader.Replying? && CanSend(s)
       case SendStatus => s.ticker.Reporting? && CanSend(s)
       case ReceiveNil => s.writer.Receiving? && s.inClosed
       case WriteOk => s.writer.Writing? && !s.connClosed
       case WriteError => s.writer.Writing?
  }

  function Accept(s: State, f: Frame): State {
    s.(writer := Writing(f), taken := s.taken + [f])
  }

  function Next(s: State, a: Action): State {
    if !Enabled(s, a) then s else
    match a
    case ReadMessage(m) => s.(reader := Replying(m), read := s.read + [m])
    case ReadError => s.(reader := LoopLeft)
    case CloseDone => if s.doneClosed then s.(panicked := true) else s.(reader := DoneClosed, doneClosed := true)
    case CloseConn => s.(reader := ReaderGone, connClosed := true)
    case Tick => s.(ticker := Reporting(s.ticks), ticks := s.ticks + 1)
    case SeeDone => s.(ticker := Releasing)
    case ReleaseGroup => if s.wg <= 0 then s.(panicked := true) else s.(ticker := TickerGone, wg := s.wg - 1)
    case WakeCloser => s.(closer := Woken)
    case CloseIn => if s.inClosed then s.(panicked := true) else s.(closer := CloserGone, inClosed := true)
    case SendReply => if s.inClosed then s.(panicked := true) else Accept(s.(reader := Reading), Client(s.reader.message))
    case SendStatus => if s.inClosed then s.(panicked := true) else Accept(s.(ticker := Selecting), Host(s.ticker.number))
    case ReceiveNil => Accept(s, Nil)
    case WriteOk => s.(writer := Receiving, wire := s.wire + [s.writer.frame])
    case WriteError => s.(writer := WriterGone)
  }

  ghost predicate Reachable(s: State) {
    exists schedule: seq<Action> :: s == Run(Next, Start(), schedule)
  }

  // ---------------------------------------------------------------- conservation and order

  /** The client messages among the frames, in order. */
  function Replies(fs: seq<Frame>): seq<string> {
    if |fs| == 0 then []
    else
      var before := Replies(fs[..|fs| - 1]);
      if fs[|fs| - 1].Client? then before + [fs[|fs| - 1].message] else before
  }

  /** The status numbers among the frames, in order. */
  function Statuses(fs: seq<Frame>): seq<nat> {
    if |fs| == 0 then []
    else
      var before := Statuses(fs[..|fs| - 1]);
      if fs[|fs| - 1].Host? then before + [fs[|fs| - 1].number] else before
  }

  function UpTo(n: nat): seq<nat> {
    if n == 0 then [] else UpTo(n - 1) + [n - 1]
  }

  /** No loss, no duplication, order kept, at most one message of each sender in flight. */
  ghost predicate Conserved(s: State) {
    && s.read == (if s.reader.Replying? then Replies(s.taken) + [s.reader.message] else Replies(s.taken))
    && UpTo(s.ticks) == (if s.ticker.Reporting? then Statuses(s.taken) + [s.ticker.number] else Statuses(s.taken))
  }

  /** The frames on the wire are the frames taken, short of the one in the writer's hands. */
  ghost predicate WireFollows(s: State) {
    match s.writer
    case Receiving => s.taken == s.wire
    case Writing(f) => s.taken == s.wire + [f]
    case WriterGone => |s.taken| == |s.wire| + 1 && s.wire == s.taken[..|s.wire|]
  }

  /** `Nil` frames come last, and only once `in` is closed. */
  ghost predicate NilLast(s: State) {
    && (Nil in s.taken ==> s.inClosed)
    && forall i, j :: 0 <= i < j < |s.taken| && s.taken[i] == Nil ==> s.taken[j] == Nil
  }

  predicate LoopOver(s: State) { s.reader.LoopLeft? || s.reader.DoneClosed? || s.reader.ReaderGone? }

  /** Loop exit, close(done), wg.Done and close(in) in this order, and no panic. */
  ghost predicate Ordered(s: State) {
    && !s.panicked
    && (s.doneClosed <==> s.reader.DoneClosed? || s.reader.ReaderGone?)
    && (s.connClosed <==> s.reader.ReaderGone?)
    && (s.ticker.Releasing? || s.ticker.TickerGone? ==> s.doneClosed)
    && s.wg == (if s.ticker.TickerGone? then 0 else 1)
    && (!s.closer.Waiting? ==> s.ticker.TickerGone?)
    && (s.inClosed <==> s.closer.CloserGone?)
  }

  ghost predicate Inv(s: State) {
    Ordered(s) && Conserved(s) && WireFollows(s) && NilLast(s)
  }

  lemma AcceptKeeps(taken: seq<Frame>, f: Frame)
    ensures Replies(taken + [f]) == if f.Client? then Replies(taken) + [f.message] else Replies(taken)
    ensures Statuses(taken + [f]) == if f.Host? then Statuses(taken) + [f.number] else Statuses(taken)
  {
    assert (taken + [f])[..|taken|] == taken;
  }

  lemma OrderedNext(s: State, a: Action)
    requires Ordered(s)
    ensures Ordered(Next(s, a))
  {
  }

  /** A frame handed over leaves the hands of its sender. */
  lemma HandOver(s: State, f: Frame, t: State)
    requires Conserved(s) && t.taken == s.taken + [f] && t.read == s.read && t.ticks == s.ticks
    requires f == Nil ==> t.reader == s.reader && t.ticker == s.ticker
    requires f.Client? ==> s.reader == Replying(f.message) && !t.reader.Replying? && t.ticker == s.ticker
    requires f.Host? ==> s.ticker == Reporting(f.number) && !t.ticker.Reporting? && t.reader == s.reader
    ensures Conserved(t)
  {
    AcceptKeeps(s.taken, f);
  }

  lemma ConservedNext(s: State, a: Action)
    requires Conserved(s)
    ensures Conserved(Next(s, a))
  {
    match a
    case SendReply => if Enabled(s, a) && !s.inClosed { HandOver(s, Client(s.reader.message), Next(s, a)); }
    case SendStatus => if Enabled(s, a) && !s.inClosed { HandOver(s, Host(s.ticker.number), Next(s, a)); }
    case ReceiveNil => if Enabled(s, a) { HandOver(s, Nil, Next(s, a)); }
    case _ =>
  }

  lemma WireNext(s: State, a: Action)
    requires WireFollows(s) && Ordered(s)
    ensures WireFollows(Next(s, a))
  {
  }

  lemma NilNext(s: State, a: Action)
    requires NilLast(s) && Ordered(s)
    ensures NilLast(Next(s, a))
  {
  }

  lemma InvNext(s: State, a: Action)
    requires Inv(s)
    ensures Inv(Next(s, a))
  {
    OrderedNext(s, a);
    ConservedNext(s, a);
    WireNext(s, a);
    NilNext(s, a);
  }

  /** Safety of every run: no panic, conservation and order, and the shutdown order of the flags. */
  lemma {:induction false} Safety(schedule: seq<Action>)
    ensures Inv(Run(Next, Start(), schedule))
  {
    var n := |schedule| - 1;
    if n >= 0 {
      Safety(schedule[..n]);
      InvNext(Run(Next, Start(), schedule[..n]), schedule[n]);
    }
  }

  /** The messages the request goroutine has read in a schedule, in order. */
  function Heard(schedule: seq<Action>): seq<string> {
    var n := |schedule| - 1;
    if n < 0 then []
    else if schedule[n].ReadMessage? && Enabled(Run(Next, Start(), schedule[..n]), schedule[n])
    then Heard(schedule[..n]) + [schedule[n].message]
    else Heard(schedule[..n])
  }

  /** The number of ticks that made a status. */
  function Ticked(schedule: seq<Action>): nat {
    var n := |schedule| - 1;
    if n < 0 then 0
    else Ticked(schedule[..n]) + if schedule[n].Tick? && Enabled(Run(Next, Start(), schedule[..n]), schedule[n]) then 1 else 0
  }

  lemma ReadNext(s: State, a: Action)
    ensures Next(s, a).read == if a.ReadMessage? && Enabled(s, a) then s.read + [a.message] else s.read
    ensures Next(s, a).ticks == if a.Tick? && Enabled(s, a) then s.ticks + 1 else s.ticks
  {
  }

  /** What is recorded as read and as made is what the schedule says. */
  lemma {:induction false} HeardIsRead(schedule: seq<Action>)
    ensures Run(Next, Start(), schedule).read == Heard(schedule)
    ensures Run(Next, Start(), schedule).ticks == Ticked(schedule)
  {
    var n := |schedule| - 1;
    if n >= 0 {
      HeardIsRead(schedule[..n]);
      ReadNext(Run(Next, Start(), schedule[..n]), schedule[n]);
    }
  }

  lemma ReachableInv(s: State)
    requires Reachable(s)
    ensures Inv(s)
  {
    var schedule :| s == Run(Next, Start(), schedule);
    Safety(schedule);
  }

  lemma WireBehindByOne(taken: seq<Frame>, wire: seq<Frame>)
    requires wire == taken || (|taken| == |wire| + 1 && wire == taken[..|wire|])
    ensures Replies(wire) <= Replies(taken) && |Replies(taken)| <= |Replies(wire)| + 1
    ensures Statuses(wire) <= Statuses(taken) && |Statuses(taken)| <= |Statuses(wire)| + 1
  {
    if wire != taken {
      var last := taken[|wire|];
      assert taken == wire + [last];
      AcceptKeeps(wire, last);
    }
  }

  /** What the client is sent in any schedule: the messages read from it, unchanged and in order from
      the first, short by two at most; a status for each tick, numbered from zero without a gap; and
      `null` only after the read loop has ended and `in` is closed. */
  lemma EchoOnTheWire(schedule: seq<Action>)
    ensures var s := Run(Next, Start(), schedule);
            && Replies(s.wire) <= Heard(schedule) && |Heard(schedule)| <= |Replies(s.wire)| + 2
            && Statuses(s.wire) <= UpTo(Ticked(schedule)) && Ticked(schedule) <= |Statuses(s.wire)| + 2
            && (Nil in s.wire ==> s.inClosed && LoopOver(s))
  {
    var s := Run(Next, Start(), schedule);
    assert Conserved(s) && WireFollows(s) by { Safety(schedule); }
    assert NilLast(s) && Ordered(s) by { Safety(schedule); }
    WireBehindByOne(s.taken, s.wire);
    HeardIsRead(schedule);
    UpToLength(s.ticks);
  }

  lemma UpToLength(n: nat)
    ensures |UpTo(n)| == n
  {
  }

  // ---------------------------------------------------------------- order of the shutdown

  /** A closed `in` has behind it, in this order: the end of the read loop, close(done),
      wg.Done and close(in), at four increasing positions of the schedule. */
  lemma {:induction false} ClosingOrder(schedule: seq<Action>) returns (exit: nat, done: nat, release: nat, close: nat)
    requires Run(Next, Start(), schedule).inClosed
    ensures exit < done < release < close < |schedule|
    ensures schedule[exit] == ReadError && schedule[done] == CloseDone
    ensures schedule[release] == ReleaseGroup && schedule[close] == CloseIn
  {
    var n := |schedule| - 1;
    var before := Run(Next, Start(), schedule[..n]);
    assert Ordered(before) by { Safety(schedule[..n]); }
    if before.inClosed {
      exit, done, release, close := ClosingOrder(schedule[..n]);
    } else {
      close := n;
      exit, done, release := ReleaseOrder(schedule[..n]);
    }
  }

  lemma {:induction false} ReleaseOrder(schedule: seq<Action>) returns (exit: nat, done: nat, release: nat)
    requires Run(Next, Start(), schedule).ticker.TickerGone?
    ensures exit < done < release < |schedule|
    ensures schedule[exit] == ReadError && schedule[done] == CloseDone && schedule[release] == ReleaseGroup
  {
    var n := |schedule| - 1;
    var before := Run(Next, Start(), schedule[..n]);
    assert Ordered(before) by { Safety(schedule[..n]); }
    if before.ticker.TickerGone? {
      exit, done, release := ReleaseOrder(schedule[..n]);
    } else {
      release := n;
      exit, done := DoneOrder(schedule[..n]);
    }
  }

  lemma {:induction false} DoneOrder(schedule: seq<Action>) returns (exit: nat, done: nat)
    requires Run(Next, Start(), schedule).doneClosed
    ensures exit < done < |schedule|
    ensures schedule[exit] == ReadError && schedule[done] == CloseDone
  {
    var n := |schedule| - 1;
    var before := Run(Next, Start(), schedule[..n]);
    assert Ordered(before) by { Safety(schedule[..n]); }
    if before.doneClosed {
      exit, done := DoneOrder(schedule[..n]);
    } else {
      done := n;
      exit := LoopExit(schedule[..n]);
    }
  }

  lemma {:induction false} LoopExit(schedule: seq<Action>) returns (exit: nat)
    requires LoopOver(Run(Next, Start(), schedule))
    ensures exit < |schedule| && schedule[exit] == ReadError
  {
    var n := |schedule| - 1;
    if LoopOver(Run(Next, Start(), schedule[..n])) {
      exit := LoopExit(schedule[..n]);
    } else {
      exit := n;
    }
  }

  // ---------------------------------------------------------------- when a session gets stuck

  predicate Finished(s: State) {
    s.reader.ReaderGone? && s.ticker.TickerGone? && s.closer.CloserGone? && s.writer.WriterGone?
  }

  /** Nothing can move: no goroutine, and none of the reads, ticks and writes around them. */
  ghost predicate Stuck(s: State) {
    forall a :: !Enabled(s, a)
  }

  /** A send nobody will take: the writer is gone, or is bound to go because the connection is
      already closed under the frame in its hands. */
  predicate Doomed(s: State) {
    || (s.writer.WriterGone? && (s.reader.Replying? || s.ticker.Reporting?))
    || (s.connClosed && s.writer.Writing? && s.ticker.Reporting?)
  }

  lemma StuckAtLast(s: State)
    requires Ordered(s) && Stuck(s) && !Finished(s)
    ensures s.writer.WriterGone? && s.ticker.Reporting? && (s.reader.ReaderGone? || s.reader.Replying?)
  {
    assert !Enabled(s, ReadError) && !Enabled(s, CloseDone) && !Enabled(s, CloseConn);
    assert !Enabled(s, Tick) && !Enabled(s, ReleaseGroup) && !Enabled(s, WakeCloser) && !Enabled(s, CloseIn);
    assert !Enabled(s, SendReply) && !Enabled(s, SendStatus) && !Enabled(s, ReceiveNil) && !Enabled(s, WriteError);
  }

  /** The stuck sessions exactly: all four goroutines finished, or the writer gone with the ticker's
      send pending and the request goroutine either finished or blocked on a send itself. */
  lemma StuckExactly(s: State)
    requires Reachable(s)
    ensures Stuck(s) <==>
            Finished(s) || (s.writer.WriterGone? && s.ticker.Reporting? && (s.reader.ReaderGone? || s.reader.Replying?))
  {
    assert Ordered(s) by { ReachableInv(s); }
    if Stuck(s) && !Finished(s) {
      StuckAtLast(s);
    }
  }

  /** A schedule that ends the session without leaving a goroutine behind. */
  ghost predicate CanFinish(s: State) {
    exists schedule: seq<Action> :: Finished(Run(Next, s, schedule))
  }

  /** The next action on the way to the end of a session that is not doomed. */
  function TowardsEnd(s: State): Action
    requires !Finished(s)
  {
    if s.writer.Writing? && !s.connClosed then WriteOk
    else if s.reader.Replying? then SendReply
    else if s.ticker.Reporting? then SendStatus
    else if s.reader.Reading? then ReadError
    else if s.reader.LoopLeft? then CloseDone
    else if s.ticker.Selecting? then SeeDone
    else if s.ticker.Releasing? then ReleaseGroup
    else if s.closer.Waiting? then WakeCloser
    else if s.closer.Woken? then CloseIn
    else if s.reader.DoneClosed? then CloseConn
    else if s.writer.Receiving? then ReceiveNil
    else WriteError
  }

  function Remaining(s: State): nat {
    10 * ((match s.reader case Replying(_) => 4 case Reading => 3 case LoopLeft => 2 case DoneClosed => 1 case ReaderGone => 0)
          + (match s.ticker case Reporting(_) => 3 case Selecting => 2 case Releasing => 1 case TickerGone => 0)
          + (match s.closer case Waiting => 2 case Woken => 1 case CloserGone => 0))
    + match s.writer
      case Receiving => if s.connClosed then 2 else 1
      case Writing(_) => if s.connClosed then 1 else 2
      case WriterGone => 0
  }

  lemma TowardsEndWorks(s: State)
    requires Inv(s) && !Doomed(s) && !Finished(s)
    ensures Enabled(s, TowardsEnd(s)) && !Doomed(Next(s, TowardsEnd(s)))
    ensures Remaining(Next(s, TowardsEnd(s))) < Remaining(s)
  {
  }

  lemma {:induction false} Finishable(s: State)
    requires Inv(s) && !Doomed(s)
    ensures CanFinish(s)
    decreases Remaining(s)
  {
    if Finished(s) {
      assert Finished(Run(Next, s, []));
    } else {
      var a := TowardsEnd(s);
      var t := Next(s, a);
      InvNext(s, a);
      TowardsEndWorks(s);
      Finishable(t);
      var rest :| Finished(Run(Next, t, rest));
      Append(Next, s, [a], rest);
      Snoc(Next, s, [], a);
      assert [] + [a] == [a];
      assert Finished(Run(Next, s, [a] + rest));
    }
  }

  lemma {:induction false} DoomedForGood(s: State, schedule: seq<Action>)
    requires Ordered(s) && Doomed(s)
    ensures Ordered(Run(Next, s, schedule)) && Doomed(Run(Next, s, schedule))
  {
    var n := |schedule| - 1;
    if n >= 0 {
      DoomedForGood(s, schedule[..n]);
      OrderedNext(Run(Next, s, schedule[..n]), schedule[n]);
    }
  }

  /** A session can still end cleanly exactly if it is not doomed; and doom is for good. */
  lemma CanFinishExactly(s: State)
    requires Reachable(s)
    ensures CanFinish(s) <==> !Doomed(s)
  {
    ReachableInv(s);
    if Doomed(s) {
      forall schedule: seq<Action> ensures !Finished(Run(Next, s, schedule)) {
        DoomedForGood(s, schedule);
      }
    } else {
      Finishable(s);
    }
  }

  // ---------------------------------------------------------------- when the end is inevitable

  /** sendHostWs has seen `done` and will send no more. */
  predicate Released(s: State) {
    s.ticker.Releasing? || s.ticker.TickerGone?
  }

  /** The next action on the way to a session that is stuck: a write fails with a status waiting
      behind it, and the request goroutine is blocked too or ends. */
  function TowardsDoom(s: State): Action
    requires !Released(s)
  {
    if s.ticker.Selecting? then Tick
    else if s.writer.Receiving? then SendStatus
    else if s.writer.Writing? then WriteError
    else if s.reader.Reading? then ReadMessage("again")
    else if s.reader.LoopLeft? then CloseDone
    else CloseConn
  }

  function ToDoom(s: State): nat {
    (match s.writer case Receiving => 4 case Writing(_) => 2 case WriterGone => 0)
    + (match s.reader case LoopLeft => 2 case Reading | DoneClosed => 1 case _ => 0)
    + if s.ticker.Selecting? then 1 else 0
  }

  lemma TowardsDoomWorks(s: State)
    requires Ordered(s) && !Released(s) && ToDoom(s) > 0
    ensures var t := Next(s, TowardsDoom(s)); Ordered(t) && !Released(t) && ToDoom(t) < ToDoom(s)
  {
  }

  lemma {:induction false} GetsStuck(s: State, schedule: seq<Action>, t: State) returns (schedule': seq<Action>)
    requires t == Run(Next, s, schedule) && Ordered(t) && !Released(t)
    ensures Stuck(Run(Next, s, schedule')) && !Finished(Run(Next, s, schedule'))
    decreases ToDoom(t)
  {
    if ToDoom(t) == 0 {
      schedule' := schedule;
    } else {
      TowardsDoomWorks(t);
      var further, u := Go(Next, s, schedule, t, TowardsDoom(t));
      schedule' := GetsStuck(s, further, u);
    }
  }

  lemma ReleasedNext(s: State, a: Action)
    requires Released(s)
    ensures Released(Next(s, a))
  {
  }

  lemma {:induction false} StaysReleased(s: State, schedule: seq<Action>)
    requires Released(s)
    ensures Released(Run(Next, s, schedule))
  {
    var n := |schedule| - 1;
    if n >= 0 {
      StaysReleased(s, schedule[..n]);
      ReleasedNext(Run(Next, s, schedule[..n]), schedule[n]);
    }
  }

  lemma {:induction false} RunReachable(s: State, schedule: seq<Action>)
    requires Reachable(s)
    ensures Reachable(Run(Next, s, schedule))
  {
    var first :| s == Run(Next, Start(), first);
    Append(Next, Start(), first, schedule);
  }

  /** A session cannot stop short of its end exactly if the ticker has seen `done`: up to then a
      failing write can still leave goroutines behind. */
  lemma InevitableExactly(s: State)
    requires Reachable(s)
    ensures (forall schedule: seq<Action> :: Stuck(Run(Next, s, schedule)) ==> Finished(Run(Next, s, schedule)))
            <==> Released(s)
  {
    if Released(s) {
      forall schedule: seq<Action> | Stuck(Run(Next, s, schedule)) ensures Finished(Run(Next, s, schedule)) {
        StaysReleased(s, schedule);
        RunReachable(s, schedule);
        StuckExactly(Run(Next, s, schedule));
      }
    } else {
      assert Ordered(s) by { ReachableInv(s); }
      var schedule := GetsStuck(s, [], s);
    }
  }

  /** A `null` taken for a connection still open. */
  predicate IdleRound(s: State, a: Action) {
    a.ReceiveNil? && Enabled(s, a) && !s.connClosed
  }

  /** The steps of a schedule that take effect, and the idle rounds among them. */
  function Steps(s: State, schedule: seq<Action>): nat {
    var n := |schedule| - 1;
    if n < 0 then 0
    else Steps(s, schedule[..n]) + if Enabled(Run(Next, s, schedule[..n]), schedule[n]) then 1 else 0
  }

  function IdleRounds(s: State, schedule: seq<Action>): nat {
    var n := |schedule| - 1;
    if n < 0 then 0
    else IdleRounds(s, schedule[..n]) + if IdleRound(Run(Next, s, schedule[..n]), schedule[n]) then 1 else 0
  }

  lemma MovesOn(s: State, a: Action)
    requires Ordered(s) && Released(s) && Enabled(s, a)
    ensures var t := Next(s, a);
            if IdleRound(s, a) then Remaining(t) == Remaining(s) + 1 && Enabled(s, CloseConn)
            else Remaining(t) < Remaining(s)
  {
  }

  /** And it does get there: from then on only the idle rounds of a request goroutine that never
      comes to close the connection can prolong it, and a closed connection leaves none. */
  lemma {:induction false} EndsInTime(s: State, schedule: seq<Action>)
    requires Reachable(s) && Released(s)
    ensures Steps(s, schedule) + Remaining(Run(Next, s, schedule)) <= Remaining(s) + 2 * IdleRounds(s, schedule)
    ensures s.connClosed ==> Run(Next, s, schedule).connClosed && IdleRounds(s, schedule) == 0
  {
    var n := |schedule| - 1;
    if n >= 0 {
      EndsInTime(s, schedule[..n]);
      var t := Run(Next, s, schedule[..n]);
      RunReachable(s, schedule[..n]);
      assert Ordered(t) by { ReachableInv(t); }
      StaysReleased(s, schedule[..n]);
      if Enabled(t, schedule[n]) {
        MovesOn(t, schedule[n]);
      }
    }
  }

  // ---------------------------------------------------------------- pending sends, and doom

  /** Up to one write makes a live writer ready to receive. */
  lemma WriterReady(s: State) returns (first: seq<Action>, t: State)
    requires Ordered(s) && !Doomed(s) && (s.reader.Replying? || s.ticker.Reporting?)
    ensures |first| <= 1 && t == Run(Next, s, first)
    ensures t.writer.Receiving? && t.taken == s.taken && t.reader == s.reader && t.ticker == s.ticker
    ensures !t.panicked && !t.inClosed
  {
    first := if s.writer.Writing? then [WriteOk] else [];
    t := if s.writer.Writing? then Next(s, WriteOk) else s;
    Snoc(Next, s, [], WriteOk);
    assert [] + [WriteOk] == [WriteOk];
  }

  /** With a live writer no send is blocked for good: unless the session is doomed, a pending reply
      is taken within two steps, and then every message read has been handed over. */
  lemma PendingReplyTaken(s: State) returns (steps: seq<Action>)
    requires Reachable(s) && !Doomed(s) && s.reader.Replying?
    ensures |steps| <= 2 && Replies(Run(Next, s, steps).taken) == s.read
  {
    assert Ordered(s) && Conserved(s) by { ReachableInv(s); }
    var first, t := WriterReady(s);
    steps := first + [SendReply];
    Snoc(Next, s, first, SendReply);
    AcceptKeeps(t.taken, Client(s.reader.message));
  }

  /** The same for a pending status. */
  lemma PendingStatusTaken(s: State) returns (steps: seq<Action>)
    requires Reachable(s) && !Doomed(s) && s.ticker.Reporting?
    ensures |steps| <= 2 && Statuses(Run(Next, s, steps).taken) == UpTo(s.ticks)
  {
    assert Ordered(s) && Conserved(s) by { ReachableInv(s); }
    var first, t := WriterReady(s);
    steps := first + [SendStatus];
    Snoc(Next, s, first, SendStatus);
    AcceptKeeps(t.taken, Host(s.ticker.number));
  }

  lemma ReachableNext(s: State, a: Action)
    requires Reachable(s)
    ensures Reachable(Next(s, a))
  {
    var schedule :| s == Run(Next, Start(), schedule);
    Snoc(Next, Start(), schedule, a);
    assert Next(s, a) == Run(Next, Start(), schedule + [a]);
  }

  lemma Steer(s: State, a: Action) returns (t: State)
    requires Reachable(s)
    ensures t == Next(s, a) && Reachable(t)
  {
    ReachableNext(s, a);
    t := Next(s, a);
  }

  lemma Begin() returns (s: State)
    ensures s == Start() && Reachable(s)
  {
    s := Start();
    assert s == Run(Next, Start(), []);
  }

  /** Doom happens: a write fails, then the client's next message blocks the request goroutine,
      which therefore never closes the connection. */
  lemma ReaderAbandoned() returns (s: State)
    ensures Reachable(s) && Doomed(s) && s.reader.Replying? && !s.connClosed
  {
    s := Begin();
    s := Steer(s, ReadMessage("a"));
    s := Steer(s, SendReply);
    s := Steer(s, WriteError);
    s := Steer(s, ReadMessage("b"));
  }

  lemma TwoStatuses() returns (s: State)
    ensures Reachable(s)
    ensures s == Start().(ticker := Reporting(1), writer := Writing(Host(0)), ticks := 2, taken := [Host(0)])
  {
    s := Begin();
    s := Steer(s, Tick);
    s := Steer(s, SendStatus);
    s := Steer(s, Tick);
  }

  /** Doom happens in an orderly shutdown too: the connection is closed while one status is being
      written and the next one waits. */
  lemma TickerOvertaken() returns (s: State)
    ensures Reachable(s) && Doomed(s) && s.reader.ReaderGone? && s.writer.Writing?
  {
    s := TwoStatuses();
    s := Steer(s, ReadError);
    s := Steer(s, CloseDone);
    s := Steer(s, CloseConn);
  }

  // ---------------------------------------------------------------- the handler in place

  /** The variables shared by the goroutines of one session, updated in place. */
  class Session {
    var reader: Reader
    var ticker: Ticker
    var closer: Closer
    var writer: Writer
    var doneClosed: bool
    var inClosed: bool
    var connClosed: bool
    var wg: int
    var panicked: bool
    var read: seq<string>
    var ticks: nat
    var taken: seq<Frame>
    var wire: seq<Frame>
    ghost var history: seq<Action>

    function View(): State
      reads this
    {
      State(reader, ticker, closer, writer, doneClosed, inClosed, connClosed, wg, panicked, read, ticks, taken, wire)
    }

    ghost predicate Valid()
      reads this
    {
      View() == Run(Next, Start(), history)
    }

    constructor ()
      ensures Valid() && history == []
    {
      reader, ticker, closer, writer := Reading, Selecting, Waiting, Receiving;
      doneClosed, inClosed, connClosed, wg, panicked := false, false, false, 1, false;
      read, ticks, taken, wire, history := [], 0, [], [], [];
    }

    /** The fields have just taken step `a`. */
    ghost method Took(a: Action)
      requires View() == Next(Run(Next, Start(), history), a)
      modifies this`history
      ensures Valid() && history == old(history) + [a]
    {
      Snoc(Next, Start(), history, a);
      history := history + [a];
    }

    /** close(c): the flag of the channel is set, or the program panics. */
    method CloseDoneChannel()
      modifies this`doneClosed, this`panicked
      ensures doneClosed && panicked == (old(panicked) || old(doneClosed))
    {
      if doneClosed { panicked := true; }
      doneClosed := true;
    }

    method CloseInChannel()
      modifies this`inClosed, this`panicked
      ensures inClosed && panicked == (old(panicked) || old(inClosed))
    {
      if inClosed { panicked := true; }
      inClosed := true;
    }

    /** `in <- frame` once the writer is ready to receive. */
    method Send(frame: Frame)
      requires writer.Receiving? && !inClosed
      modifies this`writer, this`taken
      ensures writer == Writing(frame) && taken == old(taken) + [frame]
    {
      taken := taken + [frame];
      writer := Writing(frame);
    }

    /** One step of the request goroutine. */
    method ReaderStep(received: seq<string>) returns (a: Action)
      requires Ordered(View()) && !reader.ReaderGone? && |received| <= 1
      requires reader.Replying? ==> writer.Receiving?
      modifies this
      ensures By(a) == RequestLoop && Enabled(old(View()), a) && View() == Next(old(View()), a) && history == old(history)
      ensures old(reader).Reading? ==> a == if received == [] then ReadError else ReadMessage(received[0])
    {
      match reader {
        case Reading =>
          if received == [] {
            a := ReadError;
            reader := LoopLeft;
          } else {
            a := ReadMessage(received[0]);
            read := read + received;
            reader := Replying(received[0]);
            assert received == [received[0]];
          }
        case Replying(message) =>
          a := SendReply;
          Send(Client(message));
          reader := Reading;
        case LoopLeft =>
          a := CloseDone;
          CloseDoneChannel();
          reader := DoneClosed;
        case DoneClosed =>
          a := CloseConn;
          connClosed := true;
          reader := ReaderGone;
      }
    }

    /** One step of sendHostWs; `choose` settles the select when both cases are ready. */
    method TickerStep(choose: bool) returns (a: Action)
      requires Ordered(View()) && !ticker.TickerGone?
      requires ticker.Reporting? ==> writer.Receiving?
      modifies this
      ensures By(a) == HostTicker && Enabled(old(View()), a) && View() == Next(old(View()), a) && history == old(history)
      ensures a.SeeDone? <==> old(ticker).Selecting? && doneClosed && choose
    {
      match ticker {
        case Selecting =>
          if doneClosed && choose {
            a := SeeDone;
            ticker := Releasing;
          } else {
            a := Tick;
            ticker := Reporting(ticks);
            ticks := ticks + 1;
          }
        case Reporting(number) =>
          a := SendStatus;
          Send(Host(number));
          ticker := Selecting;
        case Releasing =>
          a := ReleaseGroup;
          wg := wg - 1;
          ticker := TickerGone;
      }
    }

    /** One step of the goroutine that waits for the WaitGroup. */
    method CloserStep() returns (a: Action)
      requires Ordered(View()) && !closer.CloserGone? && (closer.Waiting? ==> wg == 0)
      modifies this
      ensures By(a) == GroupCloser && Enabled(old(View()), a) && View() == Next(old(View()), a) && history == old(history)
    {
      match closer {
        case Waiting =>
          a := WakeCloser;
          closer := Woken;
        case Woken =>
          a := CloseIn;
          CloseInChannel();
          closer := CloserGone;
      }
    }

    /** One step of writeWs; `fails` is the outcome of a write on a connection still open. */
    method WriterStep(fails: bool) returns (a: Action)
      requires Ordered(View()) && !writer.WriterGone? && (writer.Receiving? ==> inClosed)
      modifies this
      ensures By(a) == FrameWriter && Enabled(old(View()), a) && View() == Next(old(View()), a) && history == old(history)
      ensures a.WriteError? <==> old(writer).Writing? && (fails || connClosed)
    {
      match writer {
        case Receiving =>
          a := ReceiveNil;
          taken := taken + [Nil];
          writer := Writing(Nil);
        case Writing(frame) =>
          if fails || connClosed {
            a := WriteError;
            writer := WriterGone;
          } else {
            a := WriteOk;
            wire := wire + [frame];
            writer := Receiving;
          }
      }
    }

    /** The next action of a schedule, by the goroutine it belongs to, unless that is not ready for it. */
    method Turn(a: Action)
      requires Valid()
      modifies this
      ensures Valid() && history == old(history) + [a]
    {
      if Enabled(View(), a) {
        assert Ordered(View()) by { Safety(history); }
        var taken: Action;
        match By(a) {
          case RequestLoop => taken := ReaderStep(if a.ReadMessage? then [a.message] else []);
          case HostTicker => taken := TickerStep(a.SeeDone?);
          case GroupCloser => taken := CloserStep();
          case FrameWriter => taken := WriterStep(a.WriteError?);
        }
        assert taken == a;
      }
      Took(a);
    }

    /** The four goroutines in place, under any scheduler and with anything coming from the client,
        do what the schedule says. */
    method Serve(schedule: seq<Action>)
      requires Valid()
      modifies this
      ensures View() == Run(Next, Start(), old(history) + schedule) && history == old(history) + schedule
      ensures read == Heard(history) && ticks == Ticked(history)
    {
      for i := 0 to |schedule|
        invariant Valid() && history == old(history) + schedule[..i]
      {
        Turn(schedule[i]);
      }
      assert schedule[..|schedule|] == schedule;
      HeardIsRead(history);
    }
  }
}
