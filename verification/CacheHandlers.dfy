/** The Redis cache handlers and the version heartbeat (pkg/api/http/cache.go): any number of
    requests in flight, each a few commands on a store that others use and that expires keys. */
module CacheHandlers {
  import opened Runs

  // ---------------------------------------------------------------- the store

  datatype Expiry = Never | At(time: nat)

  datatype Entry = Entry(value: string, expiry: Expiry)

  /** Redis keeps absolute deadlines and removes an expired entry whenever it gets round to it. */
  type Store = map<string, Entry>

  predicate Alive(store: Store, now: nat, key: string) {
    key in store && (store[key].expiry.At? ==> now < store[key].expiry.time)
  }

  const HEARTBEAT_TTL := 60

  // ---------------------------------------------------------------- requests and replies

  datatype Op = Write(key: string, value: string) | Delete(key: string) | Read(key: string)

  /** A reply body: nothing, the value, or the JSON of ErrorResponse with its own code inside. */
  datatype Payload = Empty | Value(value: string) | Fault(code: nat, message: string)

  datatype Reply = Reply(status: nat, body: Payload)

  /** ErrorResponse sends its code in the body only: the status is always 200. */
  function ErrorResponse(message: string, code: nat): Reply {
    Reply(200, Fault(code, message))
  }

  /** How a command ends: with an answer, with an error after taking effect, or without effect. */
  datatype Wire = Fine | ReplyLost | NotSent

  /** Where a reply is accounted for in the history: at one entry, in the gap between the EXISTS
      and the GET of a read, or not at all. */
  datatype Point = Nowhere | Linearized(at: nat) | Vanished(exists': nat, get: nat)

  /** `Present` is a read between its EXISTS and its GET; `clean` says no command or body read of
      this request failed. */
  datatype Phase = Called | Present(checked: nat) | Answered(reply: Reply, clean: bool, point: Point)

  datatype Request = Request(op: Op, since: nat, phase: Phase)

  // ---------------------------------------------------------------- the sequential specification

  datatype Result = Wrote | Deleted | Found(value: string) | Missing

  /** The history of effects: operations, heartbeats and the passing of time. */
  datatype Event = Did(id: nat, op: Op, result: Result) | Refreshed(key: string, value: string) | Passed(seconds: nat)

  datatype Left = Forever | Seconds(left: nat)

  /** The specification is a map from live keys to their values and the time they have left. */
  datatype Cell = Cell(value: string, left: Left)

  type Live = map<string, Cell>

  function Age(live: Live, seconds: nat): Live {
    map k | k in live && (live[k].left.Seconds? ==> seconds < live[k].left.left) ::
      if live[k].left.Forever? then live[k] else Cell(live[k].value, Seconds(live[k].left.left - seconds))
  }

  function Effect(live: Live, e: Event): Live {
    match e
    case Did(_, Write(k, v), _) => live[k := Cell(v, Forever)]
    case Did(_, Delete(k), _) => live - {k}
    case Did(_, Read(_), _) => live
    case Refreshed(k, v) => live[k := Cell(v, Seconds(HEARTBEAT_TTL))]
    case Passed(seconds) => Age(live, seconds)
  }

  /** The result of every operation is the one the specification gives. */
  predicate Correct(live: Live, e: Event) {
    match e
    case Did(_, Write(_, _), r) => r == Wrote
    case Did(_, Delete(_), r) => r == Deleted
    case Did(_, Read(k), r) => r == if k in live then Found(live[k].value) else Missing
    case _ => true
  }

  function Replay(log: seq<Event>): Live {
    if |log| == 0 then map[] else Effect(Replay(log[..|log| - 1]), log[|log| - 1])
  }

  ghost predicate Legal(log: seq<Event>) {
    forall i :: 0 <= i < |log| ==> Correct(Replay(log[..i]), log[i])
  }

  // ---------------------------------------------------------------- the transition system

  /** `online` says a cache server is configured, so that the pool exists. */
  datatype State = State(online: bool, now: nat, store: Store, requests: map<nat, Request>, log: seq<Event>)

  function Start(online: bool): State {
    State(online, 0, map[], map[], [])
  }

  datatype Action =
    | Invoke(id: nat, op: Op)
    | BodyError(id: nat)
    | DoSet(id: nat, wire: Wire)
    | DoDel(id: nat, wire: Wire)
    | DoExists(id: nat, wire: Wire)
    | DoGet(id: nat, wire: Wire)
    | Heartbeat(host: string, version: string, wire: Wire)
    | Evict(key: string)
    | Wait(seconds: nat)

  predicate InPhase(s: State, id: nat, called: bool) {
    id in s.requests && if called then s.requests[id].phase.Called? else s.requests[id].phase.Present?
  }

  predicate Enabled(s: State, a: Action) {
    match a
    case Invoke(id, _) => id !in s.requests
    case BodyError(id) => InPhase(s, id, true) && s.requests[id].op.Write?
    case DoSet(id, _) => InPhase(s, id, true) && s.requests[id].op.Write?
    case DoDel(id, _) => InPhase(s, id, true) && s.requests[id].op.Delete?
    case DoExists(id, _) => InPhase(s, id, true) && s.requests[id].op.Read?
    case DoGet(id, _) => InPhase(s, id, false) && s.requests[id].op.Read?
    case Heartbeat(_, _, _) => s.online
    case Evict(k) => k in s.store && !Alive(s.store, s.now, k)
    case Wait(_) => true
  }

  function Enter(s: State, id: nat, p: Phase): State
    requires id in s.requests
  {
    s.(requests := s.requests[id := s.requests[id].(phase := p)])
  }

  function Record(s: State, e: Event): State {
    s.(log := s.log + [e])
  }

  /** An operation that took effect now, and the reply it leads to. */
  function Finish(s: State, id: nat, result: Result, reply: Reply, clean: bool): State
    requires id in s.requests
  {
    Record(Enter(s, id, Answered(reply, clean, Linearized(|s.log|))), Did(id, s.requests[id].op, result))
  }

  function Next(s: State, a: Action): State {
    if !Enabled(s, a) then s else
    match a
    case Invoke(id, op) =>
      s.(requests := s.requests[id := Request(op, |s.log|,
           if s.online then Called
           else Answered(ErrorResponse("cache server is offline", 400), true, Nowhere))])
    case BodyError(id) =>
      Enter(s, id, Answered(ErrorResponse("reading the request body failed", 400), false, Nowhere))
    case DoSet(id, wire) =>
      var op := s.requests[id].op;
      var error := ErrorResponse("cache set failed", 500);
      if wire.NotSent? then Enter(s, id, Answered(error, false, Nowhere))
      else Finish(s.(store := s.store[op.key := Entry(op.value, Never)]), id, Wrote,
                  if wire.Fine? then Reply(202, Empty) else error, wire.Fine?)
    case DoDel(id, wire) =>
      if wire.NotSent? then Enter(s, id, Answered(Reply(400, Empty), false, Nowhere))
      else Finish(s.(store := s.store - {s.requests[id].op.key}), id, Deleted,
                  Reply(if wire.Fine? then 202 else 400, Empty), wire.Fine?)
    case DoExists(id, wire) =>
      if !wire.Fine? then Enter(s, id, Answered(Reply(404, Empty), false, Nowhere))
      else if Alive(s.store, s.now, s.requests[id].op.key) then Enter(s, id, Present(|s.log|))
      else Finish(s, id, Missing, Reply(404, Empty), true)
    case DoGet(id, wire) =>
      var key := s.requests[id].op.key;
      if !wire.Fine? then Enter(s, id, Answered(Reply(500, Empty), false, Nowhere))
      else if Alive(s.store, s.now, key)
      then Finish(s, id, Found(s.store[key].value), Reply(200, Value(s.store[key].value)), true)
      else Enter(s, id, Answered(Reply(500, Empty), true, Vanished(s.requests[id].phase.checked, |s.log|)))
    case Heartbeat(host, version, wire) =>
      if wire.NotSent? then s
      else Record(s.(store := s.store[host := Entry(version, At(s.now + HEARTBEAT_TTL))]), Refreshed(host, version))
    case Evict(k) => s.(store := s.store - {k})
    case Wait(seconds) => Record(s.(now := s.now + seconds), Passed(seconds))
  }

  // ---------------------------------------------------------------- linearizability

  /** What the specification knows of the store at a given time. */
  function Abstract(store: Store, now: nat): Live {
    map k | k in store && Alive(store, now, k) ::
      Cell(store[k].value, if store[k].expiry.Never? then Forever else Seconds(store[k].expiry.time - now))
  }

  /** The reply a correct result is due. */
  function Due(result: Result): Reply {
    match result
    case Wrote => Reply(202, Empty)
    case Deleted => Reply(202, Empty)
    case Found(v) => Reply(200, Value(v))
    case Missing => Reply(404, Empty)
  }

  /** A reply accounted for: its entry lies in the lifetime of the request and calls for it; a read
      that found its key gone held it at the EXISTS and no longer at the GET. */
  ghost predicate Accounted(s: State, id: nat)
    requires id in s.requests
  {
    var r := s.requests[id];
    match r.phase
    case Called => s.online && r.since <= |s.log|
    case Present(e) => s.online && r.op.Read? && r.since <= e <= |s.log| && r.op.key in Replay(s.log[..e])
    case Answered(reply, clean, point) =>
      && r.since <= |s.log|
      && (!s.online ==> reply == ErrorResponse("cache server is offline", 400) && point.Nowhere?)
      && (s.online && clean ==> !point.Nowhere?)
      && match point
         case Nowhere => true
         case Linearized(i) =>
           && r.since <= i < |s.log|
           && s.log[i].Did? && s.log[i].id == id && s.log[i].op == r.op
           && (clean ==> reply == Due(s.log[i].result))
         case Vanished(e, g) =>
           && r.op.Read? && reply == Reply(500, Empty)
           && r.since <= e <= g <= |s.log|
           && r.op.key in Replay(s.log[..e]) && r.op.key !in Replay(s.log[..g])
  }

  /** An operation is in the history at most once, and only if its request got that far. */
  ghost predicate Once(s: State) {
    && (forall i :: 0 <= i < |s.log| && s.log[i].Did? ==>
          s.log[i].id in s.requests && s.requests[s.log[i].id].phase.Answered?
          && s.requests[s.log[i].id].phase.point == Linearized(i))
  }

  /** The history is one the specification allows, and ends in the live part of the store. */
  ghost predicate Faithful(s: State) {
    Legal(s.log) && Replay(s.log) == Abstract(s.store, s.now)
  }

  ghost predicate Inv(s: State) {
    && Faithful(s)
    && Once(s)
    && forall id <- s.requests :: Accounted(s, id)
  }

  lemma Extend(log: seq<Event>, e: Event)
    requires Legal(log) && Correct(Replay(log), e)
    ensures Legal(log + [e]) && Replay(log + [e]) == Effect(Replay(log), e)
  {
    assert (log + [e])[..|log|] == log;
    forall i | 0 <= i < |log + [e]| ensures Correct(Replay((log + [e])[..i]), (log + [e])[i]) {
      if i < |log| {
        assert (log + [e])[..i] == log[..i];
      }
    }
  }

  lemma SetRefines(store: Store, now: nat, k: string, v: string)
    ensures Abstract(store[k := Entry(v, Never)], now) == Abstract(store, now)[k := Cell(v, Forever)]
  {
    assert Alive(store[k := Entry(v, Never)], now, k);
    assert forall x :: x != k ==> (Alive(store[k := Entry(v, Never)], now, x) <==> Alive(store, now, x));
  }

  lemma RefreshRefines(store: Store, now: nat, k: string, v: string)
    ensures Abstract(store[k := Entry(v, At(now + HEARTBEAT_TTL))], now) == Abstract(store, now)[k := Cell(v, Seconds(HEARTBEAT_TTL))]
  {
    assert Alive(store[k := Entry(v, At(now + HEARTBEAT_TTL))], now, k);
    assert forall x :: x != k ==> (Alive(store[k := Entry(v, At(now + HEARTBEAT_TTL))], now, x) <==> Alive(store, now, x));
  }

  lemma DelRefines(store: Store, now: nat, k: string)
    ensures Abstract(store - {k}, now) == Abstract(store, now) - {k}
  {
    assert forall x :: x != k ==> (Alive(store - {k}, now, x) <==> Alive(store, now, x));
  }

  lemma WaitRefines(store: Store, now: nat, seconds: nat)
    ensures Abstract(store, now + seconds) == Age(Abstract(store, now), seconds)
  {
    assert forall x :: Alive(store, now + seconds, x) ==> Alive(store, now, x);
  }

  lemma AliveIsLive(s: State, k: string)
    requires Replay(s.log) == Abstract(s.store, s.now)
    ensures Alive(s.store, s.now, k) <==> k in Replay(s.log)
    ensures Alive(s.store, s.now, k) ==> Replay(s.log)[k].value == s.store[k].value
  {
  }

  lemma Recorded(s: State, t: State, e: Event)
    requires Faithful(s) && t.log == s.log + [e] && Correct(Replay(s.log), e)
    requires Abstract(t.store, t.now) == Effect(Abstract(s.store, s.now), e)
    ensures Faithful(t)
  {
    Extend(s.log, e);
  }

  lemma SetFaithful(s: State, id: nat, wire: Wire)
    requires Faithful(s) && Enabled(s, DoSet(id, wire)) && !wire.NotSent?
    ensures Faithful(Next(s, DoSet(id, wire)))
  {
    var op := s.requests[id].op;
    SetRefines(s.store, s.now, op.key, op.value);
    Recorded(s, Next(s, DoSet(id, wire)), Did(id, op, Wrote));
  }

  lemma DelFaithful(s: State, id: nat, wire: Wire)
    requires Faithful(s) && Enabled(s, DoDel(id, wire)) && !wire.NotSent?
    ensures Faithful(Next(s, DoDel(id, wire)))
  {
    var op := s.requests[id].op;
    DelRefines(s.store, s.now, op.key);
    Recorded(s, Next(s, DoDel(id, wire)), Did(id, op, Deleted));
  }

  lemma MissFaithful(s: State, id: nat)
    requires Faithful(s) && Enabled(s, DoExists(id, Fine)) && !Alive(s.store, s.now, s.requests[id].op.key)
    ensures Faithful(Next(s, DoExists(id, Fine)))
  {
    AliveIsLive(s, s.requests[id].op.key);
    Recorded(s, Next(s, DoExists(id, Fine)), Did(id, s.requests[id].op, Missing));
  }

  lemma HitFaithful(s: State, id: nat)
    requires Faithful(s) && Enabled(s, DoGet(id, Fine)) && Alive(s.store, s.now, s.requests[id].op.key)
    ensures Faithful(Next(s, DoGet(id, Fine)))
  {
    var op := s.requests[id].op;
    AliveIsLive(s, op.key);
    Recorded(s, Next(s, DoGet(id, Fine)), Did(id, op, Found(s.store[op.key].value)));
  }

  lemma RefreshFaithful(s: State, host: string, version: string, wire: Wire)
    requires Faithful(s) && s.online && !wire.NotSent?
    ensures Faithful(Next(s, Heartbeat(host, version, wire)))
  {
    RefreshRefines(s.store, s.now, host, version);
    Recorded(s, Next(s, Heartbeat(host, version, wire)), Refreshed(host, version));
  }

  lemma EvictFaithful(s: State, k: string)
    requires Faithful(s) && Enabled(s, Evict(k))
    ensures Faithful(Next(s, Evict(k)))
  {
    DelRefines(s.store, s.now, k);
    assert Abstract(s.store, s.now) - {k} == Abstract(s.store, s.now);
  }

  lemma WaitFaithful(s: State, seconds: nat)
    requires Faithful(s)
    ensures Faithful(Next(s, Wait(seconds)))
  {
    WaitRefines(s.store, s.now, seconds);
    Recorded(s, Next(s, Wait(seconds)), Passed(seconds));
  }

  /** A step with no effect on the store leaves the history alone. */
  lemma QuietFaithful(s: State, t: State)
    requires Faithful(s) && t.log == s.log && t.store == s.store && t.now == s.now
    ensures Faithful(t)
  {
  }

  /** Every step keeps the history legal and in step with the store. */
  lemma FaithfulNext(s: State, a: Action)
    requires Faithful(s)
    ensures Faithful(Next(s, a))
  {
    var t := Next(s, a);
    if t.log == s.log && t.store == s.store && t.now == s.now {
      QuietFaithful(s, t);
    } else {
      match a
      case DoSet(id, wire) => if !wire.NotSent? { SetFaithful(s, id, wire); }
      case DoDel(id, wire) => if !wire.NotSent? { DelFaithful(s, id, wire); }
      case DoExists(id, wire) =>
        if wire.Fine? && !Alive(s.store, s.now, s.requests[id].op.key) { MissFaithful(s, id); }
      case DoGet(id, wire) =>
        if wire.Fine? && Alive(s.store, s.now, s.requests[id].op.key) { HitFaithful(s, id); }
      case Heartbeat(host, version, wire) => if !wire.NotSent? { RefreshFaithful(s, host, version, wire); }
      case Evict(k) => EvictFaithful(s, k);
      case Wait(seconds) => WaitFaithful(s, seconds);
      case _ =>
    }
  }

  lemma AccountedKept(s: State, t: State, id: nat)
    requires id in s.requests && id in t.requests && t.requests[id] == s.requests[id]
    requires s.online == t.online && s.log <= t.log && Accounted(s, id)
    ensures Accounted(t, id)
  {
    match s.requests[id].phase
    case Called =>
    case Present(e) => assert t.log[..e] == s.log[..e];
    case Answered(_, _, point) =>
      if point.Vanished? {
        assert t.log[..point.exists'] == s.log[..point.exists'] && t.log[..point.get] == s.log[..point.get];
      }
  }

  /** Which request a step belongs to. */
  predicate Concerns(a: Action, id: nat) {
    match a
    case Invoke(i, _) => i == id
    case BodyError(i) => i == id
    case DoSet(i, _) => i == id
    case DoDel(i, _) => i == id
    case DoExists(i, _) => i == id
    case DoGet(i, _) => i == id
    case _ => false
  }

  lemma OthersKept(s: State, a: Action, id: nat)
    requires !Concerns(a, id)
    ensures id in Next(s, a).requests <==> id in s.requests
    ensures id in s.requests ==> Next(s, a).requests[id] == s.requests[id]
    ensures s.log <= Next(s, a).log && Next(s, a).online == s.online
  {
  }

  lemma AccountedGet(s: State, id: nat, wire: Wire)
    requires Faithful(s) && id in s.requests && Accounted(s, id)
    ensures Accounted(Next(s, DoGet(id, wire)), id)
  {
    var t := Next(s, DoGet(id, wire));
    if Enabled(s, DoGet(id, wire)) {
      var e := s.requests[id].phase.checked;
      AliveIsLive(s, s.requests[id].op.key);
      assert t.log[..e] == s.log[..e];
      assert t.log[..|s.log|] == s.log == s.log[..|s.log|];
    }
  }

  lemma AccountedExists(s: State, id: nat, wire: Wire)
    requires Faithful(s) && id in s.requests && Accounted(s, id)
    ensures Accounted(Next(s, DoExists(id, wire)), id)
  {
    if Enabled(s, DoExists(id, wire)) {
      AliveIsLive(s, s.requests[id].op.key);
      assert s.log[..|s.log|] == s.log;
    }
  }

  lemma AccountedNext(s: State, a: Action, id: nat)
    requires Faithful(s) && (id in s.requests ==> Accounted(s, id)) && Concerns(a, id) && id in Next(s, a).requests
    ensures Accounted(Next(s, a), id)
  {
    match a
    case DoGet(_, wire) => AccountedGet(s, id, wire);
    case DoExists(_, wire) => AccountedExists(s, id, wire);
    case _ =>
  }

  /** An answered request stays as it is. */
  lemma AnsweredKept(s: State, a: Action, id: nat)
    requires id in s.requests && s.requests[id].phase.Answered?
    ensures id in Next(s, a).requests && Next(s, a).requests[id] == s.requests[id]
  {
  }

  /** A step adds one entry at most, and its own request is then answered by it. */
  lemma Additions(s: State, a: Action)
    ensures var t := Next(s, a);
            && s.log <= t.log && |t.log| <= |s.log| + 1
            && (|t.log| > |s.log| && t.log[|s.log|].Did? ==>
                  var id := t.log[|s.log|].id;
                  id in t.requests && t.requests[id].phase.Answered? && t.requests[id].phase.point == Linearized(|s.log|))
  {
  }

  lemma OnceNext(s: State, a: Action)
    requires Once(s)
    ensures Once(Next(s, a))
  {
    Additions(s, a);
    var t := Next(s, a);
    forall i | 0 <= i < |t.log| && t.log[i].Did?
      ensures t.log[i].id in t.requests && t.requests[t.log[i].id].phase.Answered?
      ensures t.requests[t.log[i].id].phase.point == Linearized(i)
    {
      if i < |s.log| {
        assert t.log[i] == s.log[i];
        AnsweredKept(s, a, s.log[i].id);
      }
    }
  }

  lemma InvNext(s: State, a: Action)
    requires Inv(s)
    ensures Inv(Next(s, a))
  {
    FaithfulNext(s, a);
    OnceNext(s, a);
    forall id <- Next(s, a).requests ensures Accounted(Next(s, a), id) {
      if Concerns(a, id) {
        AccountedNext(s, a, id);
      } else {
        OthersKept(s, a, id);
        AccountedKept(s, Next(s, a), id);
      }
    }
  }

  function After(online: bool, schedule: seq<Action>): State {
    Run(Next, Start(online), schedule)
  }

  /** In every run the history of effects is one the sequential specification allows, it agrees with
      the live part of the store, and every reply is accounted for in it. */
  lemma {:induction false} Safety(online: bool, schedule: seq<Action>)
    ensures Inv(After(online, schedule)) && After(online, schedule).online == online
  {
    var n := |schedule| - 1;
    if n >= 0 {
      var s := After(online, schedule[..n]);
      Safety(online, schedule[..n]);
      InvNext(s, schedule[n]);
      OnlineKept(s, schedule[n]);
      assert After(online, schedule) == Next(s, schedule[n]);
    }
  }

  lemma OnlineKept(s: State, a: Action)
    ensures Next(s, a).online == s.online
  {
  }

  // ---------------------------------------------------------------- what each request is answered

  /** What is live before step `t` of a schedule. */
  function LiveAt(schedule: seq<Action>, t: nat): Live
    requires t <= |schedule|
  {
    Replay(After(true, schedule[..t]).log)
  }

  /** Step `t` of the schedule takes effect. */
  predicate Effective(schedule: seq<Action>, t: nat)
    requires t < |schedule|
  {
    Enabled(After(true, schedule[..t]), schedule[t])
  }

  /** The step that answers a read is its GET, or its EXISTS if that fails or finds nothing. */
  lemma AnsweringStep(s: State, a: Action, id: nat)
    requires s.online && id in Next(s, a).requests && Next(s, a).requests[id].op.Read?
    requires Next(s, a).requests[id].phase.Answered? && !(id in s.requests && s.requests[id].phase.Answered?)
    ensures var r := Next(s, a).requests[id]; var there := Alive(s.store, s.now, r.op.key);
            && Enabled(s, a) && id in s.requests && s.requests[id].op == r.op
            && ((&& a.DoExists? && a.id == id && !(a.wire.Fine? && there)
                 && r.phase.reply == Reply(404, Empty) && (r.phase.clean <==> a.wire.Fine?))
                || (&& a.DoGet? && a.id == id && s.requests[id].phase.Present?
                    && r.phase.reply == (if a.wire.Fine? && there then Reply(200, Value(s.store[r.op.key].value)) else Reply(500, Empty))
                    && (r.phase.clean <==> a.wire.Fine?)))
  {
  }

  lemma CheckingStep(s: State, a: Action, id: nat)
    requires id in Next(s, a).requests && Next(s, a).requests[id].phase.Present?
    requires !(id in s.requests && s.requests[id].phase.Present?)
    ensures a == DoExists(id, Fine) && Enabled(s, a) && s.requests[id].op == Next(s, a).requests[id].op
    ensures Alive(s.store, s.now, s.requests[id].op.key)
  {
  }

  lemma PresentKept(s: State, a: Action, id: nat)
    requires id in s.requests && s.requests[id].phase.Present?
    requires id in Next(s, a).requests && Next(s, a).requests[id].phase.Present?
    ensures Next(s, a).requests[id].op == s.requests[id].op
  {
  }

  lemma LiveIsAlive(schedule: seq<Action>, t: nat, k: string)
    requires t <= |schedule|
    ensures var s := After(true, schedule[..t]);
            && (k in LiveAt(schedule, t) <==> Alive(s.store, s.now, k))
            && (k in LiveAt(schedule, t) ==> LiveAt(schedule, t)[k].value == s.store[k].value)
  {
    assert Faithful(After(true, schedule[..t])) by { Safety(true, schedule[..t]); }
    AliveIsLive(After(true, schedule[..t]), k);
  }

  /** A read between its commands has behind it an EXISTS that found the key live. */
  lemma {:induction false} FoundBefore(schedule: seq<Action>, id: nat) returns (x: nat)
    requires var s := After(true, schedule); id in s.requests && s.requests[id].phase.Present?
    ensures x < |schedule| && schedule[x] == DoExists(id, Fine) && Effective(schedule, x)
    ensures After(true, schedule).requests[id].op.key in LiveAt(schedule, x)
  {
    var n := |schedule| - 1;
    var s := After(true, schedule[..n]);
    if id in s.requests && s.requests[id].phase.Present? {
      PresentKept(s, schedule[n], id);
      x := FoundBefore(schedule[..n], id);
      assert schedule[..n][..x] == schedule[..x];
    } else {
      CheckingStep(s, schedule[n], id);
      x := n;
      LiveIsAlive(schedule, n, s.requests[id].op.key);
    }
  }

  /** Every answered read went by its own commands: an EXISTS at a step x and, if that worked and
      found the key live, a GET at a later step y. The reply says what was live at those two steps;
      without a failing command it is 404 exactly if the key was not live at x, 200 exactly if it was
      live at both, with its value at y, and 500 exactly if it was live at x and no longer at y. */
  lemma {:induction false} ReadReplies(schedule: seq<Action>, id: nat) returns (x: nat, first: Wire, y: nat, second: Wire)
    requires var s := After(true, schedule);
             id in s.requests && s.requests[id].op.Read? && s.requests[id].phase.Answered?
    ensures x < |schedule| && schedule[x] == DoExists(id, first) && Effective(schedule, x)
    ensures y <= |schedule|
    ensures var r := After(true, schedule).requests[id]; var k := r.op.key; var there := first.Fine? && k in LiveAt(schedule, x);
            && (there ==> x < y < |schedule| && schedule[y] == DoGet(id, second) && Effective(schedule, y))
            && (r.phase.clean <==> first.Fine? && (there ==> second.Fine?))
            && r.phase.reply ==
               if !there then Reply(404, Empty)
               else if second.Fine? && k in LiveAt(schedule, y) then Reply(200, Value(LiveAt(schedule, y)[k].value))
               else Reply(500, Empty)
    ensures var r := After(true, schedule).requests[id]; var k := r.op.key;
            r.phase.clean ==>
              && (r.phase.reply.status == 404 <==> k !in LiveAt(schedule, x))
              && (r.phase.reply.status == 200 <==> k in LiveAt(schedule, x) && k in LiveAt(schedule, y))
              && (r.phase.reply.status == 500 <==> k in LiveAt(schedule, x) && k !in LiveAt(schedule, y))
  {
    var n := |schedule| - 1;
    var s := After(true, schedule[..n]);
    if id in s.requests && s.requests[id].phase.Answered? {
      AnsweredKept(s, schedule[n], id);
      x, first, y, second := ReadReplies(schedule[..n], id);
      assert schedule[..n][..x] == schedule[..x] && schedule[..n][..y] == schedule[..y];
    } else {
      OnlineAfter(true, schedule[..n]);
      AnsweringStep(s, schedule[n], id);
      LiveIsAlive(schedule, n, s.requests[id].op.key);
      if schedule[n].DoExists? {
        x, first, y, second := n, schedule[n].wire, n, Fine;
      } else {
        x := FoundBefore(schedule[..n], id);
        first, y, second := Fine, n, schedule[n].wire;
        assert schedule[..n][..x] == schedule[..x];
      }
    }
  }

  lemma OnlineAfter(online: bool, schedule: seq<Action>)
    ensures After(online, schedule).online == online
  {
    Safety(online, schedule);
  }

  /** The two steps are the read's only ones: an EXISTS takes effect once. */
  lemma {:induction false} OneExists(schedule: seq<Action>, id: nat, x: nat, z: nat, first: Wire, again: Wire)
    requires x < z < |schedule| && schedule[x] == DoExists(id, first) && Effective(schedule, x)
    ensures id in After(true, schedule[..z]).requests && !After(true, schedule[..z]).requests[id].phase.Called?
    ensures schedule[z] == DoExists(id, again) ==> !Effective(schedule, z)
  {
    var s := After(true, schedule[..z - 1]);
    assert schedule[..z][..z - 1] == schedule[..z - 1];
    if z - 1 > x {
      OneExists(schedule, id, x, z - 1, first, again);
    }
    CalledOnce(s, schedule[z - 1], id);
  }

  lemma CalledOnce(s: State, a: Action, id: nat)
    requires id in s.requests && (!s.requests[id].phase.Called? || (a.DoExists? && a.id == id && Enabled(s, a)))
    ensures id in Next(s, a).requests && !Next(s, a).requests[id].phase.Called?
  {
  }

  // ---------------------------------------------------------------- what a key holds

  datatype Option<T> = None | Some(value: T)

  /** What the request `id` of a schedule asks for: the operation of its first Invoke. */
  function Asked(schedule: seq<Action>, id: nat): Option<Op> {
    var n := |schedule| - 1;
    if n < 0 then None
    else if Asked(schedule[..n], id).None? && schedule[n].Invoke? && schedule[n].id == id then Some(schedule[n].op)
    else Asked(schedule[..n], id)
  }

  lemma AskedNext(s: State, a: Action, id: nat)
    ensures id in Next(s, a).requests <==> id in s.requests || (a.Invoke? && a.id == id)
    ensures id in Next(s, a).requests ==>
              Next(s, a).requests[id].op == if id in s.requests then s.requests[id].op else a.op
  {
  }

  lemma {:induction false} AskedExactly(online: bool, schedule: seq<Action>, id: nat)
    ensures var s := After(online, schedule);
            && (id in s.requests <==> Asked(schedule, id).Some?)
            && (id in s.requests ==> s.requests[id].op == Asked(schedule, id).value)
  {
    var n := |schedule| - 1;
    if n >= 0 {
      AskedExactly(online, schedule[..n], id);
      AskedNext(After(online, schedule[..n]), schedule[n], id);
    }
  }

  /** The last command on a key that took effect: none or a delete, a client's write, or a heartbeat
      so many seconds ago. */
  datatype Word = Nothing | Stays(value: string) | Leased(value: string, age: nat)

  /** The client's command that an action carries out, if it gets that far. */
  function Command(schedule: seq<Action>, a: Action): Option<Op> {
    match a
    case DoSet(id, wire) => if wire == NotSent then None else Asked(schedule, id)
    case DoDel(id, wire) => if wire == NotSent then None else Asked(schedule, id)
    case _ => None
  }

  function WordNext(w: Word, a: Action, command: Option<Op>, key: string): Word {
    match a
    case Heartbeat(host, version, wire) => if host == key && wire != NotSent then Leased(version, 0) else w
    case Wait(seconds) => if w.Leased? then Leased(w.value, w.age + seconds) else w
    case _ =>
      match command
      case Some(Write(k, v)) => if k == key then Stays(v) else w
      case Some(Delete(k)) => if k == key then Nothing else w
      case _ => w
  }

  function LastWord(schedule: seq<Action>, key: string): Word {
    var n := |schedule| - 1;
    if n < 0 then Nothing
    else if !Effective(schedule, n) then LastWord(schedule[..n], key)
    else WordNext(LastWord(schedule[..n], key), schedule[n], Command(schedule[..n], schedule[n]), key)
  }

  predicate Holds(w: Word) {
    w.Stays? || (w.Leased? && w.age < 60)
  }

  predicate Stored(s: State, key: string, w: Word) {
    match w
    case Nothing => key !in s.store
    case Stays(v) => key in s.store && s.store[key] == Entry(v, Never)
    case Leased(v, age) =>
      && (age < 60 ==> key in s.store)
      && (key in s.store ==> s.store[key].value == v && s.store[key].expiry.At? && s.store[key].expiry.time + age == s.now + 60)
  }

  lemma StoredSet(s: State, id: nat, wire: Wire, key: string, w: Word)
    requires Stored(s, key, w) && Enabled(s, DoSet(id, wire))
    ensures var command := if wire == NotSent then None else Some(s.requests[id].op);
            Stored(Next(s, DoSet(id, wire)), key, WordNext(w, DoSet(id, wire), command, key))
  {
  }

  lemma StoredDel(s: State, id: nat, wire: Wire, key: string, w: Word)
    requires Stored(s, key, w) && Enabled(s, DoDel(id, wire))
    ensures var command := if wire == NotSent then None else Some(s.requests[id].op);
            Stored(Next(s, DoDel(id, wire)), key, WordNext(w, DoDel(id, wire), command, key))
  {
  }

  lemma StoredOther(s: State, a: Action, key: string, w: Word)
    requires Stored(s, key, w) && Enabled(s, a) && !a.DoSet? && !a.DoDel?
    ensures Stored(Next(s, a), key, WordNext(w, a, None, key))
  {
  }

  lemma StoredNext(schedule: seq<Action>, a: Action, key: string)
    requires var s := After(true, schedule); Enabled(s, a) && Stored(s, key, LastWord(schedule, key))
    ensures Stored(Next(After(true, schedule), a), key, WordNext(LastWord(schedule, key), a, Command(schedule, a), key))
  {
    var s, w := After(true, schedule), LastWord(schedule, key);
    match a
    case DoSet(id, wire) => AskedExactly(true, schedule, id); StoredSet(s, id, wire, key, w);
    case DoDel(id, wire) => AskedExactly(true, schedule, id); StoredDel(s, id, wire, key, w);
    case _ => StoredOther(s, a, key, w);
  }

  /** The last command on a key decides: a client's write stays, without expiry, until the next command
      on the key; a delete removes it; and a heartbeat's entry lasts for less than 60 seconds. */
  lemma {:induction false} LastWordWins(schedule: seq<Action>, key: string)
    ensures var s := After(true, schedule); var w := LastWord(schedule, key);
            && Stored(s, key, w)
            && (Alive(s.store, s.now, key) <==> Holds(w))
            && (Holds(w) ==> s.store[key].value == w.value)
  {
    var n := |schedule| - 1;
    if n >= 0 {
      LastWordWins(schedule[..n], key);
      if Effective(schedule, n) {
        StoredNext(schedule[..n], schedule[n], key);
      }
    }
  }

  /** What an answered read says is the last word on its key at its own two commands. */
  lemma ReadsLastWord(schedule: seq<Action>, id: nat, key: string) returns (x: nat, first: Wire, y: nat, second: Wire)
    requires var s := After(true, schedule); id in s.requests && s.requests[id].phase.Answered?
    requires Asked(schedule, id) == Some(Read(key))
    ensures x < |schedule| && schedule[x] == DoExists(id, first) && Effective(schedule, x)
    ensures y <= |schedule|
    ensures var reply := After(true, schedule).requests[id].phase.reply;
            if first != Fine || !Holds(LastWord(schedule[..x], key)) then reply == Reply(404, Empty)
            else && x < y < |schedule| && schedule[y] == DoGet(id, second) && Effective(schedule, y)
                 && var w := LastWord(schedule[..y], key);
                    reply == if second == Fine && Holds(w) then Reply(200, Value(w.value)) else Reply(500, Empty)
  {
    AskedExactly(true, schedule, id);
    x, first, y, second := ReadReplies(schedule, id);
    LiveIsAlive(schedule, x, key);
    LastWordWins(schedule[..x], key);
    LiveIsAlive(schedule, y, key);
    LastWordWins(schedule[..y], key);
  }

  // ---------------------------------------------------------------- the statuses of failures

  /** How the replies of a request may look, by what was asked and whether something failed. */
  predicate Replied(online: bool, r: Request) {
    && (!online ==> r.phase.Answered?)
    && (r.phase.Answered? ==>
      var reply := r.phase.reply;
      if !online then reply == ErrorResponse("cache server is offline", 400)
      else match r.op
           case Write(_, _) =>
             if r.phase.clean then reply == Reply(202, Empty)
             else reply in {ErrorResponse("reading the request body failed", 400), ErrorResponse("cache set failed", 500)}
           case Delete(_) => reply == Reply(if r.phase.clean then 202 else 400, Empty)
           case Read(_) =>
             if r.phase.clean then reply in {Reply(404, Empty), Reply(500, Empty)} || (reply.status == 200 && reply.body.Value?)
             else reply in {Reply(404, Empty), Reply(500, Empty)})
  }

  lemma RepliedNext(s: State, a: Action, id: nat)
    requires id in s.requests ==> Replied(s.online, s.requests[id])
    ensures id in Next(s, a).requests ==> Replied(s.online, Next(s, a).requests[id])
  {
  }

  lemma {:induction false} RepliedAlong(online: bool, schedule: seq<Action>, id: nat)
    ensures var s := After(online, schedule); id in s.requests ==> Replied(online, s.requests[id])
  {
    var n := |schedule| - 1;
    if n >= 0 {
      RepliedAlong(online, schedule[..n], id);
      OnlineAfter(online, schedule[..n]);
      RepliedNext(After(online, schedule[..n]), schedule[n], id);
    }
  }

  /** ErrorResponse is never answered with the code it is given but always with 200, and it is what a
      request gets exactly if there is no cache server or a write fails. The other failures are told
      by the status: 400 for a delete, 404 or 500 for a read. */
  lemma ErrorsAs200(online: bool, schedule: seq<Action>, id: nat)
    requires id in After(online, schedule).requests && After(online, schedule).requests[id].phase.Answered?
    ensures var r := After(online, schedule).requests[id]; var reply := r.phase.reply;
            && (reply.status == 200 && reply.body.Fault? <==> !online || (r.op.Write? && !r.phase.clean))
            && (reply.body.Fault? ==> reply.status == 200 != reply.body.code)
            && (online && !r.phase.clean && r.op.Delete? ==> reply == Reply(400, Empty))
            && (online && !r.phase.clean && r.op.Read? ==> reply in {Reply(404, Empty), Reply(500, Empty)})
  {
    RepliedAlong(online, schedule, id);
  }

  /** Without a cache server nothing is ever stored, by a client or by the heartbeat. */
  lemma {:induction false} OfflineStoresNothing(schedule: seq<Action>)
    ensures After(false, schedule).store == map[]
  {
    var n := |schedule| - 1;
    if n >= 0 {
      OfflineStoresNothing(schedule[..n]);
      OnlineAfter(false, schedule[..n]);
      var s := After(false, schedule[..n]);
      forall id | id in s.requests ensures s.requests[id].phase.Answered? {
        RepliedAlong(false, schedule[..n], id);
      }
      assert Next(s, schedule[n]).store == map[];
    }
  }

  /** A write or delete without failing command answers 202 and takes effect at one moment of its
      lifetime; one whose command failed is never answered 202, and took effect at one such moment or
      is nowhere in the history. */
  lemma MutationReplies(schedule: seq<Action>, id: nat)
    requires var s := After(true, schedule);
             id in s.requests && !s.requests[id].op.Read? && s.requests[id].phase.Answered?
    ensures var s := After(true, schedule); var r := s.requests[id];
            && (r.phase.clean ==> r.phase.point.Linearized?)
            && (r.phase.clean <==> r.phase.reply.status == 202)
            && (r.phase.point.Linearized? ==>
                  r.since <= r.phase.point.at < |s.log| &&
                  s.log[r.phase.point.at] == Did(id, r.op, if r.op.Write? then Wrote else Deleted))
            && (forall i :: 0 <= i < |s.log| && s.log[i].Did? && s.log[i].id == id ==> r.phase.point == Linearized(i))
  {
    Safety(true, schedule);
    RepliedAlong(true, schedule, id);
    var s := After(true, schedule);
    assert Accounted(s, id);
    if s.requests[id].phase.point.Linearized? {
      var i := s.requests[id].phase.point.at;
      assert Correct(Replay(s.log[..i]), s.log[i]);
    }
  }

  /** `first` is answered, and `second`, if it has come in since `s`, came in after that. */
  ghost predicate Succeeds(s: State, t: State, first: nat, second: nat)
    requires first in s.requests
  {
    && |s.log| <= |t.log|
    && first in t.requests && t.requests[first] == s.requests[first]
    && (second in t.requests ==> t.requests[second].since >= |s.log|)
  }

  lemma SucceedsNext(s: State, t: State, a: Action, first: nat, second: nat)
    requires first in s.requests && s.requests[first].phase.Answered? && Succeeds(s, t, first, second)
    ensures Succeeds(s, Next(t, a), first, second)
  {
  }

  lemma {:induction false} SucceedsAlong(online: bool, schedule: seq<Action>, k: nat, first: nat, second: nat)
    requires k <= |schedule|
    requires var s := After(online, schedule[..k]);
             first in s.requests && s.requests[first].phase.Answered? && second !in s.requests
    ensures Succeeds(After(online, schedule[..k]), After(online, schedule), first, second)
  {
    var n := |schedule| - 1;
    if n >= k {
      assert schedule[..n][..k] == schedule[..k];
      SucceedsAlong(online, schedule[..n], k, first, second);
      SucceedsNext(After(online, schedule[..k]), After(online, schedule[..n]), schedule[n], first, second);
    } else {
      assert schedule[..k] == schedule;
    }
  }

  /** The order of the history respects real time: a request answered before another came in is
      before it in the history. */
  lemma RealTimeOrder(online: bool, schedule: seq<Action>, k: nat, first: nat, second: nat)
    requires k <= |schedule|
    requires var s := After(online, schedule[..k]);
             first in s.requests && s.requests[first].phase.Answered? && second !in s.requests
    requires var t := After(online, schedule);
             second in t.requests && t.requests[second].phase.Answered? && t.requests[second].phase.point.Linearized?
    ensures var s := After(online, schedule[..k]); var t := After(online, schedule);
            && first in t.requests && t.requests[first] == s.requests[first]
            && (s.requests[first].phase.point.Linearized? ==>
                  s.requests[first].phase.point.at < t.requests[second].phase.point.at)
  {
    SucceedsAlong(online, schedule, k, first, second);
    PointsInOrder(online, schedule[..k], first);
    PointsInOrder(online, schedule, second);
  }

  lemma PointsInOrder(online: bool, schedule: seq<Action>, id: nat)
    requires var s := After(online, schedule); id in s.requests && s.requests[id].phase.Answered?
    ensures var s := After(online, schedule); var r := s.requests[id];
            r.phase.point.Linearized? ==> r.since <= r.phase.point.at < |s.log|
  {
    Safety(online, schedule);
    assert Accounted(After(online, schedule), id);
  }

  const RACE := [Heartbeat("host", "1", Fine), Invoke(0, Read("host")), DoExists(0, Fine), Wait(60), DoGet(0, Fine)]

  lemma RaceStep(k: nat)
    requires k < |RACE|
    ensures After(true, RACE[..k + 1]) == Next(After(true, RACE[..k]), RACE[k])
  {
    Snoc(Next, Start(true), RACE[..k], RACE[k]);
    assert RACE[..k + 1] == RACE[..k] + [RACE[k]];
  }

  lemma RaceOpens()
    ensures After(true, RACE[..2]) ==
            State(true, 0, map["host" := Entry("1", At(60))], map[0 := Request(Read("host"), 1, Called)], [Refreshed("host", "1")])
  {
    assert RACE[..0] == [];
    RaceStep(0);
    RaceStep(1);
  }

  lemma RaceRuns()
    ensures var s := After(true, RACE[..4]);
            && s.online && s.now == 60 && s.store == map["host" := Entry("1", At(60))]
            && s.requests == map[0 := Request(Read("host"), 1, Present(1))]
  {
    RaceOpens();
    RaceStep(2);
    RaceStep(3);
  }

  /** The 500 of a read does happen, without any command failing: the heartbeat's key expires
      between the EXISTS and the GET. */
  lemma ReadLosesRace()
    ensures var s := After(true, RACE);
            && 0 in s.requests && s.requests[0].phase.Answered? && s.requests[0].phase.clean
            && s.requests[0].phase.reply == Reply(500, Empty)
  {
    RaceRuns();
    RaceStep(4);
    assert RACE[..5] == RACE;
  }

  // ---------------------------------------------------------------- the heartbeat's lease

  predicate Overwrites(e: Event, host: string) {
    e.Did? && !e.op.Read? && e.op.key == host
  }

  /** The time since the last refresh of the key, or -1 if there was none. */
  function Elapsed(log: seq<Event>, host: string): int {
    if |log| == 0 then -1 else
    var before := Elapsed(log[..|log| - 1], host);
    match log[|log| - 1]
    case Refreshed(h, _) => if h == host then 0 else before
    case Passed(seconds) => if before < 0 then before else before + seconds
    case _ => before
  }

  /** As long as no client writes or deletes it, the version key is there exactly in the 60 seconds
      after a refresh. */
  lemma {:induction false} Lease(log: seq<Event>, host: string)
    requires forall e <- log :: !Overwrites(e, host)
    ensures -1 <= Elapsed(log, host)
    ensures host in Replay(log) <==> 0 <= Elapsed(log, host) < HEARTBEAT_TTL
    ensures host in Replay(log) ==> Replay(log)[host].left == Seconds(HEARTBEAT_TTL - Elapsed(log, host))
  {
    var n := |log| - 1;
    if n >= 0 {
      Lease(log[..n], host);
      LeaseStep(log[..n], log[n], host);
      assert log[..n] + [log[n]] == log;
    }
  }

  lemma LeaseStep(log: seq<Event>, e: Event, host: string)
    requires !Overwrites(e, host) && -1 <= Elapsed(log, host)
    requires host in Replay(log) <==> 0 <= Elapsed(log, host) < HEARTBEAT_TTL
    requires host in Replay(log) ==> Replay(log)[host].left == Seconds(HEARTBEAT_TTL - Elapsed(log, host))
    ensures -1 <= Elapsed(log + [e], host)
    ensures host in Replay(log + [e]) <==> 0 <= Elapsed(log + [e], host) < HEARTBEAT_TTL
    ensures host in Replay(log + [e]) ==>
              Replay(log + [e])[host].left == Seconds(HEARTBEAT_TTL - Elapsed(log + [e], host))
  {
    assert (log + [e])[..|log|] == log;
    assert Replay(log + [e]) == Effect(Replay(log), e);
  }

  /** The heartbeat as a schedule tells it: whether an attempt has succeeded yet, how many have failed
      since the last one that did, and the time since the last attempt. */
  datatype Beat = Beat(ok: bool, failures: nat, since: nat)

  function BeatNext(b: Beat, a: Action, host: string): Beat {
    match a
    case Heartbeat(h, _, wire) =>
      if h != host then b else if wire.NotSent? then b.(failures := b.failures + 1, since := 0) else Beat(true, 0, 0)
    case Wait(seconds) => b.(since := b.since + seconds)
    case _ => b
  }

  function Beats(schedule: seq<Action>, host: string): Beat {
    if |schedule| == 0 then Beat(false, 0, 0)
    else BeatNext(Beats(schedule[..|schedule| - 1], host), schedule[|schedule| - 1], host)
  }

  /** After the first success no attempt comes later than the period after the one before it; and
      with `exact`, none comes earlier either. */
  ghost predicate OnTime(schedule: seq<Action>, host: string, exact: bool) {
    forall t: nat :: t < |schedule| ==> Timely(Beats(schedule[..t], host), schedule[t], host, exact)
  }

  predicate Timely(b: Beat, a: Action, host: string, exact: bool) {
    a.Heartbeat? && a.host == host && b.ok ==> b.since <= PERIOD && (exact ==> b.since == PERIOD)
  }

  const PERIOD := 30

  /** No client writes or deletes the key. */
  predicate LeftAlone(schedule: seq<Action>, host: string) {
    forall a <- schedule :: a.Invoke? ==> a.op.Read? || a.op.key != host
  }

  predicate Harmless(op: Op, host: string) {
    op.Read? || op.key != host
  }

  lemma HarmlessNext(s: State, a: Action, host: string)
    requires forall id <- s.requests :: Harmless(s.requests[id].op, host)
    requires a.Invoke? ==> Harmless(a.op, host)
    ensures forall id <- Next(s, a).requests :: Harmless(Next(s, a).requests[id].op, host)
    ensures var t := Next(s, a); t.log == s.log || (t.log == s.log + [t.log[|s.log|]] && !Overwrites(t.log[|s.log|], host))
  {
  }

  lemma {:induction false} NeverOverwritten(schedule: seq<Action>, host: string)
    requires LeftAlone(schedule, host)
    ensures forall id <- After(true, schedule).requests :: Harmless(After(true, schedule).requests[id].op, host)
    ensures forall e <- After(true, schedule).log :: !Overwrites(e, host)
  {
    var n := |schedule| - 1;
    if n >= 0 {
      NeverOverwritten(schedule[..n], host);
      HarmlessNext(After(true, schedule[..n]), schedule[n], host);
    }
  }

  lemma ElapsedStep(log: seq<Event>, e: Event, host: string)
    ensures Elapsed(log + [e], host) ==
            match e
            case Refreshed(h, _) => if h == host then 0 else Elapsed(log, host)
            case Passed(seconds) => if Elapsed(log, host) < 0 then Elapsed(log, host) else Elapsed(log, host) + seconds
            case _ => Elapsed(log, host)
  {
    assert (log + [e])[..|log|] == log;
  }

  lemma LogNext(s: State, a: Action)
    requires s.online
    ensures var t := Next(s, a);
            match a
            case Heartbeat(h, v, wire) => t.log == if wire.NotSent? then s.log else s.log + [Refreshed(h, v)]
            case Wait(seconds) => t.log == s.log + [Passed(seconds)]
            case _ => t.log == s.log || (|t.log| > |s.log| && t.log[|s.log|].Did? && t.log == s.log + [t.log[|s.log|]])
  {
  }

  lemma ElapsedNext(s: State, a: Action, host: string)
    requires s.online
    ensures var before := Elapsed(s.log, host);
            Elapsed(Next(s, a).log, host) ==
            match a
            case Heartbeat(h, _, wire) => if h == host && !wire.NotSent? then 0 else before
            case Wait(seconds) => if before < 0 then before else before + seconds
            case _ => before
  {
    LogNext(s, a);
    var t := Next(s, a);
    if t.log != s.log {
      ElapsedStep(s.log, t.log[|s.log|], host);
    }
  }

  /** The age of the key in terms of the attempts. */
  lemma {:induction false} ElapsedByBeats(schedule: seq<Action>, host: string, exact: bool)
    requires OnTime(schedule, host, exact)
    ensures var b := Beats(schedule, host); var e := Elapsed(After(true, schedule).log, host);
            && (!b.ok ==> e == -1)
            && (b.ok ==> 0 <= e <= PERIOD * b.failures + b.since)
            && (b.ok && exact ==> e == PERIOD * b.failures + b.since)
  {
    var n := |schedule| - 1;
    if n >= 0 {
      forall t: nat | t < n ensures Timely(Beats(schedule[..n][..t], host), schedule[..n][t], host, exact) {
        assert schedule[..n][..t] == schedule[..t];
      }
      ElapsedByBeats(schedule[..n], host, exact);
      OnlineAfter(true, schedule[..n]);
      ElapsedNext(After(true, schedule[..n]), schedule[n], host);
      assert Timely(Beats(schedule[..n], host), schedule[n], host, exact);
    }
  }

  lemma LeaseAlong(schedule: seq<Action>, host: string)
    requires LeftAlone(schedule, host)
    ensures var s := After(true, schedule);
            Alive(s.store, s.now, host) <==> 0 <= Elapsed(s.log, host) < HEARTBEAT_TTL
  {
    NeverOverwritten(schedule, host);
    Lease(After(true, schedule).log, host);
    LiveIsAlive(schedule, |schedule|, host);
    assert schedule[..|schedule|] == schedule;
  }

  /** The lease, whatever other clients do to other keys: with an attempt at least every 30 seconds the
      version key is there as long as 30 seconds for each failure since the last success, and the time
      since the last attempt, stay below 60 together. */
  lemma LeaseHolds(schedule: seq<Action>, host: string)
    requires LeftAlone(schedule, host) && OnTime(schedule, host, false)
    ensures var s := After(true, schedule); var b := Beats(schedule, host);
            b.ok && PERIOD * b.failures + b.since < HEARTBEAT_TTL ==> Alive(s.store, s.now, host)
  {
    ElapsedByBeats(schedule, host, false);
    LeaseAlong(schedule, host);
  }

  /** With a punctual ticker that is exactly when it is there. */
  lemma LeaseExactly(schedule: seq<Action>, host: string)
    requires LeftAlone(schedule, host) && OnTime(schedule, host, true)
    ensures var s := After(true, schedule); var b := Beats(schedule, host);
            Alive(s.store, s.now, host) <==> b.ok && PERIOD * b.failures + b.since < HEARTBEAT_TTL
  {
    ElapsedByBeats(schedule, host, true);
    LeaseAlong(schedule, host);
  }

  /** So a single failure opens a gap: at the moment the next tick is due the key is already gone. */
  lemma GapAfterOneFailure(host: string, version: string)
    ensures var schedule := [Heartbeat(host, version, Fine), Wait(30), Heartbeat(host, version, NotSent), Wait(30)];
            var s := After(true, schedule);
            LeftAlone(schedule, host) && OnTime(schedule, host, true) && !Alive(s.store, s.now, host)
  {
    var schedule := [Heartbeat(host, version, Fine), Wait(30), Heartbeat(host, version, NotSent), Wait(30)];
    assert Beats(schedule[..0], host) == Beat(false, 0, 0);
    BeatsStep(schedule, 0, host);
    BeatsStep(schedule, 1, host);
    BeatsStep(schedule, 2, host);
    BeatsStep(schedule, 3, host);
    assert schedule[..4] == schedule;
    LeaseExactly(schedule, host);
  }

  lemma BeatsStep(schedule: seq<Action>, k: nat, host: string)
    requires k < |schedule|
    ensures Beats(schedule[..k + 1], host) == BeatNext(Beats(schedule[..k], host), schedule[k], host)
  {
    assert schedule[..k + 1][..k] == schedule[..k];
  }

  // ---------------------------------------------------------------- the handlers in place

  /** An answered request has an entry in the history exactly if it is accounted for by one. */
  lemma InTheLog(online: bool, schedule: seq<Action>, id: nat)
    requires var s := After(online, schedule); id in s.requests && s.requests[id].phase.Answered?
    ensures var s := After(online, schedule);
            s.requests[id].phase.point.Linearized? <==> exists e <- s.log :: e.Did? && e.id == id
  {
    Safety(online, schedule);
    var s := After(online, schedule);
    assert Accounted(s, id);
    if s.requests[id].phase.point.Linearized? {
      assert s.log[s.requests[id].phase.point.at] in s.log;
    }
  }

  /** A server and the store it shares with everybody else. */
  class Server {
    var redis: State
    ghost var history: seq<Action>
    ghost const online: bool

    ghost predicate Valid()
      reads this
    {
      redis == After(online, history) && redis.online == online
    }

    method Do(a: Action)
      requires Valid()
      modifies this
      ensures Valid() && history == old(history) + [a] && redis == Next(old(redis), a)
    {
      Snoc(Next, Start(online), history, a);
      OnlineKept(redis, a);
      redis, history := Next(redis, a), history + [a];
    }

    /** Steps of other requests, the heartbeat, expiry and time. */
    method Others(id: nat, steps: seq<Action>)
      requires Valid() && id in redis.requests && forall a <- steps :: !Concerns(a, id)
      modifies this
      ensures Valid() && history == old(history) + steps
      ensures id in redis.requests && redis.requests[id] == old(redis).requests[id]
    {
      for i := 0 to |steps|
        invariant Valid() && history == old(history) + steps[..i]
        invariant id in redis.requests && redis.requests[id] == old(redis).requests[id]
      {
        OthersKept(redis, steps[i], id);
        Do(steps[i]);
      }
      assert steps[..|steps|] == steps;
    }

    /** The reply is the one the run records for this request, and so, by Safety, accounted for. */
    ghost predicate Answers(id: nat, op: Op, reply: Reply)
      reads this
    {
      && id in redis.requests && redis.requests[id].op == op
      && redis.requests[id].phase.Answered? && redis.requests[id].phase.reply == reply
    }

    /** The EXISTS of a read: its answer, if the command is fine. */
    method DoExistsFor(id: nat, key: string, wire: Wire) returns (ok: bool)
      requires Valid() && InPhase(redis, id, true) && redis.requests[id].op == Read(key)
      modifies this
      ensures Valid() && history == old(history) + [DoExists(id, wire)]
      ensures ok <==> wire.Fine? && Alive(old(redis).store, old(redis).now, key)
      ensures if ok then InPhase(redis, id, false) && redis.requests[id].op == Read(key)
              else Answers(id, Read(key), Reply(404, Empty))
    {
      ok := wire.Fine? && Alive(redis.store, redis.now, key);
      Do(DoExists(id, wire));
    }

    /** The GET of a read: the value, or nothing if the key is gone or the command fails. */
    method DoGetFor(id: nat, key: string, wire: Wire) returns (data: seq<string>)
      requires Valid() && InPhase(redis, id, false) && redis.requests[id].op == Read(key)
      modifies this
      ensures Valid() && history == old(history) + [DoGet(id, wire)]
      ensures data == if wire.Fine? && Alive(old(redis).store, old(redis).now, key) then [old(redis).store[key].value] else []
      ensures Answers(id, Read(key), if data == [] then Reply(500, Empty) else Reply(200, Value(data[0])))
    {
      data := if wire.Fine? && Alive(redis.store, redis.now, key) then [redis.store[key].value] else [];
      Do(DoGet(id, wire));
    }

    /** A read whose commands end as `first` and `second` say, with the steps `before` its EXISTS and
        `between` that and its GET taken by others. */
    method CacheRead(id: nat, key: string, first: Wire, second: Wire, before: seq<Action>, between: seq<Action>)
      returns (reply: Reply)
      requires Valid() && id !in redis.requests
      requires forall a <- before + between :: !Concerns(a, id)
      modifies this
      ensures Valid() && Answers(id, Read(key), reply)
      ensures var called := old(history) + [Invoke(id, Read(key))];
              var checked := called + before + [DoExists(id, first)];
              var s, t := After(online, called + before), After(online, checked + between);
              if !online then history == called && reply == Reply(200, Fault(400, "cache server is offline"))
              else if !first.Fine? || !Alive(s.store, s.now, key) then history == checked && reply == Reply(404, Empty)
              else history == checked + between + [DoGet(id, second)] &&
                   reply == if second.Fine? && Alive(t.store, t.now, key) then Reply(200, Value(t.store[key].value))
                            else Reply(500, Empty)
    {
      Do(Invoke(id, Read(key)));
      if !redis.online {
        reply := ErrorResponse("cache server is offline", 400);
      } else {
        Others(id, before);
        var ok := DoExistsFor(id, key, first);
        if !ok {
          reply := Reply(404, Empty);
        } else {
          Others(id, between);
          var data := DoGetFor(id, key, second);
          reply := if data == [] then Reply(500, Empty) else Reply(200, Value(data[0]));
        }
      }
    }

    /** A write whose body can be read or not and whose SET ends as `wire` says, with the steps `before`
        it taken by others. A body that cannot be read leaves nothing in the history of effects. */
    method CacheWrite(id: nat, key: string, body: string, readable: bool, wire: Wire, before: seq<Action>) returns (reply: Reply)
      requires Valid() && id !in redis.requests
      requires forall a <- before :: !Concerns(a, id)
      modifies this
      ensures Valid() && Answers(id, Write(key, body), reply)
      ensures var called := old(history) + [Invoke(id, Write(key, body))];
              if !online then history == called && reply == Reply(200, Fault(400, "cache server is offline"))
              else if !readable
              then history == called + [BodyError(id)] && reply == Reply(200, Fault(400, "reading the request body failed"))
              else history == called + before + [DoSet(id, wire)] &&
                   reply == if wire.Fine? then Reply(202, Empty) else Reply(200, Fault(500, "cache set failed"))
      ensures readable && online && !wire.NotSent? <==> exists e <- redis.log :: e.Did? && e.id == id
    {
      Do(Invoke(id, Write(key, body)));
      if !redis.online {
        reply := ErrorResponse("cache server is offline", 400);
      } else if !readable {
        Do(BodyError(id));
        reply := ErrorResponse("reading the request body failed", 400);
      } else {
        Others(id, before);
        Do(DoSet(id, wire));
        reply := if wire.Fine? then Reply(202, Empty) else ErrorResponse("cache set failed", 500);
      }
      InTheLog(online, history, id);
    }

    method CacheDelete(id: nat, key: string, wire: Wire, before: seq<Action>) returns (reply: Reply)
      requires Valid() && id !in redis.requests
      requires forall a <- before :: !Concerns(a, id)
      modifies this
      ensures Valid() && Answers(id, Delete(key), reply)
      ensures var called := old(history) + [Invoke(id, Delete(key))];
              if !online then history == called && reply == Reply(200, Fault(400, "cache server is offline"))
              else history == called + before + [DoDel(id, wire)] && reply == Reply(if wire.Fine? then 202 else 400, Empty)
      ensures online && !wire.NotSent? <==> exists e <- redis.log :: e.Did? && e.id == id
    {
      Do(Invoke(id, Delete(key)));
      if !redis.online {
        reply := ErrorResponse("cache server is offline", 400);
      } else {
        Others(id, before);
        Do(DoDel(id, wire));
        reply := Reply(if wire.Fine? then 202 else 400, Empty);
      }
      InTheLog(online, history, id);
    }
  }
}
