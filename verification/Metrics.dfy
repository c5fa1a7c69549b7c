/** The Prometheus middleware of pkg/api/http/metrics.go: the status it records for a request
    against the status on the wire, and the two metrics it keeps under concurrent requests. */
module StatusRecorder {

  /** net/http refuses other codes with a panic. */
  type Code = c: nat | 100 <= c <= 999 witness 200

  const OK: Code := 200

  /** What a handler does with its ResponseWriter; writes and flushes bypass the interceptor. */
  datatype Call = WriteHeader(code: Code) | Write | Flush

  /** A status that settles the response, unlike the informational ones (101 settles it too). */
  predicate Final(code: Code) {
    code >= 200 || code == 101
  }

  datatype Committed = Open | Sent(status: Code)

  /** The status line of the response after one more call. */
  function Commit(c: Committed, call: Call): Committed {
    if c.Sent? then c
    else match call
         case WriteHeader(code) => if Final(code) then Sent(code) else Open
         case Write => Sent(OK)
         case Flush => Sent(OK)
  }

  function After(calls: seq<Call>): Committed {
    if |calls| == 0 then Open else Commit(After(calls[..|calls| - 1]), calls[|calls| - 1])
  }

  /** A handler that returns without settling the status has answered 200. */
  function WireStatus(calls: seq<Call>): Code {
    match After(calls)
    case Open => OK
    case Sent(status) => status
  }

  /** The position of the first WriteHeader, or the number of calls if there is none. */
  function FirstHeader(calls: seq<Call>): (n: nat)
    ensures n <= |calls|
    ensures n < |calls| ==> calls[n].WriteHeader?
    ensures forall i :: 0 <= i < n ==> !calls[i].WriteHeader?
  {
    if |calls| == 0 then 0
    else
      var n := FirstHeader(calls[..|calls| - 1]);
      if n < |calls| - 1 || calls[|calls| - 1].WriteHeader? then n else |calls|
  }

  function RecordedStatus(calls: seq<Call>): Code {
    var n := FirstHeader(calls);
    if n < |calls| then calls[n].code else OK
  }

  /** The first commitment of the wire, in closed form. */
  lemma {:induction false} WireByFirstHeader(calls: seq<Call>)
    ensures var n := FirstHeader(calls);
            && (n == |calls| ==> After(calls) == if |calls| == 0 then Open else Sent(OK))
            && (0 < n < |calls| ==> After(calls) == Sent(OK))
            && (n == 0 < |calls| && Final(calls[0].code) ==> After(calls) == Sent(calls[0].code))
            && (n == 0 < |calls| && !Final(calls[0].code) ==> After(calls).Open? || Final(After(calls).status))
  {
    if |calls| > 0 {
      WireByFirstHeader(calls[..|calls| - 1]);
    }
  }

  /** The recorded status is the one on the wire exactly if the handler writes no header, or its
      first header is final and comes before every Write and Flush, or says 200 anyway. */
  lemma AgreesExactly(calls: seq<Call>)
    ensures var n := FirstHeader(calls);
            RecordedStatus(calls) == WireStatus(calls)
            <==> n == |calls| || ((calls[n].code >= 200 || calls[n].code == 101) && (calls[n].code == 200 || n == 0))
  {
    WireByFirstHeader(calls);
  }

  /** The call settles the response: a Write, a Flush, or a header that is not informational. */
  predicate Settles(call: Call) {
    call.WriteHeader? ==> call.code >= 200 || call.code == 101
  }

  /** The status on the wire is that of the first call to settle the response, 200 for a Write or a
      Flush, and 200 if there is none. */
  lemma {:induction false} WireExactly(calls: seq<Call>, first: nat)
    requires first <= |calls| && forall j :: 0 <= j < first ==> !Settles(calls[j])
    requires first < |calls| ==> Settles(calls[first])
    ensures After(calls).Open? <==> first == |calls|
    ensures WireStatus(calls) == if first < |calls| && calls[first].WriteHeader? then calls[first].code else 200
  {
    var n := |calls| - 1;
    if n >= 0 {
      WireExactly(calls[..n], if first < n then first else n);
    }
  }

  /** The recorded status is the code of the first header, and 200 if there is none. */
  lemma RecordedExactly(calls: seq<Call>, first: nat)
    requires first <= |calls| && forall j :: 0 <= j < first ==> !calls[j].WriteHeader?
    requires first < |calls| ==> calls[first].WriteHeader?
    ensures RecordedStatus(calls) == if first < |calls| then calls[first].code else 200
  {
    assert FirstHeader(calls) == first;
  }

  /** A header once seen settles the recorded status, and a response once committed the status on
      the wire: the two are settled by different calls. */
  lemma {:induction false} LaterCallsChangeNothing(calls: seq<Call>, more: seq<Call>)
    ensures After(calls).Sent? ==> After(calls + more) == After(calls) && WireStatus(calls + more) == WireStatus(calls)
    ensures FirstHeader(calls) < |calls| ==>
              FirstHeader(calls + more) == FirstHeader(calls) && RecordedStatus(calls + more) == RecordedStatus(calls)
  {
    if |more| == 0 {
      assert calls + more == calls;
    } else {
      var n := |more| - 1;
      assert (calls + more)[..|calls| + n] == calls + more[..n];
      LaterCallsChangeNothing(calls, more[..n]);
    }
  }

  /** Nothing the handler may still do changes either status exactly if a header has been written
      and the response is committed. */
  lemma SettledExactly(calls: seq<Call>)
    ensures (forall more: seq<Call> ::
               RecordedStatus(calls + more) == RecordedStatus(calls) && WireStatus(calls + more) == WireStatus(calls))
            <==> FirstHeader(calls) < |calls| && After(calls).Sent?
  {
    if FirstHeader(calls) < |calls| && After(calls).Sent? {
      forall more: seq<Call>
        ensures RecordedStatus(calls + more) == RecordedStatus(calls) && WireStatus(calls + more) == WireStatus(calls)
      {
        LaterCallsChangeNothing(calls, more);
      }
    } else {
      var more := [WriteHeader(404)];
      assert (calls + more)[..|calls|] == calls;
      assert RecordedStatus(calls + more) != RecordedStatus(calls) || WireStatus(calls + more) != WireStatus(calls);
    }
  }

  // ---------------------------------------------------------------- the two writers in place

  /** The server's own ResponseWriter. */
  class Response {
    var committed: Committed

    constructor ()
      ensures committed.Open?
    {
      committed := Open;
    }

    method WriteHeader(code: Code)
      modifies this
      ensures committed == Commit(old(committed), Call.WriteHeader(code))
    {
      if committed.Open? && Final(code) {
        committed := Sent(code);
      }
    }

    method WriteOrFlush()
      modifies this
      ensures committed == Commit(old(committed), Write) == Commit(old(committed), Flush)
    {
      if committed.Open? {
        committed := Sent(OK);
      }
    }
  }

  /** The interceptor around it: only WriteHeader goes through its own code. */
  class Interceptor {
    const inner: Response
    var statusCode: Code
    var recorded: bool

    constructor (inner: Response)
      ensures this.inner == inner && statusCode == OK && !recorded
    {
      this.inner, statusCode, recorded := inner, OK, false;
    }

    method WriteHeader(code: Code)
      modifies this, inner
      ensures recorded && statusCode == (if old(recorded) then old(statusCode) else code)
      ensures inner.committed == Commit(old(inner.committed), Call.WriteHeader(code))
    {
      if !recorded {
        statusCode := code;
        recorded := true;
      }
      inner.WriteHeader(code);
    }

    /** A handler that makes these calls, seen by the interceptor and by the wire. */
    method Serve(calls: seq<Call>)
      requires !recorded && statusCode == OK && inner.committed.Open?
      modifies this, inner
      ensures statusCode == RecordedStatus(calls) && recorded == (FirstHeader(calls) < |calls|)
      ensures inner.committed == After(calls)
    {
      for i := 0 to |calls|
        invariant statusCode == RecordedStatus(calls[..i]) && recorded == (FirstHeader(calls[..i]) < i)
        invariant inner.committed == After(calls[..i])
      {
        assert calls[..i + 1][..i] == calls[..i];
        match calls[i] {
          case WriteHeader(code) => WriteHeader(code);
          case _ => inner.WriteOrFlush();
        }
      }
      assert calls[..|calls|] == calls;
    }
  }
}

/** Sums over finite maps. */
module Sums {
  ghost function Sum<K>(m: map<K, nat>): nat {
    if m.Keys == {} then 0 else var k :| k in m; m[k] + Sum(m - {k})
  }

  lemma {:induction false} SumRemove<K>(m: map<K, nat>, k: K)
    requires k in m
    ensures Sum(m) == m[k] + Sum(m - {k})
    decreases |m|
  {
    var j :| j in m && Sum(m) == m[j] + Sum(m - {j});
    if j != k {
      assert m - {j} - {k} == m - {k} - {j};
      assert |m - {j}| < |m| by { Smaller(m, j); }
      SumRemove(m - {j}, k);
      assert |m - {k}| < |m| by { Smaller(m, k); }
      SumRemove(m - {k}, j);
    }
  }

  lemma Smaller<K>(m: map<K, nat>, k: K)
    requires k in m
    ensures |m - {k}| < |m|
  {
    assert (m - {k}).Keys == m.Keys - {k};
    assert |m.Keys - {k}| < |m.Keys|;
  }

  function Get<K>(m: map<K, nat>, k: K): nat {
    if k in m then m[k] else 0
  }

  function Increment<K>(m: map<K, nat>, k: K): map<K, nat> {
    m[k := Get(m, k) + 1]
  }

  lemma SumIncrement<K>(m: map<K, nat>, k: K)
    ensures Sum(Increment(m, k)) == Sum(m) + 1
  {
    SumRemove(Increment(m, k), k);
    assert Increment(m, k) - {k} == m - {k};
    if k in m {
      SumRemove(m, k);
    } else {
      assert m - {k} == m;
    }
  }
}

module Metrics {
  import Labels
  import StatusRecorder
  import opened Runs
  import opened Sums

  datatype Label = Label(verb: string, path: string, status: nat)

  /** A request in the middleware: being served, between ServeHTTP and the histogram, between the
      histogram and the counter, and done. */
  datatype Stage = Serving(verb: string, path: string) | Served(series: Label) | Observed(series: Label) | Counted(series: Label)

  datatype State = State(requests: map<nat, Stage>, histogram: map<Label, nat>, counter: map<nat, nat>)

  function Start(): State {
    State(map[], map[], map[])
  }

  datatype Action = Arrive(id: nat, verb: string, path: string) | Return(id: nat, status: nat) | Observe(id: nat) | Inc(id: nat)

  predicate Enabled(s: State, a: Action) {
    match a
    case Arrive(id, _, _) => id !in s.requests
    case Return(id, _) => id in s.requests && s.requests[id].Serving?
    case Observe(id) => id in s.requests && s.requests[id].Served?
    case Inc(id) => id in s.requests && s.requests[id].Observed?
  }

  function Next(s: State, a: Action): State {
    if !Enabled(s, a) then s else
    match a
    case Arrive(id, verb, path) => s.(requests := s.requests[id := Serving(verb, path)])
    case Return(id, status) =>
      s.(requests := s.requests[id := Served(Label(s.requests[id].verb, s.requests[id].path, status))])
    case Observe(id) =>
      s.(requests := s.requests[id := Observed(s.requests[id].series)],
         histogram := Increment(s.histogram, s.requests[id].series))
    case Inc(id) =>
      s.(requests := s.requests[id := Counted(s.requests[id].series)],
         counter := Increment(s.counter, s.requests[id].series.status))
  }

  function After(schedule: seq<Action>): State {
    Run(Next, Start(), schedule)
  }

  // ---------------------------------------------------------------- what has happened to a request

  /** The action is in the schedule, and took effect there. */
  ghost predicate Happened(schedule: seq<Action>, a: Action) {
    exists t: nat :: t < |schedule| && schedule[t] == a && Enabled(After(schedule[..t]), a)
  }

  lemma HappenedNext(schedule: seq<Action>, a: Action)
    requires |schedule| > 0
    ensures var n := |schedule| - 1;
            Happened(schedule, a) <==> Happened(schedule[..n], a) || (schedule[n] == a && Enabled(After(schedule[..n]), a))
  {
    var n := |schedule| - 1;
    if Happened(schedule[..n], a) {
      var t: nat :| t < n && schedule[..n][t] == a && Enabled(After(schedule[..n][..t]), a);
      assert schedule[..n][..t] == schedule[..t];
    }
    if Happened(schedule, a) {
      var t: nat :| t < |schedule| && schedule[t] == a && Enabled(After(schedule[..t]), a);
      assert t < n ==> schedule[..n][..t] == schedule[..t];
    }
  }

  function Arrived(s: State, id: nat, verb: string, path: string): bool {
    && id in s.requests
    && match s.requests[id]
       case Serving(v, p) => v == verb && p == path
       case Served(l) => l.verb == verb && l.path == path
       case Observed(l) => l.verb == verb && l.path == path
       case Counted(l) => l.verb == verb && l.path == path
  }

  function Returned(s: State, id: nat, status: nat): bool {
    id in s.requests && !s.requests[id].Serving? && s.requests[id].series.status == status
  }

  function HasObserved(s: State, id: nat): bool {
    id in s.requests && (s.requests[id].Observed? || s.requests[id].Counted?)
  }

  function HasCounted(s: State, id: nat): bool {
    id in s.requests && s.requests[id].Counted?
  }

  /** How far a state says a request has come, for each of the actions. */
  function Says(s: State, a: Action): bool {
    match a
    case Arrive(id, verb, path) => Arrived(s, id, verb, path)
    case Return(id, status) => Returned(s, id, status)
    case Observe(id) => HasObserved(s, id)
    case Inc(id) => HasCounted(s, id)
  }

  lemma SaysNext(s: State, step: Action, a: Action)
    ensures Says(Next(s, step), a) <==> Says(s, a) || (step == a && Enabled(s, a))
  {
  }

  /** The stages tell what has happened: which requests have arrived, with which method and path,
      which have returned, with which status, and which have been observed and counted. */
  lemma {:induction false} StagesTell(schedule: seq<Action>, a: Action)
    ensures Says(After(schedule), a) <==> Happened(schedule, a)
  {
    var n := |schedule| - 1;
    if n >= 0 {
      StagesTell(schedule[..n], a);
      SaysNext(After(schedule[..n]), schedule[n], a);
      HappenedNext(schedule, a);
    }
  }

  // ---------------------------------------------------------------- conservation

  function WithStatus(h: map<Label, nat>, status: nat): map<Label, nat> {
    map l | l in h && l.status == status :: h[l]
  }

  /** The requests observed under a series, between the two updates with a status, and counted. */
  function InSeries(s: State, l: Label): set<nat> {
    set id | id in s.requests && HasObserved(s, id) && s.requests[id].series == l
  }

  function Between(s: State, status: nat): set<nat> {
    set id | id in s.requests && s.requests[id].Observed? && s.requests[id].series.status == status
  }

  function CountedWith(s: State, status: nat): set<nat> {
    set id | id in s.requests && HasCounted(s, id) && s.requests[id].series.status == status
  }

  function Done(s: State): set<nat> {
    set id | id in s.requests && HasCounted(s, id)
  }

  /** Each series of the histogram is the number of requests observed under it; for each status the
      histogram, summed over methods and paths, is ahead of the counter by the requests between their
      two updates; the counters add up to the completed requests. */
  ghost predicate Balanced(s: State) {
    && (forall l: Label :: Get(s.histogram, l) == |InSeries(s, l)|)
    && (forall status: nat ::
          && Sum(WithStatus(s.histogram, status)) == Get(s.counter, status) + |Between(s, status)|
          && Get(s.counter, status) == |CountedWith(s, status)|)
    && Sum(s.counter) == |Done(s)|
  }

  lemma WithStatusIncrement(h: map<Label, nat>, l: Label, status: nat)
    ensures Sum(WithStatus(Increment(h, l), status)) == Sum(WithStatus(h, status)) + if l.status == status then 1 else 0
  {
    if l.status == status {
      assert WithStatus(Increment(h, l), status) == Increment(WithStatus(h, status), l);
      SumIncrement(WithStatus(h, status), l);
    } else {
      assert WithStatus(Increment(h, l), status) == WithStatus(h, status);
    }
  }

  lemma SizesApart(a: set<nat>, b: set<nat>, x: nat)
    requires a - {x} == b - {x}
    ensures |a| + (if x in b then 1 else 0) == |b| + (if x in a then 1 else 0)
  {
    assert |a - {x}| == |a| - if x in a then 1 else 0;
    assert |b - {x}| == |b| - if x in b then 1 else 0;
  }

  lemma SeriesNext(s: State, a: Action, l: Label)
    requires Get(s.histogram, l) == |InSeries(s, l)|
    ensures Get(Next(s, a).histogram, l) == |InSeries(Next(s, a), l)|
  {
    SizesApart(InSeries(Next(s, a), l), InSeries(s, l), a.id);
  }

  lemma BetweenNext(s: State, a: Action, status: nat)
    ensures var t := Next(s, a); var opens, closes := a.Observe? && Enabled(s, a), a.Inc? && Enabled(s, a);
            |Between(t, status)| + (if closes && s.requests[a.id].series.status == status then 1 else 0)
            == |Between(s, status)| + (if opens && s.requests[a.id].series.status == status then 1 else 0)
  {
    SizesApart(Between(Next(s, a), status), Between(s, status), a.id);
  }

  lemma CounterNext(s: State, a: Action, status: nat)
    requires Get(s.counter, status) == |CountedWith(s, status)|
    ensures Get(Next(s, a).counter, status) == |CountedWith(Next(s, a), status)|
  {
    SizesApart(CountedWith(Next(s, a), status), CountedWith(s, status), a.id);
  }

  lemma StatusNext(s: State, a: Action, status: nat)
    requires Sum(WithStatus(s.histogram, status)) == Get(s.counter, status) + |Between(s, status)|
    ensures var t := Next(s, a); Sum(WithStatus(t.histogram, status)) == Get(t.counter, status) + |Between(t, status)|
  {
    BetweenNext(s, a, status);
    if a.Observe? && Enabled(s, a) {
      WithStatusIncrement(s.histogram, s.requests[a.id].series, status);
    }
  }

  lemma DoneNext(s: State, a: Action)
    ensures |Done(Next(s, a))| == |Done(s)| + if a.Inc? && Enabled(s, a) then 1 else 0
  {
    SizesApart(Done(Next(s, a)), Done(s), a.id);
  }

  lemma CountersNext(s: State, a: Action)
    ensures Sum(Next(s, a).counter) == Sum(s.counter) + if a.Inc? && Enabled(s, a) then 1 else 0
  {
    if a.Inc? && Enabled(s, a) {
      SumIncrement(s.counter, s.requests[a.id].series.status);
    }
  }

  /** Conservation in every state of any number of concurrent requests. */
  lemma {:induction false} Conservation(schedule: seq<Action>)
    ensures Balanced(After(schedule))
  {
    var n := |schedule| - 1;
    if n >= 0 {
      var s := After(schedule[..n]);
      Conservation(schedule[..n]);
      forall l: Label ensures Get(Next(s, schedule[n]).histogram, l) == |InSeries(Next(s, schedule[n]), l)| {
        SeriesNext(s, schedule[n], l);
      }
      forall status: nat
        ensures Sum(WithStatus(Next(s, schedule[n]).histogram, status)) ==
                Get(Next(s, schedule[n]).counter, status) + |Between(Next(s, schedule[n]), status)|
        ensures Get(Next(s, schedule[n]).counter, status) == |CountedWith(Next(s, schedule[n]), status)|
      {
        StatusNext(s, schedule[n], status);
        CounterNext(s, schedule[n], status);
      }
      DoneNext(s, schedule[n]);
      CountersNext(s, schedule[n]);
    }
  }

  /** So the sample count of a series is the number of requests that arrived with its method and path,
      returned with its status and were observed, and the counter of a status is the number of those
      that returned with it and were counted. */
  lemma SamplesExactly(schedule: seq<Action>, l: Label, observed: set<nat>, counted: set<nat>)
    requires forall id: nat :: id in observed <==> Happened(schedule, Arrive(id, l.verb, l.path))
                                                   && Happened(schedule, Return(id, l.status)) && Happened(schedule, Observe(id))
    requires forall id: nat :: id in counted <==> Happened(schedule, Return(id, l.status)) && Happened(schedule, Inc(id))
    ensures Get(After(schedule).histogram, l) == |observed|
    ensures Get(After(schedule).counter, l.status) == |counted|
  {
    var s := After(schedule);
    Conservation(schedule);
    forall id: nat ensures id in observed <==> id in InSeries(s, l) {
      StagesTell(schedule, Arrive(id, l.verb, l.path));
      StagesTell(schedule, Return(id, l.status));
      StagesTell(schedule, Observe(id));
    }
    forall id: nat ensures id in counted <==> id in CountedWith(s, l.status) {
      StagesTell(schedule, Return(id, l.status));
      StagesTell(schedule, Inc(id));
    }
    assert observed == InSeries(s, l) && counted == CountedWith(s, l.status);
  }

  // ---------------------------------------------------------------- the middleware in place

  /** The route mux matched: its name and its path template, either of them possibly empty. */
  datatype Route = Unmatched | Matched(name: string, template: string)

  /** The path label: by the name of the route, else by its template, else by the request URI. */
  function RouteName(route: Route, uri: string): (label': string)
    ensures Labels.WellShaped(label')
    ensures match route
            case Unmatched => label' == Labels.UrlToLabel(uri)
            case Matched("", "") => label' == Labels.UrlToLabel(uri)
            case Matched("", template) => label' == Labels.UrlToLabel(template)
            case Matched(name, _) => label' == Labels.UrlToLabel(name)
  {
    var source := if route.Matched? && route.name != "" then route.name
                  else if route.Matched? && route.template != "" then route.template
                  else uri;
    Labels.LabelsAreWellShaped(source);
    Labels.UrlToLabel(source)
  }

  lemma OthersKept(s: State, a: Action, id: nat)
    requires id in s.requests && a.id != id
    ensures id in Next(s, a).requests && Next(s, a).requests[id] == s.requests[id]
  {
  }

  predicate Others(actions: seq<Action>, id: nat) {
    forall a <- actions :: a.id != id
  }

  /** The two metrics, shared by the goroutines of all `requests`. */
  class PrometheusMiddleware {
    var requests: map<nat, Stage>
    var histogram: map<Label, nat>
    var counter: map<nat, nat>
    ghost var history: seq<Action>

    function View(): State
      reads this
    {
      State(requests, histogram, counter)
    }

    ghost predicate Valid()
      reads this
    {
      View() == After(history)
    }

    constructor ()
      ensures Valid() && history == []
    {
      requests, histogram, counter, history := map[], map[], map[], [];
    }

    /** The fields have just taken step `a`. */
    ghost method Took(a: Action)
      requires View() == Next(After(history), a)
      modifies this`history
      ensures Valid() && history == old(history) + [a]
    {
      Snoc(Next, Start(), history, a);
      history := history + [a];
    }

    /** Steps of other requests. */
    method Meanwhile(steps: seq<Action>, id: nat)
      requires Valid() && Others(steps, id) && id in requests
      modifies this
      ensures Valid() && history == old(history) + steps
      ensures id in requests && requests[id] == old(requests)[id]
    {
      for i := 0 to |steps|
        invariant Valid() && history == old(history) + steps[..i]
        invariant id in requests && requests[id] == old(requests)[id]
      {
        var t := Next(View(), steps[i]);
        OthersKept(View(), steps[i], id);
        requests, histogram, counter := t.requests, t.histogram, t.counter;
        Took(steps[i]);
      }
      assert steps[..|steps|] == steps;
    }

    /** The request comes in, and others take the steps `during` while its handler is at work. */
    method Begin(id: nat, verb: string, path: string, during: seq<Action>)
      requires Valid() && id !in requests && Others(during, id)
      modifies this
      ensures Valid() && id in requests && requests[id] == Serving(verb, path)
      ensures history == old(history) + [Arrive(id, verb, path)] + during
    {
      requests := requests[id := Serving(verb, path)];
      Took(Arrive(id, verb, path));
      Meanwhile(during, id);
    }

    /** The handler has returned, and others take the steps `before` the metrics are updated. */
    method Finish(id: nat, series: Label, before: seq<Action>)
      requires Valid() && id in requests && requests[id] == Serving(series.verb, series.path) && Others(before, id)
      modifies this
      ensures Valid() && id in requests && requests[id] == Served(series)
      ensures history == old(history) + [Return(id, series.status)] + before
    {
      requests := requests[id := Served(series)];
      Took(Return(id, series.status));
      Meanwhile(before, id);
    }

    /** The two updates, with the steps of others `between` them. */
    method Count(id: nat, series: Label, between: seq<Action>)
      requires Valid() && id in requests && requests[id] == Served(series) && Others(between, id)
      modifies this
      ensures Valid() && id in requests && requests[id] == Counted(series)
      ensures history == old(history) + [Observe(id)] + between + [Inc(id)]
    {
      histogram := Increment(histogram, series);
      requests := requests[id := Observed(series)];
      Took(Observe(id));
      Meanwhile(between, id);
      counter := Increment(counter, series.status);
      requests := requests[id := Counted(series)];
      Took(Inc(id));
    }

    /** One request, others taking any steps while its handler is at work and around the two updates:
        whatever its handler does, it counts once in each metric, under its own method and label and
        under the status the interceptor recorded. */
    method Handler(id: nat, verb: string, route: Route, uri: string,
                   w: StatusRecorder.Response, calls: seq<StatusRecorder.Call>,
                   during: seq<Action>, before: seq<Action>, between: seq<Action>)
      requires Valid() && id !in requests && w.committed.Open?
      requires Others(during, id) && Others(before, id) && Others(between, id)
      modifies this, w
      ensures Valid() && w.committed == StatusRecorder.After(calls)
      ensures var status := StatusRecorder.RecordedStatus(calls); var path := RouteName(route, uri);
              && id in requests && requests[id] == Counted(Label(verb, path, status))
              && history == old(history) + [Arrive(id, verb, path)] + during + [Return(id, status)] + before
                   + ([Observe(id)] + between + [Inc(id)])
    {
      var interceptor := new StatusRecorder.Interceptor(w);
      var path := RouteName(route, uri);
      Begin(id, verb, path, during);
      interceptor.Serve(calls);
      var series := Label(verb, path, interceptor.statusCode);
      Finish(id, series, before);
      Count(id, series, between);
    }
  }
}
