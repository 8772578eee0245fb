/**
 * The writable store of the front end: the traces keyed by id, the id of
 * the current trace, and two error texts. The trace ids come from the
 * caller (they are random UUIDs in the application, so nothing here
 * assumes they are unique), and the geo lookup that `addHop` makes over the
 * network is replaced by its outcome.
 */
module TraceStore {
  import opened Options
  import opened TraceTypes

  const CountExceededMarker := "API count exceeded"
  const CountExceeded := "Geo API: count exceeded"
  const GeoApiPrefix := "Geo API: "
  const NotReachable := "Geo API: not reachable"

  /** How the geo lookup of a hop's address went. `Unreachable`: the request or reading
      its body threw. `parsed` is what parsing the body as JSON gives, `None` when it throws. */
  datatype GeoOutcome =
    | Unreachable
    | Response(ok: bool, statusText: string, body: string, parsed: Option<Geo>)

  /** The hop after the lookup, and the store's `api_error` after it. */
  datatype Located = Located(hop: Hop, apiError: Option<string>)

  /** `s.includes(t)`. */
  predicate Includes(s: string, t: string)
    decreases |s|
  {
    t <= s || (|s| > 0 && Includes(s[1..], t))
  }

  /** The geo lookup that precedes appending a hop: the hop's location is set only from a
      usable response; every failure leaves the hop as it was and records an `api_error`. */
  function LocateHop(hop: Hop, outcome: GeoOutcome, apiError: Option<string>): (r: Located)
    ensures r.hop == hop.(geo := r.hop.geo)
    ensures outcome.Unreachable? ==> r == Located(hop, Some(NotReachable))
    ensures outcome.Response? && !outcome.ok ==> r == Located(hop, Some(GeoApiPrefix + outcome.statusText))
    ensures outcome.Response? && outcome.ok && Includes(outcome.body, CountExceededMarker) ==>
      r == Located(hop, Some(CountExceeded))
    ensures outcome.Response? && outcome.ok && !Includes(outcome.body, CountExceededMarker) ==>
      r == if outcome.parsed.Some? then Located(hop.(geo := outcome.parsed), apiError)
           else Located(hop, Some(NotReachable))
  {
    match outcome
    case Unreachable => Located(hop, Some(NotReachable))
    case Response(ok, statusText, body, parsed) =>
      if !ok then Located(hop, Some(GeoApiPrefix + statusText))
      else if Includes(body, CountExceededMarker) then Located(hop, Some(CountExceeded))
      else if parsed.Some? then Located(hop.(geo := parsed), apiError)
      else Located(hop, Some(NotReachable))
  }

  /** `traces.findIndex(t => t.id === id)`: the first trace with that id, or -1.
      (`RuneStore.FindTrace` is the same search over the rune store's trace records.) */
  function FindIndex(traces: seq<Trace>, id: string): (r: int)
    ensures -1 <= r < |traces|
    ensures r >= 0 ==> traces[r].id == id && forall j | 0 <= j < r :: traces[j].id != id
    ensures r == -1 <==> forall j | 0 <= j < |traces| :: traces[j].id != id
  {
    if |traces| == 0 then -1
    else if traces[0].id == id then 0
    else
      var k := FindIndex(traces[1..], id);
      if k == -1 then -1 else k + 1
  }

  /** The trace `startTrace` creates. */
  function NewTrace(id: string, p: TraceParams): Trace {
    Trace(id, p.name, p.destIp, p.maxHops, p.sendRate, p.receiveTimeout, p.traceTimeout, false, [])
  }

  /** The traces after appending a hop to the first trace with the given id. */
  function WithHop(traces: seq<Trace>, id: string, hop: Hop): (r: seq<Trace>)
    ensures |r| == |traces|
    ensures FindIndex(traces, id) == -1 ==> r == traces
    ensures forall j | 0 <= j < |traces| && j != FindIndex(traces, id) :: r[j] == traces[j]
    ensures FindIndex(traces, id) >= 0 ==>
      var k := FindIndex(traces, id);
      r[k].hops == traces[k].hops + [hop] && r[k].(hops := traces[k].hops) == traces[k]
  {
    var k := FindIndex(traces, id);
    if k == -1 then traces else traces[k := traces[k].(hops := traces[k].hops + [hop])]
  }

  /** The traces after marking the first trace with the given id finished. */
  function Finished(traces: seq<Trace>, id: string): (r: seq<Trace>)
    ensures |r| == |traces|
    ensures FindIndex(traces, id) == -1 ==> r == traces
    ensures forall j | 0 <= j < |traces| && j != FindIndex(traces, id) :: r[j] == traces[j]
    ensures FindIndex(traces, id) >= 0 ==>
      var k := FindIndex(traces, id);
      r[k].isFinished && r[k].(isFinished := traces[k].isFinished) == traces[k]
  {
    var k := FindIndex(traces, id);
    if k == -1 then traces else traces[k := traces[k].(isFinished := true)]
  }

  /** `traces.filter(t => t.id === id)`. */
  function Matching(traces: seq<Trace>, id: string): (r: seq<Trace>)
    ensures |r| <= |traces|
    ensures forall j | 0 <= j < |r| :: r[j].id == id
    ensures forall t :: t in r <==> t in traces && t.id == id
  {
    if |traces| == 0 then []
    else if traces[0].id == id then [traces[0]] + Matching(traces[1..], id)
    else Matching(traces[1..], id)
  }

  /** The filter is empty exactly when no trace has the id, and otherwise starts with the first one that has. */
  lemma {:induction false} MatchingHead(traces: seq<Trace>, id: string)
    ensures |Matching(traces, id)| == 0 <==> FindIndex(traces, id) == -1
    ensures |Matching(traces, id)| > 0 ==> Matching(traces, id)[0] == traces[FindIndex(traces, id)]
  {
    if |traces| > 0 && traces[0].id != id {
      MatchingHead(traces[1..], id);
    }
  }

  /** `getCurrentTrace`: the first trace whose id is the current id, if there is one. */
  function CurrentTrace(traces: seq<Trace>, current: Option<string>): (r: Option<Trace>)
    ensures r.None? <==> current.None? || FindIndex(traces, current.value) == -1
    ensures r.Some? ==> r.value == traces[FindIndex(traces, current.value)]
  {
    if current.None? then None
    else
      MatchingHead(traces, current.value);
      var matching := Matching(traces, current.value);
      if |matching| == 0 then None else Some(matching[0])
  }

  /** The number of hops over all traces. */
  function HopCount(traces: seq<Trace>): nat {
    if |traces| == 0 then 0 else |traces[0].hops| + HopCount(traces[1..])
  }

  class Store {
    var traces: seq<Trace>
    var error: Option<string>
    var currentTraceId: Option<string>
    var apiError: Option<string>

    constructor (initData: seq<Trace>)
      ensures traces == initData
      ensures error == None && currentTraceId == None && apiError == None
    {
      traces := initData;
      error := None;
      currentTraceId := None;
      apiError := None;
    }

    /** `startTrace`, with the generated id given. */
    method StartTrace(id: string, p: TraceParams)
      modifies this
      ensures traces == old(traces) + [NewTrace(id, p)]
      ensures currentTraceId == Some(id) && error == None && apiError == old(apiError)
    {
      traces := traces + [NewTrace(id, p)];
      currentTraceId := Some(id);
      error := None;
    }

    /** `addHop`: the geo lookup, then the hop appended to the first trace with the id,
        whatever the lookup gave. */
    method AddHop(traceId: string, hop: Hop, outcome: GeoOutcome)
      modifies this
      ensures var located := LocateHop(hop, outcome, old(apiError));
        traces == WithHop(old(traces), traceId, located.hop) && apiError == located.apiError
      ensures currentTraceId == old(currentTraceId) && error == old(error)
    {
      var h := hop;
      match outcome {
        case Unreachable =>
          apiError := Some(NotReachable);
        case Response(ok, statusText, body, parsed) =>
          if !ok {
            apiError := Some(GeoApiPrefix + statusText);
          } else if Includes(body, CountExceededMarker) {
            apiError := Some(CountExceeded);
          } else if parsed.Some? {
            h := h.(geo := parsed);
          } else {
            apiError := Some(NotReachable);
          }
      }
      traces := WithHop(traces, traceId, h);
    }

    /** `finishTrace`. */
    method FinishTrace(traceId: string)
      modifies this
      ensures traces == Finished(old(traces), traceId)
      ensures currentTraceId == old(currentTraceId) && error == old(error) && apiError == old(apiError)
    {
      traces := Finished(traces, traceId);
    }
  }

  // ---------------------------------------------------------------------------

  /** The first index of an id depends only on the ids. */
  lemma {:induction false} FindIndexSameIds(t1: seq<Trace>, t2: seq<Trace>, id: string)
    requires |t1| == |t2|
    requires forall j | 0 <= j < |t1| :: t1[j].id == t2[j].id
    ensures FindIndex(t1, id) == FindIndex(t2, id)
  {
    if |t1| > 0 {
      FindIndexSameIds(t1[1..], t2[1..], id);
    }
  }

  /** Appending a trace does not move the first match; it is found only when nothing earlier has the id. */
  lemma {:induction false} FindIndexAppend(traces: seq<Trace>, t: Trace, id: string)
    ensures FindIndex(traces + [t], id)
      == if FindIndex(traces, id) >= 0 then FindIndex(traces, id)
         else if t.id == id then |traces| else -1
  {
    if |traces| > 0 {
      FindIndexAppend(traces[1..], t, id);
      assert (traces + [t])[1..] == traces[1..] + [t];
    }
  }

  /** Finishing a trace twice is finishing it once. */
  lemma FinishIdempotent(traces: seq<Trace>, id: string)
    ensures Finished(Finished(traces, id), id) == Finished(traces, id)
  {
    FindIndexSameIds(traces, Finished(traces, id), id);
  }

  /** Appending a hop adds exactly one hop overall when the id is known, and none otherwise. */
  lemma {:induction false} WithHopAddsOneHop(traces: seq<Trace>, id: string, hop: Hop)
    ensures HopCount(WithHop(traces, id, hop))
      == HopCount(traces) + if FindIndex(traces, id) >= 0 then 1 else 0
  {
    if |traces| > 0 && traces[0].id != id {
      WithHopAddsOneHop(traces[1..], id, hop);
      assert WithHop(traces, id, hop)[1..] == WithHop(traces[1..], id, hop);
    }
  }

  /** After `startTrace` with an id no trace has yet, the current trace is the new one,
      and a hop for that id lands on it. */
  lemma StartedTraceIsCurrent(traces: seq<Trace>, id: string, p: TraceParams, hop: Hop)
    requires FindIndex(traces, id) == -1
    ensures CurrentTrace(traces + [NewTrace(id, p)], Some(id)) == Some(NewTrace(id, p))
    ensures WithHop(traces + [NewTrace(id, p)], id, hop) == traces + [NewTrace(id, p).(hops := [hop])]
  {
    FindIndexAppend(traces, NewTrace(id, p), id);
    assert NewTrace(id, p).hops + [hop] == [hop];
    assert (traces + [NewTrace(id, p)])[|traces| := NewTrace(id, p).(hops := [hop])]
      == traces + [NewTrace(id, p).(hops := [hop])];
  }

  /** Ids are not checked for uniqueness: after `startTrace` with an id an older trace
      already has, the current trace and the target of `addHop` are the older trace. */
  lemma ReusedIdShadowsNewTrace(traces: seq<Trace>, id: string, p: TraceParams)
    requires FindIndex(traces, id) >= 0
    ensures CurrentTrace(traces + [NewTrace(id, p)], Some(id)) == Some(traces[FindIndex(traces, id)])
    ensures FindIndex(traces + [NewTrace(id, p)], id) == FindIndex(traces, id)
  {
    FindIndexAppend(traces, NewTrace(id, p), id);
  }
}
