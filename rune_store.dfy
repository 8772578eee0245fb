/**
 * The older rune-based store: an array of trace records and the id of the
 * current trace. Trace records are objects; `addHop` pushes onto the hops of
 * the record it finds, in place, so every place that refers to that record
 * sees the new hop. The generated trace id is given by the caller.
 */
module RuneStore {
  import opened Options
  import TraceTypes

  /** The hop shape of this store. */
  datatype Hop = Hop(id: string, name: string, ip: string, rtt: int, geo: TraceTypes.Geo)

  /** One trace record; only its hops change after creation. */
  class TraceEntry {
    const id: string
    const name: string
    const destIp: string
    const maxHops: int
    const sendRate: int
    const receiveTimeout: int
    const traceTimeout: int
    var hops: seq<Hop>

    constructor (id: string, p: TraceTypes.TraceParams)
      ensures this.id == id && name == p.name && destIp == p.destIp && maxHops == p.maxHops
      ensures sendRate == p.sendRate && receiveTimeout == p.receiveTimeout && traceTimeout == p.traceTimeout
      ensures hops == []
    {
      this.id := id;
      name := p.name;
      destIp := p.destIp;
      maxHops := p.maxHops;
      sendRate := p.sendRate;
      receiveTimeout := p.receiveTimeout;
      traceTimeout := p.traceTimeout;
      hops := [];
    }
  }

  /** The position of `data.find(t => t.id === id)`: the first record with that id, or -1.
      (`TraceStore.FindIndex` is the same search over the writable store's trace values.) */
  function FindTrace(data: seq<TraceEntry>, id: string): (r: int)
    ensures -1 <= r < |data|
    ensures r >= 0 ==> data[r].id == id && forall j | 0 <= j < r :: data[j].id != id
    ensures r == -1 <==> forall j | 0 <= j < |data| :: data[j].id != id
  {
    if |data| == 0 then -1
    else if data[0].id == id then 0
    else
      var k := FindTrace(data[1..], id);
      if k == -1 then -1 else k + 1
  }

  /** Pushing a record does not move the first match; it is found only when nothing earlier has the id. */
  lemma {:induction false} FindTraceAppend(data: seq<TraceEntry>, t: TraceEntry, id: string)
    ensures FindTrace(data + [t], id)
      == if FindTrace(data, id) >= 0 then FindTrace(data, id)
         else if t.id == id then |data| else -1
  {
    if |data| > 0 {
      FindTraceAppend(data[1..], t, id);
      assert (data + [t])[1..] == data[1..] + [t];
    }
  }

  class Store {
    var data: seq<TraceEntry>
    var currentTraceId: Option<string>

    constructor (initData: seq<TraceEntry>)
      ensures data == initData && currentTraceId == None
    {
      data := initData;
      currentTraceId := None;
    }

    /** The `currentTraceId` getter. */
    function CurrentTraceId(): Option<string>
      reads this
    {
      currentTraceId
    }

    /** `startTrace`: push a fresh record with no hops and make its id the current one. */
    method StartTrace(id: string, p: TraceTypes.TraceParams)
      modifies this
      ensures |data| == |old(data)| + 1 && data[..|old(data)|] == old(data)
      ensures fresh(data[|old(data)|])
      ensures var t := data[|old(data)|];
        && t.id == id && t.name == p.name && t.destIp == p.destIp && t.maxHops == p.maxHops
        && t.sendRate == p.sendRate && t.receiveTimeout == p.receiveTimeout && t.traceTimeout == p.traceTimeout
        && t.hops == []
      ensures forall t | t in old(data) :: t.hops == old(t.hops)
      ensures CurrentTraceId() == Some(id)
    {
      var t := new TraceEntry(id, p);
      data := data + [t];
      currentTraceId := Some(id);
    }

    /** `addHop`: push the hop onto the first record with the id; with no such record nothing changes. */
    method AddHop(traceId: string, hop: Hop)
      modifies data
      ensures data == old(data) && currentTraceId == old(currentTraceId)
      ensures FindTrace(data, traceId) == -1 ==> forall t | t in data :: t.hops == old(t.hops)
      ensures FindTrace(data, traceId) >= 0 ==>
        var found := data[FindTrace(data, traceId)];
        && found.hops == old(found.hops) + [hop]
        && forall t | t in data && t != found :: t.hops == old(t.hops)
    {
      var k := FindTrace(data, traceId);
      if k != -1 {
        var trace := data[k];
        trace.hops := trace.hops + [hop];
      }
    }
  }

  /** Starting a trace under an id no record has yet and then adding a hop for that id
      puts the hop on the new record and on no other, and leaves that id current. */
  method StartThenAddHop(s: Store, id: string, p: TraceTypes.TraceParams, hop: Hop)
    requires FindTrace(s.data, id) == -1
    modifies s, s.data
    ensures |s.data| == |old(s.data)| + 1 && s.data[..|old(s.data)|] == old(s.data)
    ensures s.data[|old(s.data)|].hops == [hop]
    ensures forall t | t in old(s.data) :: t.hops == old(t.hops)
    ensures s.CurrentTraceId() == Some(id)
  {
    s.StartTrace(id, p);
    FindTraceAppend(old(s.data), s.data[|old(s.data)|], id);
    assert s.data == old(s.data) + [s.data[|old(s.data)|]];
    s.AddHop(id, hop);
  }
}
