/**
 * The backend `trace` command of the traceroute application, as a pure
 * function of everything one run takes from the outside world: the literal
 * address parse, the DNS lookup, whether the probing engine can be built,
 * the hop messages it streams, the stores other threads make to the shared
 * cancel flag, and how the prober thread ends.  The value of a run is the
 * list of events handed to `app.emit`, in order, and the tracer settings.
 */
module TraceCommand {
  import opened Options

  newtype u8 = x: int | 0 <= x < 0x100
  newtype u16 = x: int | 0 <= x < 0x1_0000

  type Octets = s: seq<u8> | |s| == 4 witness [0, 0, 0, 0]
  type Segments = s: seq<u16> | |s| == 8 witness [0, 0, 0, 0, 0, 0, 0, 0]

  /** An IPv4 or IPv6 address. */
  datatype IpAddr = V4(octets: Octets) | V6(segments: Segments)

  /** The unspecified address: 0.0.0.0 or ::. */
  predicate IsUnspecified(a: IpAddr) {
    match a
    case V4(o) => forall i | 0 <= i < |o| :: o[i] == 0
    case V6(s) => forall i | 0 <= i < |s| :: s[i] == 0
  }

  // Payloads of the `trace_fail`, `trace_cancelled` and `trace_error` events.
  const NoAddressFound := "No address found for domain"
  const InvalidAddress := "Invalid IP address or domain"
  const UnspecifiedAddress := "Invalid or unspecified IP address"
  const TracerUnavailable := "Failed to create tracer"
  const CancelledText := "Trace cancelled"
  const TraceErrorPrefix := "Trace error: "

  // Fixed tracer settings, in seconds.
  const SendRateSecs: nat := 2
  const ReceiveTimeoutSecs: nat := 15
  const TraceTimeoutSecs: nat := 60

  /** One progress message of the probing engine; the round-trip time is already in milliseconds. */
  datatype HopMessage = HopMessage(seqNo: nat, ipAddr: IpAddr, hop: Option<nat>, ttl: nat, nodeType: string, rttMillis: nat)

  /** The JSON object carried by a `hop` event. */
  datatype HopPayload = HopPayload(seqNo: nat, hostName: nat, ipAddr: IpAddr, hop: Option<nat>, ttl: nat, nodeType: string, rttMillis: nat)

  /** The events the command emits, named after their event names. */
  datatype Event =
    | TraceDns(addr: IpAddr)
    | TraceFail(reason: string)
    | Hop(payload: HopPayload)
    | TraceComplete(status: string, probeTimeMillis: nat)
    | TraceError(message: string)
    | TraceCancelled(message: string)
  {
    /** An event that ends a run: an early failure or a terminal outcome. */
    predicate IsFinal() {
      TraceFail? || TraceComplete? || TraceError? || TraceCancelled?
    }
  }

  datatype TraceResult = TraceResult(status: string, probeTimeMillis: nat)

  /** How joining the prober thread ends: its `trace()` returned Ok or Err, or the thread panicked. */
  datatype JoinOutcome = Returned(result: TraceResult) | Failed(error: string) | Panicked

  /** The DNS lookup of the input, consulted only when the input is no literal address. */
  datatype Lookup = LookupFailed | Addresses(addrs: seq<IpAddr>)

  /** What another thread stores into the cancel flag just before one read of it:
      `Store(true)` is a `cancel_trace` call, `Store(false)` the reset of another `trace` call. */
  datatype FlagWrite = NoWrite | Store(value: bool)

  datatype TracerConfig = TracerConfig(dst: IpAddr, maxHop: u8, sendRateSecs: nat, receiveTimeoutSecs: nat, traceTimeoutSecs: nat)

  /** Everything one run of the command takes from outside. `writes[k]` lands just
      before the k-th read of the cancel flag (reads numbered from 0); a missing entry is no write. */
  datatype World = World(
    literal: Option<IpAddr>,
    lookup: Lookup,
    tracerBuilds: bool,
    messages: seq<HopMessage>,
    writes: seq<FlagWrite>,
    join: JoinOutcome)

  /** The events emitted while resolving, and the destination when the run goes on. */
  datatype Resolution = Resolution(emitted: seq<Event>, dst: Option<IpAddr>)

  /** The events of a whole run, and the tracer settings when a tracer was built. */
  datatype Run = Run(events: seq<Event>, tracer: Option<TracerConfig>)

  /** The input as a literal address, else the first address of its DNS lookup. */
  function ParseOrLookup(literal: Option<IpAddr>, lookup: Lookup): Resolution {
    match literal
    case Some(a) => Resolution([], Some(a))
    case None =>
      match lookup
      case LookupFailed => Resolution([TraceFail(InvalidAddress)], None)
      case Addresses(addrs) =>
        if |addrs| == 0 then Resolution([TraceFail(NoAddressFound)], None)
        else Resolution([TraceDns(addrs[0])], Some(addrs[0]))
  }

  /** Destination resolution, including the rejection of the unspecified address. */
  function Resolve(literal: Option<IpAddr>, lookup: Lookup): (r: Resolution)
    ensures r.dst.Some? ==> !IsUnspecified(r.dst.value)
    ensures r.dst.Some? && literal.Some? ==> r.dst.value == literal.value
    ensures r.dst.Some? && literal.None? ==>
      lookup.Addresses? && |lookup.addrs| > 0 && r.dst.value == lookup.addrs[0]
    ensures r.dst.Some? ==> forall e | e in r.emitted :: e.TraceDns?
    ensures r.dst.None? ==> |r.emitted| > 0 && r.emitted[|r.emitted| - 1].TraceFail?
    ensures forall j | 0 <= j < |r.emitted| - 1 :: r.emitted[j].TraceDns?
    ensures literal.Some? && !IsUnspecified(literal.value) ==> r == Resolution([], literal)
    ensures literal.None? && lookup.Addresses? && |lookup.addrs| > 0 && !IsUnspecified(lookup.addrs[0]) ==>
      r == Resolution([TraceDns(lookup.addrs[0])], Some(lookup.addrs[0]))
  {
    var found := ParseOrLookup(literal, lookup);
    if found.dst.Some? && IsUnspecified(found.dst.value) then
      Resolution(found.emitted + [TraceFail(UnspecifiedAddress)], None)
    else
      found
  }

  /** The tracer as configured for a destination and the caller's hop limit. */
  function Configure(dst: IpAddr, hops: u8): TracerConfig {
    TracerConfig(dst, hops, SendRateSecs, ReceiveTimeoutSecs, TraceTimeoutSecs)
  }

  /** The `hop` payload of a message; its `host_name` field carries the sequence number. */
  function ToPayload(m: HopMessage): HopPayload {
    HopPayload(m.seqNo, m.seqNo, m.ipAddr, m.hop, m.ttl, m.nodeType, m.rttMillis)
  }

  /** One `hop` event per message, in the order received; through `ToPayload`, the
      `host_name` of event j is the sequence number of message j. */
  function HopEvents(ms: seq<HopMessage>): (r: seq<Event>)
    ensures |r| == |ms|
    ensures forall j | 0 <= j < |r| :: r[j] == Hop(ToPayload(ms[j]))
  {
    if ms == [] then [] else [Hop(ToPayload(ms[0]))] + HopEvents(ms[1..])
  }

  function Apply(flag: bool, w: FlagWrite): bool {
    match w
    case NoWrite => flag
    case Store(v) => v
  }

  function WriteAt(ws: seq<FlagWrite>, k: nat): FlagWrite {
    if k < |ws| then ws[k] else NoWrite
  }

  /** The cancel flag as its k-th read finds it; the run starts from the reset to false. */
  function Reading(ws: seq<FlagWrite>, k: nat): bool
    decreases k
  {
    Apply(if k == 0 then false else Reading(ws, k - 1), WriteAt(ws, k))
  }

  /** The terminal event chosen from the final flag read and, when the flag is clear, the join. */
  function Terminal(cancelled: bool, join: JoinOutcome): seq<Event> {
    if cancelled then [TraceCancelled(CancelledText)]
    else
      match join
      case Returned(res) => [TraceComplete(res.status, res.probeTimeMillis)]
      case Failed(e) => [TraceError(TraceErrorPrefix + e)]
      case Panicked => []
  }

  /** The drain loop from the i-th message on: read i belongs to message i; after
      a break or after the channel closes, one more read picks the terminal event. */
  function DrainFrom(msgs: seq<HopMessage>, ws: seq<FlagWrite>, join: JoinOutcome, i: nat): seq<Event>
    requires i <= |msgs|
    decreases |msgs| - i
  {
    if i == |msgs| then Terminal(Reading(ws, i), join)
    else if Reading(ws, i) then Terminal(Reading(ws, i + 1), join)
    else [Hop(ToPayload(msgs[i]))] + DrainFrom(msgs, ws, join, i + 1)
  }

  function Drain(msgs: seq<HopMessage>, ws: seq<FlagWrite>, join: JoinOutcome): seq<Event> {
    DrainFrom(msgs, ws, join, 0)
  }

  /** The first message, from the i-th on, whose flag read finds the flag set; n if none. */
  function CutOff(ws: seq<FlagWrite>, n: nat, i: nat): (c: nat)
    requires i <= n
    ensures i <= c <= n
    ensures forall j | i <= j < c :: !Reading(ws, j)
    ensures c < n ==> Reading(ws, c)
    decreases n - i
  {
    if i == n || Reading(ws, i) then i else CutOff(ws, n, i + 1)
  }

  /** The index of the flag read that picks the terminal event of an n-message drain. */
  function FinalRead(ws: seq<FlagWrite>, n: nat): (k: nat)
    ensures k <= n
  {
    var c := CutOff(ws, n, 0);
    if c < n then c + 1 else n
  }

  /** One run of the `trace` command. */
  function TraceRun(hops: u8, w: World): Run {
    var res := Resolve(w.literal, w.lookup);
    match res.dst
    case None => Run(res.emitted, None)
    case Some(dst) =>
      if !w.tracerBuilds then Run(res.emitted + [TraceFail(TracerUnavailable)], None)
      else Run(res.emitted + Drain(w.messages, w.writes, w.join), Some(Configure(dst, hops)))
  }

  // ---------------------------------------------------------------------------
  // The drain loop

  /** From message i on, the loop forwards the messages up to the cut-off and then
      emits the terminal event chosen by the read after it. */
  lemma {:induction false} DrainFromShape(msgs: seq<HopMessage>, ws: seq<FlagWrite>, join: JoinOutcome, i: nat)
    requires i <= |msgs|
    ensures var c := CutOff(ws, |msgs|, i);
      DrainFrom(msgs, ws, join, i)
        == HopEvents(msgs[i..c]) + Terminal(Reading(ws, if c < |msgs| then c + 1 else c), join)
    decreases |msgs| - i
  {
    var c := CutOff(ws, |msgs|, i);
    if i == |msgs| || Reading(ws, i) {
      assert msgs[i..c] == [];
    } else {
      DrainFromShape(msgs, ws, join, i + 1);
      assert msgs[i..c][1..] == msgs[i + 1..c];
      assert HopEvents(msgs[i..c]) == [Hop(ToPayload(msgs[i]))] + HopEvents(msgs[i + 1..c]);
    }
  }

  /** Hop events in receive order for the messages before the cut-off, then at most one terminal event. */
  lemma DrainShape(msgs: seq<HopMessage>, ws: seq<FlagWrite>, join: JoinOutcome)
    ensures Drain(msgs, ws, join)
      == HopEvents(msgs[..CutOff(ws, |msgs|, 0)]) + Terminal(Reading(ws, FinalRead(ws, |msgs|)), join)
  {
    DrainFromShape(msgs, ws, join, 0);
    assert msgs[0..CutOff(ws, |msgs|, 0)] == msgs[..CutOff(ws, |msgs|, 0)];
  }

  /** A read finds the flag set exactly when the latest store before it was a cancel request. */
  lemma {:induction false} ReadingIsLatestStore(ws: seq<FlagWrite>, k: nat)
    ensures Reading(ws, k) <==>
      exists j | 0 <= j <= k :: WriteAt(ws, j) == Store(true) && forall l | j < l <= k :: WriteAt(ws, l) == NoWrite
    decreases k
  {
    if WriteAt(ws, k) == NoWrite && k > 0 {
      ReadingIsLatestStore(ws, k - 1);
      if Reading(ws, k) {
        var j :| 0 <= j <= k - 1 && WriteAt(ws, j) == Store(true) && forall l | j < l <= k - 1 :: WriteAt(ws, l) == NoWrite;
        assert forall l | j < l <= k :: WriteAt(ws, l) == NoWrite;
      }
      if exists j | 0 <= j <= k :: WriteAt(ws, j) == Store(true) && forall l | j < l <= k :: WriteAt(ws, l) == NoWrite {
        var j :| 0 <= j <= k && WriteAt(ws, j) == Store(true) && forall l | j < l <= k :: WriteAt(ws, l) == NoWrite;
        assert j < k;
        assert forall l | j < l <= k - 1 :: WriteAt(ws, l) == NoWrite;
      }
    } else if WriteAt(ws, k) == NoWrite {
      assert !Reading(ws, k);
    } else if Reading(ws, k) {
      assert WriteAt(ws, k) == Store(true);
    } else {
      forall j | 0 <= j <= k && WriteAt(ws, j) == Store(true)
        ensures !forall l | j < l <= k :: WriteAt(ws, l) == NoWrite
      {
        assert j != k;
        assert WriteAt(ws, k) != NoWrite;
      }
    }
  }

  /** With no overlapping run resetting it, a flag once set stays set. */
  lemma {:induction false} CancelIsSticky(ws: seq<FlagWrite>, k: nat, l: nat)
    requires forall j | 0 <= j < |ws| :: ws[j] != Store(false)
    requires k <= l && Reading(ws, k)
    ensures Reading(ws, l)
    decreases l - k
  {
    if k < l {
      CancelIsSticky(ws, k, l - 1);
    }
  }

  /** Once the terminal read finds the flag set, the join outcome does not matter: the thread is not joined. */
  lemma CancelledRunSkipsJoin(msgs: seq<HopMessage>, ws: seq<FlagWrite>, j1: JoinOutcome, j2: JoinOutcome)
    requires Reading(ws, FinalRead(ws, |msgs|))
    ensures Drain(msgs, ws, j1) == Drain(msgs, ws, j2)
    ensures Drain(msgs, ws, j1)[|Drain(msgs, ws, j1)| - 1] == TraceCancelled(CancelledText)
  {
    DrainShape(msgs, ws, j1);
    DrainShape(msgs, ws, j2);
  }

  /** An overlapping run's reset between the break and the terminal read turns a
      cancelled run into a completed one: the hop is dropped and no `trace_cancelled` follows. */
  lemma ResetAfterBreakLosesCancel(m: HopMessage, res: TraceResult)
    ensures Drain([m], [Store(true), Store(false)], Returned(res))
      == [TraceComplete(res.status, res.probeTimeMillis)]
  {
  }

  // ---------------------------------------------------------------------------
  // Whole runs

  /** A literal input is the destination unchanged and no `trace_dns` event is emitted. */
  lemma LiteralInput(hops: u8, w: World)
    requires w.literal.Some?
    ensures forall e | e in TraceRun(hops, w).events :: !e.TraceDns?
    ensures !IsUnspecified(w.literal.value) && w.tracerBuilds ==>
      TraceRun(hops, w).tracer == Some(Configure(w.literal.value, hops))
  {
    DrainShape(w.messages, w.writes, w.join);
  }

  /** A resolved host name emits one `trace_dns` event carrying the first address, before anything else. */
  lemma DnsInput(hops: u8, w: World)
    requires w.literal.None? && w.lookup.Addresses? && |w.lookup.addrs| > 0
    ensures var r := TraceRun(hops, w);
      |r.events| > 0 && r.events[0] == TraceDns(w.lookup.addrs[0])
      && (forall j | 0 < j < |r.events| :: !r.events[j].TraceDns?)
      && (r.tracer.Some? ==> r.tracer.value.dst == w.lookup.addrs[0])
    ensures !IsUnspecified(w.lookup.addrs[0]) && w.tracerBuilds ==>
      TraceRun(hops, w).tracer == Some(Configure(w.lookup.addrs[0], hops))
  {
    DrainShape(w.messages, w.writes, w.join);
  }

  /** A failed or empty lookup emits one `trace_fail` and nothing else, and builds no tracer. */
  lemma ResolutionFailures(hops: u8, w: World)
    requires w.literal.None?
    ensures w.lookup == LookupFailed ==> TraceRun(hops, w) == Run([TraceFail(InvalidAddress)], None)
    ensures w.lookup == Addresses([]) ==> TraceRun(hops, w) == Run([TraceFail(NoAddressFound)], None)
  {
  }

  /** The unspecified address, literal or looked up, is refused before any tracer is built. */
  lemma UnspecifiedRejected(hops: u8, w: World)
    ensures w.literal.Some? && IsUnspecified(w.literal.value) ==>
      TraceRun(hops, w) == Run([TraceFail(UnspecifiedAddress)], None)
    ensures w.literal.None? && w.lookup.Addresses? && |w.lookup.addrs| > 0 && IsUnspecified(w.lookup.addrs[0]) ==>
      TraceRun(hops, w) == Run([TraceDns(w.lookup.addrs[0]), TraceFail(UnspecifiedAddress)], None)
  {
  }

  /** A tracer that cannot be built ends the run with one `trace_fail`; one that can is set up
      with the caller's hop limit and the fixed 2 s / 15 s / 60 s timings. */
  lemma TracerSetup(hops: u8, w: World)
    requires Resolve(w.literal, w.lookup).dst.Some?
    ensures var res := Resolve(w.literal, w.lookup);
      !w.tracerBuilds ==> TraceRun(hops, w) == Run(res.emitted + [TraceFail(TracerUnavailable)], None)
    ensures var res := Resolve(w.literal, w.lookup);
      w.tracerBuilds ==> TraceRun(hops, w).tracer == Some(TracerConfig(res.dst.value, hops, 2, 15, 60))
  {
  }

  /** With a tracer built, the run forwards the messages before the cut-off in receive order,
      each as a `hop` event whose host name is the sequence number, then the terminal event. */
  lemma HopsInReceiveOrder(hops: u8, w: World)
    requires Resolve(w.literal, w.lookup).dst.Some? && w.tracerBuilds
    ensures var c := CutOff(w.writes, |w.messages|, 0);
      var events := TraceRun(hops, w).events;
      var start := |Resolve(w.literal, w.lookup).emitted|;
      && |events| == start + c + |Terminal(Reading(w.writes, FinalRead(w.writes, |w.messages|)), w.join)|
      && (forall j | 0 <= j < c :: events[start + j] == Hop(ToPayload(w.messages[j])))
      && (forall j | 0 <= j < c :: events[start + j].Hop? && events[start + j].payload.hostName == w.messages[j].seqNo)
      && (forall j | start + c <= j < |events| :: !events[j].Hop?)
  {
    DrainShape(w.messages, w.writes, w.join);
  }

  /** At most one event ends a run, and it is the last one. */
  lemma FinalEventIsLast(hops: u8, w: World)
    ensures var events := TraceRun(hops, w).events;
      forall j | 0 <= j < |events| && events[j].IsFinal() :: j == |events| - 1
  {
    DrainShape(w.messages, w.writes, w.join);
  }

  /** If only cancel requests touch the flag and some read up to the k-th finds it set, the run
      forwards at most k messages and ends with `trace_cancelled`. */
  lemma CancelObserved(hops: u8, w: World, k: nat)
    requires Resolve(w.literal, w.lookup).dst.Some? && w.tracerBuilds
    requires forall j | 0 <= j < |w.writes| :: w.writes[j] != Store(false)
    requires k <= |w.messages| && Reading(w.writes, k)
    ensures exists c | 0 <= c <= k ::
      TraceRun(hops, w).events
        == Resolve(w.literal, w.lookup).emitted + HopEvents(w.messages[..c]) + [TraceCancelled(CancelledText)]
  {
    var n := |w.messages|;
    var c := CutOff(w.writes, n, 0);
    DrainShape(w.messages, w.writes, w.join);
    if c < n {
      CancelIsSticky(w.writes, c, c + 1);
    } else {
      assert c == k;
    }
  }

  /** If no read finds the flag set, every message is forwarded and the join decides the end:
      `trace_complete`, `trace_error`, or nothing when the prober panicked; never `trace_cancelled`. */
  lemma CompletesWithoutCancel(hops: u8, w: World)
    requires Resolve(w.literal, w.lookup).dst.Some? && w.tracerBuilds
    requires forall k | 0 <= k <= |w.messages| :: !Reading(w.writes, k)
    ensures var prefix := Resolve(w.literal, w.lookup).emitted + HopEvents(w.messages);
      TraceRun(hops, w).events == prefix + match w.join
        case Returned(res) => [TraceComplete(res.status, res.probeTimeMillis)]
        case Failed(e) => [TraceError(TraceErrorPrefix + e)]
        case Panicked => []
  {
    DrainShape(w.messages, w.writes, w.join);
    assert w.messages[..|w.messages|] == w.messages;
  }

  /** With no cancel request stored after the reset, no read finds the flag set. */
  lemma {:induction false} QuietFlagStaysClear(ws: seq<FlagWrite>, k: nat)
    requires forall j | 0 <= j < |ws| :: ws[j] != Store(true)
    ensures !Reading(ws, k)
    decreases k
  {
    if k > 0 {
      QuietFlagStaysClear(ws, k - 1);
    }
  }

  /** A run in which no cancel request is stored after its reset never ends with
      `trace_cancelled`; resets by overlapping runs are allowed. */
  lemma NoCancelWithoutRequest(hops: u8, w: World)
    requires forall j | 0 <= j < |w.writes| :: w.writes[j] != Store(true)
    ensures forall e | e in TraceRun(hops, w).events :: !e.TraceCancelled?
  {
    forall k | 0 <= k <= |w.messages| ensures !Reading(w.writes, k) {
      QuietFlagStaysClear(w.writes, k);
    }
    if Resolve(w.literal, w.lookup).dst.Some? && w.tracerBuilds {
      CompletesWithoutCancel(hops, w);
    }
  }
}
