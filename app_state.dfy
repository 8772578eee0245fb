/**
 * The managed application state and the two backend commands. The drain
 * loop, which runs on its own thread in the application, is run here in
 * sequence; the other threads' stores to the cancel flag are replayed from
 * the run's `World` just before each read of the flag.
 */
module AppCommands {
  import opened Options
  import opened TraceCommand

  class AppState {
    /** Shared between the commands and the drain loop. */
    var cancelFlag: bool

    /** The state the application is started with: the flag clear. */
    constructor ()
      ensures !cancelFlag
    {
      cancelFlag := false;
    }

    /** The `cancel_trace` command. */
    method CancelTrace()
      modifies this
      ensures cancelFlag
    {
      cancelFlag := true;
    }

    /** A store that another thread makes to the flag between two reads. */
    method Interfere(w: FlagWrite)
      modifies this
      ensures cancelFlag == Apply(old(cancelFlag), w)
    {
      match w {
        case NoWrite =>
        case Store(v) =>
          if v {
            CancelTrace();
          } else {
            cancelFlag := false;
          }
      }
    }

    /** The `trace` command: resolution, tracer setup, the drain loop and the terminal event.
        The events emitted and the tracer built are those of `TraceRun`, whatever the flag
        held before the call. */
    method Trace(hops: u8, w: World) returns (events: seq<Event>, tracer: Option<TracerConfig>)
      modifies this
      ensures Run(events, tracer) == TraceRun(hops, w)
      ensures tracer.Some? ==> cancelFlag == Reading(w.writes, FinalRead(w.writes, |w.messages|))
      ensures tracer.None? ==> !cancelFlag
    {
      cancelFlag := false;
      var res := Resolve(w.literal, w.lookup);
      events := res.emitted;
      if res.dst.None? {
        tracer := None;
        return;
      }
      if !w.tracerBuilds {
        events := events + [TraceFail(TracerUnavailable)];
        tracer := None;
        return;
      }
      tracer := Some(Configure(res.dst.value, hops));

      var msgs := w.messages;
      var i := 0;
      var stopped := false;
      while i < |msgs|
        invariant i <= |msgs|
        invariant !cancelFlag
        invariant forall j | 0 <= j < i :: !Reading(w.writes, j)
        invariant events + DrainFrom(msgs, w.writes, w.join, i) == res.emitted + Drain(msgs, w.writes, w.join)
      {
        assert i > 0 ==> !Reading(w.writes, i - 1);
        Interfere(WriteAt(w.writes, i));
        if cancelFlag {
          assert Reading(w.writes, i);
          stopped := true;
          break;
        }
        events := events + [Hop(ToPayload(msgs[i]))];
        i := i + 1;
      }

      var last := if stopped then i + 1 else i;
      assert last == FinalRead(w.writes, |msgs|) by {
        var c := CutOff(w.writes, |msgs|, 0);
        assert stopped ==> i < |msgs| && Reading(w.writes, i);
        assert c <= i;
      }
      assert cancelFlag == (last > 0 && Reading(w.writes, last - 1));
      Interfere(WriteAt(w.writes, last));
      if !cancelFlag {
        match w.join {
          case Returned(result) =>
            events := events + [TraceComplete(result.status, result.probeTimeMillis)];
          case Failed(e) =>
            events := events + [TraceError(TraceErrorPrefix + e)];
          case Panicked =>
        }
      } else {
        events := events + [TraceCancelled(CancelledText)];
      }
    }
  }

  /** A cancel requested before a run starts is cleared by the run's reset and never
      shows as `trace_cancelled`. */
  method CancelBeforeRun(hops: u8, w: World) returns (events: seq<Event>)
    requires forall j | 0 <= j < |w.writes| :: w.writes[j] != Store(true)
    ensures forall e | e in events :: !e.TraceCancelled?
  {
    var state := new AppState();
    state.CancelTrace();
    var tracer;
    events, tracer := state.Trace(hops, w);
    NoCancelWithoutRequest(hops, w);
  }
}
