/** The record shapes the front end keeps: a located hop and a trace with its hops. */
module TraceTypes {
  import opened Options

  /** The location the geo service reports for an address. */
  datatype Geo = Geo(city: string, country: string, ip: string, latitude: real, longitude: real, state: string)

  /** A `hop` event as the front end keeps it, with its location once known. */
  datatype Hop = Hop(
    seqNo: int,
    hostName: string,
    ipAddr: string,
    hop: Option<int>,
    ttl: int,
    nodeType: string,
    rtt: string,
    geo: Option<Geo>)

  datatype Trace = Trace(
    id: string,
    name: string,
    destIp: string,
    maxHops: int,
    sendRate: int,
    receiveTimeout: int,
    traceTimeout: int,
    isFinished: bool,
    hops: seq<Hop>)

  /** What a caller of `startTrace` gives: every field of a trace but its id, state and hops. */
  datatype TraceParams = TraceParams(
    name: string,
    destIp: string,
    maxHops: int,
    sendRate: int,
    receiveTimeout: int,
    traceTimeout: int)
}
