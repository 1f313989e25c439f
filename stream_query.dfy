/**
  The query path of the stream service of the liaison node: a unary query is
  given a time range (a default one when the client sent none), checked,
  addressed to the node selectors of its groups, broadcast once, and the
  single result it gets back is turned into the reply.

  The time-range check, the default range, the group registry and the
  broadcaster are the oracles of `QueryEnv`.
*/
module StreamQuery {
  import opened Wrappers

  datatype TimeRange = TimeRange(begin: int, end: int)

  /** A query; `timeRange == None` is a request without a time range. */
  datatype QueryRequest = QueryRequest(
    groups: seq<string>,
    name: string,
    timeRange: Option<TimeRange>,
    stages: seq<string>,
    trace: bool)

  /** A query response, reduced to the identifiers of its elements. */
  datatype QueryResponse = QueryResponse(elements: seq<string>)

  /** The response returned when the broadcaster reports end of input. */
  const EmptyQueryResponse := QueryResponse([])

  /** The message broadcast for a query: each group's node selector (`None`
      is a nil selector: any node may serve the group), the time range and
      the request itself. */
  datatype QueryMessage = QueryMessage(
    nodeSelectors: map<string, Option<seq<string>>>,
    timeRange: TimeRange,
    request: QueryRequest)

  /** The data carried by the broadcaster's result. */
  datatype Payload = Response(response: QueryResponse) | DomainError(message: string) | OtherPayload

  /** What broadcasting a query gives: `Publish` fails (with an error that is
      or is not end of input), the future's `Get` fails, or the future
      delivers a payload. */
  datatype Broadcast =
    | PublishFailed(isEof: bool, message: string)
    | GetFailed(message: string)
    | Delivered(payload: Payload)

  datatype QueryError =
    | InvalidArgument(timeRange: TimeRange)   // the time range fails the check
    | Transport(message: string)              // an error of Publish or Get, returned as is
    | QueryFailed(detail: string)             // a domain error, wrapped as a query failure

  /** The collaborators of the query path:
      - defaultTimeRange: the range used when a request has none;
      - timeRangeValid: the time-range check;
      - nodeSelector: the group registry's node list for a group at the
        requested stages, `None` when it has no entry;
      - broadcast: publishing a message and waiting on its future. */
  datatype QueryEnv = QueryEnv(
    defaultTimeRange: TimeRange,
    timeRangeValid: TimeRange -> bool,
    nodeSelector: (string, seq<string>) -> Option<seq<string>>,
    broadcast: QueryMessage -> Broadcast)

  /** The node selectors of the requested groups: one key per group, with
      the registry's node list, or nil when the registry has none. */
  method NodeSelectors(groups: seq<string>, stages: seq<string>, lookup: (string, seq<string>) -> Option<seq<string>>)
    returns (selectors: map<string, Option<seq<string>>>)
    ensures selectors.Keys == set g | g in groups
    ensures forall g :: g in selectors ==> selectors[g] == lookup(g, stages)
  {
    selectors := map[];
    for i := 0 to |groups|
      invariant selectors.Keys == set g | g in groups[..i]
      invariant forall g :: g in selectors ==> selectors[g] == lookup(g, stages)
    {
      var g := groups[i];
      match lookup(g, stages) {
        case Some(ns) => selectors := selectors[g := Some(ns)];
        case None => selectors := selectors[g := None];
      }
      assert groups[..i + 1] == groups[..i] + [g];
    }
    assert groups[..|groups|] == groups;
  }

  /** Serves one query. `normalized` is the request after its time range is
      defaulted, `dispatched` the message broadcast (if any), and `resp` and
      `err` the reply. */
  method Query(env: QueryEnv, req: QueryRequest)
    returns (normalized: QueryRequest, resp: Option<QueryResponse>, err: Option<QueryError>, dispatched: Option<QueryMessage>)
    // a missing time range is replaced by the default one, a present one is kept
    ensures req.timeRange.Some? ==> normalized == req
    ensures req.timeRange.None? ==> normalized == req.(timeRange := Some(env.defaultTimeRange))
    ensures normalized.timeRange.Some?
    // an invalid range is rejected before anything is broadcast
    ensures !env.timeRangeValid(normalized.timeRange.value) <==> err == Some(InvalidArgument(normalized.timeRange.value))
    ensures !env.timeRangeValid(normalized.timeRange.value) ==> resp == None && dispatched == None
    // a valid range is broadcast once, with one selector per group
    ensures env.timeRangeValid(normalized.timeRange.value) ==>
      && dispatched.Some?
      && dispatched.value.timeRange == normalized.timeRange.value
      && dispatched.value.request == normalized
      && dispatched.value.nodeSelectors.Keys == set g | g in req.groups
      && forall g :: g in dispatched.value.nodeSelectors ==>
           dispatched.value.nodeSelectors[g] == env.nodeSelector(g, req.stages)
    // the broadcast result becomes the reply
    ensures dispatched.Some? ==>
      var b := env.broadcast(dispatched.value);
      && (b.PublishFailed? && b.isEof ==> resp == Some(EmptyQueryResponse) && err == None)
      && (b.PublishFailed? && !b.isEof ==> resp == None && err == Some(Transport(b.message)))
      && (b.GetFailed? ==> resp == None && err == Some(Transport(b.message)))
      && (b.Delivered? && b.payload.Response? ==> resp == Some(b.payload.response) && err == None)
      && (b.Delivered? && b.payload.DomainError? ==> resp == None && err == Some(QueryFailed(b.payload.message)))
      && (b.Delivered? && b.payload.OtherPayload? ==> resp == None && err == None)
  {
    normalized := req;
    if req.timeRange.None? {
      normalized := normalized.(timeRange := Some(env.defaultTimeRange));
    }
    var timeRange := normalized.timeRange.value;
    if !env.timeRangeValid(timeRange) {
      return normalized, None, Some(InvalidArgument(timeRange)), None;
    }
    var selectors := NodeSelectors(normalized.groups, normalized.stages, env.nodeSelector);
    var message := QueryMessage(selectors, timeRange, normalized);
    dispatched := Some(message);
    match env.broadcast(message) {
      case PublishFailed(isEof, msg) =>
        if isEof {
          resp, err := Some(EmptyQueryResponse), None;
        } else {
          resp, err := None, Some(Transport(msg));
        }
      case GetFailed(msg) =>
        resp, err := None, Some(Transport(msg));
      case Delivered(payload) =>
        match payload {
          case Response(r) => resp, err := Some(r), None;
          case DomainError(m) => resp, err := None, Some(QueryFailed(m));
          case OtherPayload => resp, err := None, None;
        }
    }
  }
}
