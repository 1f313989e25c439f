/**
  The write path of the stream service of the liaison node: one bidirectional
  stream of write requests is received, each request is validated, routed and
  handed to a batch publisher. In the corrected handler `Write`, every request
  gets exactly one reply, either at once (a rejection) or when the stream ends
  and the batch publisher is closed (a deferred reply for an accepted write).
  See `RepliesAsWritten` for the handler as written, whose reply to an invalid
  timestamp dereferences a nil metadata.

  The registries, the resolver and the publisher are not modelled; they are
  the oracles of `Oracles`.
*/
module StreamWrite {
  import opened Wrappers

  /** The reply codes of the write path. `Other` carries any further code that
      a typed transport error reports. */
  datatype Status =
    | Succeed
    | InvalidTimestamp
    | NotFound
    | ExpiredSchema
    | InternalError
    | Other(code: int)

  type NodeId = string

  datatype Metadata = Metadata(group: string, name: string, modRevision: int)

  datatype TagFamily = TagFamily(name: string, tags: seq<string>)

  /** An element; a `None` timestamp is a missing protobuf timestamp. */
  datatype Element = Element(timestamp: Option<int>, tagFamilies: seq<TagFamily>)

  datatype WriteRequest = WriteRequest(metadata: Metadata, element: Element, messageId: nat)

  /** A reply frame; `metadata == None` is a nil metadata pointer. */
  datatype WriteResponse = WriteResponse(metadata: Option<Metadata>, status: Status, messageId: nat)

  /** The key of the schema cache: the group and the name of the stream. */
  datatype EntityId = EntityId(group: string, name: string)

  function IdOf(md: Metadata): EntityId {
    EntityId(md.group, md.name)
  }

  /** What the batch publisher's `Publish` reports: the message is buffered,
      it is refused with an error that carries a status code, or it fails with
      any other error. */
  datatype PublishResult = Accepted | Rejected(status: Status) | Failed

  /** The collaborators of the write path, as pure lookups.
      - timestampValid: the timestamp check of an element;
      - schemaCache: entity id to the cached schema revision;
      - navigate: metadata and tag families to a shard id, or a failure;
      - locate: group, name and shard id to a node, or a failure;
      - publish: the publisher's answer to the message for the request at a
        given position of the stream, addressed to a node. */
  datatype Oracles = Oracles(
    timestampValid: Option<int> -> bool,
    schemaCache: map<EntityId, int>,
    navigate: (Metadata, seq<TagFamily>) -> Option<nat>,
    locate: (string, string, nat) -> Option<NodeId>,
    publish: (nat, NodeId) -> PublishResult)

  /** An accepted write waiting for its deferred reply. */
  datatype SucceedSent = SucceedSent(metadata: Metadata, messageId: nat, node: NodeId)

  /** What `Close` of the batch publisher returns: the per-node failure map
      (`None` is a nil map) and an error that is only logged. */
  datatype CloseResult = CloseResult(failures: Option<map<NodeId, Status>>, err: Option<string>)

  /** How the receive loop ends. */
  datatype StreamEnd =
    | ContextDone(ctxErr: string)   // the stream's context is done
    | Eof                           // the client half-closed the stream
    | RecvFailed(recvErr: string)   // any other receive error

  /** The error `Write` returns for each way the loop ends. */
  function EndError(end: StreamEnd): (r: Option<string>)
    ensures r.None? <==> end.Eof?
  {
    match end
    case ContextDone(e) => Some(e)
    case Eof => None
    case RecvFailed(e) => Some(e)
  }

  // ---------------------------------------------------------------------
  // The per-message decision

  /** The decision for one received request: reply at once, or keep a
      pending entry for the node the message was published to. */
  datatype Decision = Reply(metadata: Option<Metadata>, status: Status) | Pending(node: NodeId)

  /** The schema check, made only for a positive revision. */
  function SchemaCheck(cache: map<EntityId, int>, md: Metadata): Option<Status> {
    if md.modRevision > 0 then
      if IdOf(md) !in cache then Some(NotFound)
      else if md.modRevision != cache[IdOf(md)] then Some(ExpiredSchema)
      else None
    else None
  }

  /** Navigation, node lookup and publishing of the request at position `i`. */
  function Route(o: Oracles, i: nat, req: WriteRequest): Decision {
    var md := req.metadata;
    match o.navigate(md, req.element.tagFamilies)
    case None => Reply(Some(md), InternalError)
    case Some(shard) =>
      match o.locate(md.group, md.name, shard)
      case None => Reply(Some(md), InternalError)
      case Some(node) =>
        match o.publish(i, node)
        case Accepted => Pending(node)
        case Rejected(st) => Reply(Some(md), st)
        case Failed => Reply(Some(md), InternalError)
  }

  /** The decision for the request at position `i` of the stream. */
  function Classify(o: Oracles, i: nat, req: WriteRequest): Decision {
    if !o.timestampValid(req.element.timestamp) then Reply(None, InvalidTimestamp)
    else
      match SchemaCheck(o.schemaCache, req.metadata)
      case Some(st) => Reply(Some(req.metadata), st)
      case None => Route(o, i, req)
  }

  /** The code of a deferred reply: success unless the close-time map has an
      entry for the node. */
  function FlushCode(failures: Option<map<NodeId, Status>>, node: NodeId): Status {
    if failures.Some? && node in failures.value then failures.value[node] else Succeed
  }

  // ---------------------------------------------------------------------
  // The reply stream, as a specification

  /** The decision for every request of the stream, by position. */
  function Decisions(o: Oracles, reqs: seq<WriteRequest>): seq<Decision> {
    seq(|reqs|, i requires 0 <= i < |reqs| => Classify(o, i, reqs[i]))
  }

  /** The positions, in receipt order, among the first `n`, whose decision is
      an immediate reply. */
  function ImmediateIdx(ds: seq<Decision>, n: nat): (r: seq<nat>)
    requires n <= |ds|
    ensures forall k :: 0 <= k < |r| ==> r[k] < n && ds[r[k]].Reply?
  {
    if n == 0 then []
    else ImmediateIdx(ds, n - 1) + (if ds[n - 1].Reply? then [n - 1] else [])
  }

  /** The positions, in receipt order, among the first `n`, whose write was
      accepted by the publisher. */
  function PendingIdx(ds: seq<Decision>, n: nat): (r: seq<nat>)
    requires n <= |ds|
    ensures forall k :: 0 <= k < |r| ==> r[k] < n && ds[r[k]].Pending?
  {
    if n == 0 then []
    else PendingIdx(ds, n - 1) + (if ds[n - 1].Pending? then [n - 1] else [])
  }

  /** The order in which the requests are replied to: first every immediate
      reply, then every deferred one. */
  function ReplyOrder(ds: seq<Decision>): (r: seq<nat>)
    ensures forall k :: 0 <= k < |r| ==> r[k] < |ds|
  {
    ImmediateIdx(ds, |ds|) + PendingIdx(ds, |ds|)
  }

  /** The reply to the request at position `i`, given the close-time map. */
  function ReplyTo(reqs: seq<WriteRequest>, ds: seq<Decision>, failures: Option<map<NodeId, Status>>, i: nat): WriteResponse
    requires |ds| == |reqs| && i < |reqs|
  {
    match ds[i]
    case Reply(md, st) => WriteResponse(md, st, reqs[i].messageId)
    case Pending(node) => WriteResponse(Some(reqs[i].metadata), FlushCode(failures, node), reqs[i].messageId)
  }

  /** The replies to the requests at the given positions, in that order. */
  function RepliesAt(reqs: seq<WriteRequest>, ds: seq<Decision>, failures: Option<map<NodeId, Status>>, idx: seq<nat>): (r: seq<WriteResponse>)
    requires |ds| == |reqs|
    requires forall k :: 0 <= k < |idx| ==> idx[k] < |reqs|
    ensures |r| == |idx|
  {
    seq(|idx|, k requires 0 <= k < |idx| => ReplyTo(reqs, ds, failures, idx[k]))
  }

  /** Every reply of a stream, in the order they are sent. */
  function Replies(o: Oracles, reqs: seq<WriteRequest>, failures: Option<map<NodeId, Status>>): seq<WriteResponse> {
    var ds := Decisions(o, reqs);
    RepliesAt(reqs, ds, failures, ReplyOrder(ds))
  }

  /** The pending entries recorded for the given accepted positions. */
  function SucceedSentAt(reqs: seq<WriteRequest>, ds: seq<Decision>, idx: seq<nat>): (r: seq<SucceedSent>)
    requires |ds| == |reqs|
    requires forall k :: 0 <= k < |idx| ==> idx[k] < |reqs| && ds[idx[k]].Pending?
    ensures |r| == |idx|
  {
    seq(|idx|, k requires 0 <= k < |idx| =>
      SucceedSent(reqs[idx[k]].metadata, reqs[idx[k]].messageId, ds[idx[k]].node))
  }

  // ---------------------------------------------------------------------
  // The stream handler

  /** Handles one write stream: `reqs` are the requests received before the
      loop ends as `end`, and `close` is what closing the batch publisher
      returns. `sent` is every reply sent on the stream, in order. */
  method Write(o: Oracles, reqs: seq<WriteRequest>, end: StreamEnd, close: CloseResult)
    returns (sent: seq<WriteResponse>, err: Option<string>)
    ensures sent == Replies(o, reqs, close.failures)
    ensures |sent| == |reqs|
    ensures forall k :: 0 <= k < |sent| ==> sent[k].messageId == reqs[ReplyOrder(Decisions(o, reqs))[k]].messageId
    ensures err == EndError(end)
  {
    ghost var ds := Decisions(o, reqs);
    var succeedSent: seq<SucceedSent> := [];
    sent := [];
    var i := 0;
    while i < |reqs|
      invariant 0 <= i <= |reqs|
      invariant sent == RepliesAt(reqs, ds, close.failures, ImmediateIdx(ds, i))
      invariant succeedSent == SucceedSentAt(reqs, ds, PendingIdx(ds, i))
    {
      var req := reqs[i];
      var d := Classify(o, i, req);
      assert d == ds[i];
      match d {
        case Reply(md, st) =>
          RepliesAtSnoc(reqs, ds, close.failures, ImmediateIdx(ds, i), i);
          sent := sent + [WriteResponse(md, st, req.messageId)];
        case Pending(node) =>
          SucceedSentAtSnoc(reqs, ds, PendingIdx(ds, i), i);
          succeedSent := succeedSent + [SucceedSent(req.metadata, req.messageId, node)];
      }
      i := i + 1;
    }
    // the deferred block runs on every exit of the loop
    var deferred := FlushDeferred(succeedSent, close.failures);
    ghost var pending := PendingIdx(ds, |reqs|);
    DeferredAreReplies(reqs, ds, close.failures, pending, deferred);
    RepliesAtAppend(reqs, ds, close.failures, ImmediateIdx(ds, |ds|), pending);
    sent := sent + deferred;
    ExactlyOneReplyPerRequest(ds);
    err := EndError(end);
  }

  /** The deferred block of the stream handler: one reply per pending entry,
      in the order the entries were recorded, with the code the close-time
      map gives its node. */
  method FlushDeferred(succeedSent: seq<SucceedSent>, failures: Option<map<NodeId, Status>>)
    returns (replies: seq<WriteResponse>)
    ensures |replies| == |succeedSent|
    ensures forall k :: 0 <= k < |replies| ==>
      replies[k] == WriteResponse(Some(succeedSent[k].metadata), FlushCode(failures, succeedSent[k].node), succeedSent[k].messageId)
  {
    replies := [];
    for j := 0 to |succeedSent|
      invariant |replies| == j
      invariant forall k :: 0 <= k < j ==>
        replies[k] == WriteResponse(Some(succeedSent[k].metadata), FlushCode(failures, succeedSent[k].node), succeedSent[k].messageId)
    {
      var ssm := succeedSent[j];
      var code := FlushCode(failures, ssm.node);
      replies := replies + [WriteResponse(Some(ssm.metadata), code, ssm.messageId)];
    }
  }

  lemma DeferredAreReplies(reqs: seq<WriteRequest>, ds: seq<Decision>, failures: Option<map<NodeId, Status>>,
                           pending: seq<nat>, deferred: seq<WriteResponse>)
    requires |ds| == |reqs|
    requires forall k :: 0 <= k < |pending| ==> pending[k] < |reqs| && ds[pending[k]].Pending?
    requires |deferred| == |pending|
    requires forall k :: 0 <= k < |deferred| ==>
      var ssm := SucceedSentAt(reqs, ds, pending)[k];
      deferred[k] == WriteResponse(Some(ssm.metadata), FlushCode(failures, ssm.node), ssm.messageId)
    ensures deferred == RepliesAt(reqs, ds, failures, pending)
  {
    var r := RepliesAt(reqs, ds, failures, pending);
    forall k | 0 <= k < |deferred|
      ensures deferred[k] == r[k]
    {
      var ssm := SucceedSentAt(reqs, ds, pending)[k];
      assert ssm == SucceedSent(reqs[pending[k]].metadata, reqs[pending[k]].messageId, ds[pending[k]].node);
    }
  }

  lemma RepliesAtSnoc(reqs: seq<WriteRequest>, ds: seq<Decision>, failures: Option<map<NodeId, Status>>, idx: seq<nat>, i: nat)
    requires |ds| == |reqs| && i < |reqs|
    requires forall k :: 0 <= k < |idx| ==> idx[k] < |reqs|
    ensures RepliesAt(reqs, ds, failures, idx + [i]) == RepliesAt(reqs, ds, failures, idx) + [ReplyTo(reqs, ds, failures, i)]
  {
  }

  lemma RepliesAtAppend(reqs: seq<WriteRequest>, ds: seq<Decision>, failures: Option<map<NodeId, Status>>, a: seq<nat>, b: seq<nat>)
    requires |ds| == |reqs|
    requires forall k :: 0 <= k < |a| ==> a[k] < |reqs|
    requires forall k :: 0 <= k < |b| ==> b[k] < |reqs|
    ensures RepliesAt(reqs, ds, failures, a + b) == RepliesAt(reqs, ds, failures, a) + RepliesAt(reqs, ds, failures, b)
  {
  }

  lemma SucceedSentAtSnoc(reqs: seq<WriteRequest>, ds: seq<Decision>, idx: seq<nat>, i: nat)
    requires |ds| == |reqs| && i < |reqs| && ds[i].Pending?
    requires forall k :: 0 <= k < |idx| ==> idx[k] < |reqs| && ds[idx[k]].Pending?
    ensures SucceedSentAt(reqs, ds, idx + [i]) ==
      SucceedSentAt(reqs, ds, idx) + [SucceedSent(reqs[i].metadata, reqs[i].messageId, ds[i].node)]
  {
  }

  // ---------------------------------------------------------------------
  // Properties of the reply stream

  /** Among the first `n` positions, each is either immediate or accepted. */
  lemma {:induction false} SplitCount(ds: seq<Decision>, n: nat)
    requires n <= |ds|
    ensures |ImmediateIdx(ds, n)| + |PendingIdx(ds, n)| == n
  {
    if n > 0 {
      SplitCount(ds, n - 1);
    }
  }

  /** Both position lists are in increasing order. */
  lemma {:induction false} IdxSorted(ds: seq<Decision>, n: nat)
    requires n <= |ds|
    ensures forall j, k :: 0 <= j < k < |ImmediateIdx(ds, n)| ==> ImmediateIdx(ds, n)[j] < ImmediateIdx(ds, n)[k]
    ensures forall j, k :: 0 <= j < k < |PendingIdx(ds, n)| ==> PendingIdx(ds, n)[j] < PendingIdx(ds, n)[k]
  {
    if n > 0 {
      IdxSorted(ds, n - 1);
      var imm, pen := ImmediateIdx(ds, n - 1), PendingIdx(ds, n - 1);
      assert forall k :: 0 <= k < |imm| ==> imm[k] < n - 1;
      assert forall k :: 0 <= k < |pen| ==> pen[k] < n - 1;
    }
  }

  /** Every position among the first `n` is in the list of its kind. */
  lemma {:induction false} IdxComplete(ds: seq<Decision>, n: nat)
    requires n <= |ds|
    ensures forall i :: 0 <= i < n && ds[i].Reply? ==> i in ImmediateIdx(ds, n)
    ensures forall i :: 0 <= i < n && ds[i].Pending? ==> i in PendingIdx(ds, n)
  {
    if n > 0 {
      IdxComplete(ds, n - 1);
      var imm, imm' := ImmediateIdx(ds, n - 1), ImmediateIdx(ds, n);
      var pen, pen' := PendingIdx(ds, n - 1), PendingIdx(ds, n);
      forall i | 0 <= i < n && ds[i].Reply?
        ensures i in imm'
      {
        if i < n - 1 {
          assert i in imm;
        } else {
          assert imm' == imm + [n - 1];
        }
      }
      forall i | 0 <= i < n && ds[i].Pending?
        ensures i in pen'
      {
        if i < n - 1 {
          assert i in pen;
        } else {
          assert pen' == pen + [n - 1];
        }
      }
    }
  }

  /** Every received request is replied to exactly once: the reply order is a
      permutation of the positions of the stream. */
  lemma ExactlyOneReplyPerRequest(ds: seq<Decision>)
    ensures |ReplyOrder(ds)| == |ds|
    ensures forall i :: 0 <= i < |ds| ==> i in ReplyOrder(ds)
    ensures forall j, k :: 0 <= j < k < |ReplyOrder(ds)| ==> ReplyOrder(ds)[j] != ReplyOrder(ds)[k]
  {
    SplitCount(ds, |ds|);
    IdxSorted(ds, |ds|);
    IdxComplete(ds, |ds|);
    var imm, pen := ImmediateIdx(ds, |ds|), PendingIdx(ds, |ds|);
    var ord := ReplyOrder(ds);
    forall j, k | 0 <= j < k < |ord|
      ensures ord[j] != ord[k]
    {
      if k < |imm| {
        assert ord[j] == imm[j] && ord[k] == imm[k];
      } else if j >= |imm| {
        assert ord[j] == pen[j - |imm|] && ord[k] == pen[k - |imm|];
      } else {
        assert ord[j] == imm[j] && ord[k] == pen[k - |imm|];
      }
    }
  }

  /** Every immediate reply is sent before every deferred one, immediate
      replies follow receipt order, and deferred replies follow the order in
      which the writes were accepted. */
  lemma ReplyOrdering(ds: seq<Decision>)
    ensures forall j, k :: 0 <= j < k < |ReplyOrder(ds)| ==>
      (ds[ReplyOrder(ds)[j]].Pending? ==> ds[ReplyOrder(ds)[k]].Pending?)
    ensures forall j, k :: 0 <= j < k < |ReplyOrder(ds)| ==>
      (ds[ReplyOrder(ds)[j]].Pending? == ds[ReplyOrder(ds)[k]].Pending? ==> ReplyOrder(ds)[j] < ReplyOrder(ds)[k])
  {
    IdxSorted(ds, |ds|);
    var imm, pen := ImmediateIdx(ds, |ds|), PendingIdx(ds, |ds|);
    var ord := ReplyOrder(ds);
    forall j, k | 0 <= j < k < |ord|
      ensures ds[ord[j]].Pending? ==> ds[ord[k]].Pending?
      ensures ds[ord[j]].Pending? == ds[ord[k]].Pending? ==> ord[j] < ord[k]
    {
      if k < |imm| {
        assert ord[j] == imm[j] && ord[k] == imm[k];
      } else if j >= |imm| {
        assert ord[j] == pen[j - |imm|] && ord[k] == pen[k - |imm|];
      } else {
        assert ord[j] == imm[j] && ord[k] == pen[k - |imm|];
      }
    }
  }

  /** A reply carries a nil metadata exactly when its request failed the
      timestamp check; the reply helper reads the group of the metadata of
      every reply it sends, so each such reply dereferences a nil pointer. */
  lemma NilMetadataOnlyOnInvalidTimestamp(o: Oracles, reqs: seq<WriteRequest>, failures: Option<map<NodeId, Status>>, k: nat)
    requires k < |Replies(o, reqs, failures)|
    ensures var i := ReplyOrder(Decisions(o, reqs))[k];
      Replies(o, reqs, failures)[k].metadata.None? <==> !o.timestampValid(reqs[i].element.timestamp)
    ensures Replies(o, reqs, failures)[k].metadata.None? ==> Replies(o, reqs, failures)[k].status == InvalidTimestamp
  {
  }

  /** A deferred reply answers a write the publisher accepted for the located
      node; its status is SUCCEED unless the close-time map names that node,
      and then it is that node's status. */
  lemma DeferredReplyStatus(o: Oracles, reqs: seq<WriteRequest>, failures: Option<map<NodeId, Status>>, k: nat)
    requires |ImmediateIdx(Decisions(o, reqs), |reqs|)| <= k < |ReplyOrder(Decisions(o, reqs))|
    ensures var i := ReplyOrder(Decisions(o, reqs))[k];
      var node := Classify(o, i, reqs[i]).node;
      && Classify(o, i, reqs[i]).Pending?
      && o.publish(i, node) == Accepted
      && Replies(o, reqs, failures)[k] ==
           WriteResponse(Some(reqs[i].metadata),
                         if failures.Some? && node in failures.value then failures.value[node] else Succeed,
                         reqs[i].messageId)
  {
    var ds := Decisions(o, reqs);
    var imm, pen := ImmediateIdx(ds, |reqs|), PendingIdx(ds, |reqs|);
    assert ReplyOrder(ds)[k] == pen[k - |imm|];
    var i := ReplyOrder(ds)[k];
    AcceptedIff(o, i, reqs[i]);
  }

  /** When every accepted write went to one node and the close-time map
      reports that node failed with `st`, every deferred reply is `st`. */
  lemma SharedNodeFailure(o: Oracles, reqs: seq<WriteRequest>, failures: map<NodeId, Status>, n: NodeId, st: Status)
    requires n in failures && failures[n] == st
    requires forall i :: 0 <= i < |reqs| && Classify(o, i, reqs[i]).Pending? ==> Classify(o, i, reqs[i]).node == n
    ensures forall k :: |ImmediateIdx(Decisions(o, reqs), |reqs|)| <= k < |Replies(o, reqs, Some(failures))| ==>
      Replies(o, reqs, Some(failures))[k].status == st
  {
    forall k | |ImmediateIdx(Decisions(o, reqs), |reqs|)| <= k < |Replies(o, reqs, Some(failures))|
      ensures Replies(o, reqs, Some(failures))[k].status == st
    {
      DeferredReplyStatus(o, reqs, Some(failures), k);
    }
  }

  // ---------------------------------------------------------------------
  // Properties of the per-message decision

  /** The timestamp check comes first: an invalid timestamp is replied
      INVALID_TIMESTAMP with nil metadata, whatever the schema cache, the
      registries and the publisher would have said. */
  lemma InvalidTimestampFirst(o: Oracles, o': Oracles, i: nat, req: WriteRequest)
    requires !o.timestampValid(req.element.timestamp)
    requires !o'.timestampValid(req.element.timestamp)
    ensures Classify(o, i, req) == Classify(o', i, req) == Reply(None, InvalidTimestamp)
  {
  }

  /** A revision that is not positive skips the schema cache: the decision is
      the same whatever the cache holds. */
  lemma ZeroRevisionSkipsSchema(o: Oracles, cache: map<EntityId, int>, i: nat, req: WriteRequest)
    requires req.metadata.modRevision <= 0
    ensures Classify(o, i, req) == Classify(o.(schemaCache := cache), i, req)
  {
  }

  /** With a positive revision and a valid timestamp: a missing id is
      NOT_FOUND, a different cached revision is EXPIRED_SCHEMA, and a
      matching one goes on to routing. */
  lemma SchemaOutcomes(o: Oracles, i: nat, req: WriteRequest)
    requires o.timestampValid(req.element.timestamp)
    requires req.metadata.modRevision > 0
    ensures IdOf(req.metadata) !in o.schemaCache ==> Classify(o, i, req) == Reply(Some(req.metadata), NotFound)
    ensures IdOf(req.metadata) in o.schemaCache && o.schemaCache[IdOf(req.metadata)] != req.metadata.modRevision
      ==> Classify(o, i, req) == Reply(Some(req.metadata), ExpiredSchema)
    ensures IdOf(req.metadata) in o.schemaCache && o.schemaCache[IdOf(req.metadata)] == req.metadata.modRevision
      ==> Classify(o, i, req) == Route(o, i, req)
  {
  }

  /** A request is accepted exactly when every step passes and the publisher
      buffers the message; the pending entry names the located node. Any
      navigation or lookup failure is INTERNAL_ERROR, a typed publish error
      is replied with its own status and any other publish error is
      INTERNAL_ERROR. */
  lemma AcceptedIff(o: Oracles, i: nat, req: WriteRequest)
    ensures var md := req.metadata;
      var shard := o.navigate(md, req.element.tagFamilies);
      var node := if shard.Some? then o.locate(md.group, md.name, shard.value) else None;
      var checked := o.timestampValid(req.element.timestamp) && SchemaCheck(o.schemaCache, md).None?;
      && (Classify(o, i, req).Pending? <==> checked && node.Some? && o.publish(i, node.value) == Accepted)
      && (Classify(o, i, req).Pending? ==> Classify(o, i, req).node == node.value)
      && (checked && node.None? ==> Classify(o, i, req) == Reply(Some(md), InternalError))
      && ((checked && node.Some? && o.publish(i, node.value).Rejected?) ==>
            Classify(o, i, req) == Reply(Some(md), o.publish(i, node.value).status))
      && ((checked && node.Some? && o.publish(i, node.value).Failed?) ==>
            Classify(o, i, req) == Reply(Some(md), InternalError))
  {
  }

  // ---------------------------------------------------------------------
  // The stream as written: the reply helper and a nil metadata

  /** The position of the first request whose timestamp fails the check, or
      the length of the stream when every timestamp passes. */
  function FirstInvalidTimestamp(o: Oracles, reqs: seq<WriteRequest>): (n: nat)
    ensures n <= |reqs|
    ensures forall i :: 0 <= i < n ==> o.timestampValid(reqs[i].element.timestamp)
    ensures n < |reqs| ==> !o.timestampValid(reqs[n].element.timestamp)
  {
    if reqs == [] || !o.timestampValid(reqs[0].element.timestamp) then 0
    else 1 + FirstInvalidTimestamp(o, reqs[1..])
  }

  /** The replies the handler sends as written. The reply helper reads the
      group of the metadata before sending, so the INVALID_TIMESTAMP reply,
      which carries a nil metadata, panics instead of being sent: the
      handler stops reading there, and only the deferred replies of the
      writes accepted so far follow the immediate replies sent so far. */
  function RepliesAsWritten(o: Oracles, reqs: seq<WriteRequest>, failures: Option<map<NodeId, Status>>): seq<WriteResponse> {
    var ds := Decisions(o, reqs);
    var n := FirstInvalidTimestamp(o, reqs);
    RepliesAt(reqs, ds, failures, ImmediateIdx(ds, n) + PendingIdx(ds, n))
  }

  /** As written, a stream gets one reply per request before its first
      invalid timestamp and none from there on; only a stream without an
      invalid timestamp gets the replies of `Write`. */
  lemma AsWrittenStopsAtInvalidTimestamp(o: Oracles, reqs: seq<WriteRequest>, failures: Option<map<NodeId, Status>>)
    ensures |RepliesAsWritten(o, reqs, failures)| == FirstInvalidTimestamp(o, reqs)
    ensures FirstInvalidTimestamp(o, reqs) == |reqs| ==> RepliesAsWritten(o, reqs, failures) == Replies(o, reqs, failures)
    ensures FirstInvalidTimestamp(o, reqs) < |reqs| ==> |RepliesAsWritten(o, reqs, failures)| < |Replies(o, reqs, failures)|
  {
    var ds := Decisions(o, reqs);
    SplitCount(ds, FirstInvalidTimestamp(o, reqs));
    ExactlyOneReplyPerRequest(ds);
  }

  /** The discrepancy on a concrete stream: a valid request, one without a
      timestamp and another valid one (with no route, so both valid ones are
      rejected at once) get one reply as written, against three from
      `Write`. */
  lemma LostRepliesExample(md: Metadata)
    ensures var o := Oracles((t: Option<int>) => t.Some?, map[], (m: Metadata, tf: seq<TagFamily>) => None, (g: string, n: string, sh: nat) => None, (i: nat, nd: NodeId) => Failed);
      var reqs := [WriteRequest(md, Element(Some(1), []), 1),
                   WriteRequest(md, Element(None, []), 2),
                   WriteRequest(md, Element(Some(1), []), 3)];
      |RepliesAsWritten(o, reqs, None)| == 1 && |Replies(o, reqs, None)| == 3
  {
    var o := Oracles((t: Option<int>) => t.Some?, map[], (m: Metadata, tf: seq<TagFamily>) => None, (g: string, n: string, sh: nat) => None, (i: nat, nd: NodeId) => Failed);
    var reqs := [WriteRequest(md, Element(Some(1), []), 1),
                 WriteRequest(md, Element(None, []), 2),
                 WriteRequest(md, Element(Some(1), []), 3)];
    assert reqs[1..][1..] == [reqs[2]];
    assert FirstInvalidTimestamp(o, reqs[1..]) == 0;
    assert FirstInvalidTimestamp(o, reqs) == 1;
    AsWrittenStopsAtInvalidTimestamp(o, reqs, None);
    ExactlyOneReplyPerRequest(Decisions(o, reqs));
  }
}
