/** The process node of groklog/process_node/base.py as a state machine.

    A node keeps two append-only histories (raw bytes, and the per-chunk
    decoded text), a registry of subscribers for its two topics, a FIFO of
    subscribers waiting to be onboarded with the history, and its ordered
    children. Each locked region of the source is one atomic transition;
    onboarding's duplicate check, which the source makes just before taking
    the lock, is folded into the same transition.
    Every callback invocation is appended to `calls`, so the trace records
    exactly what each subscriber has been handed and in which order. */
module ProcessNode {
  import opened Exceptions
  import opened PubSub

  /** `ProcessNode._READ_MAX_BYTES`: the ceiling of one read of output. */
  const READ_MAX_BYTES: nat := 102400

  /** `bytes.decode("utf8", "replace")`, left uninterpreted. */
  type Decoder = seq<byte> -> string

  /** What the model assumes of the decoder: empty input, and only empty
      input, decodes to empty text (each undecodable byte still yields a
      replacement character). */
  ghost predicate DecoderSound(decode: Decoder) {
    forall d: seq<byte> :: |decode(d)| == 0 <==> |d| == 0
  }

  /** A reference to a live process node object, tagged with its class:
      a `ShellProcessIO` or any other node such as a `GenericProcessIO`. */
  datatype NodeRef = ShellRef(id: nat) | GenericRef(id: nat)

  /** A pending `subscribe_with_history(..., blocking=False)` request. */
  datatype Request = Request(topic: Topic, subscriber: Subscriber)

  datatype Node = Node(
    name: string,
    command: string,
    running: bool,
    children: seq<Node>,
    pending: seq<Request>,
    registry: Registry,
    bytesHistory: seq<byte>,
    stringHistory: string,
    calls: seq<Call>)

  /** The node's well-formedness: no pair is registered twice, and the byte
      history is empty exactly when the text history is. */
  predicate Wf(n: Node) {
    && NoDuplicates(n.registry)
    && (|n.bytesHistory| == 0 <==> |n.stringHistory| == 0)
  }

  /** The history of a topic, as the payload replayed to a new subscriber. */
  function HistoryOf(n: Node, t: Topic): Payload {
    match t
    case StringDataStream => StringPayload(n.stringHistory)
    case BytesDataStream => BytesPayload(n.bytesHistory)
  }

  /** Histories, queue, running flag and children are those of `n`. */
  predicate SameStreamState(n: Node, m: Node) {
    && m.name == n.name && m.command == n.command
    && m.running == n.running && m.children == n.children && m.pending == n.pending
    && m.bytesHistory == n.bytesHistory && m.stringHistory == n.stringHistory
  }

  /** Every registration of `reg` is still present in `reg'`. */
  ghost predicate RegistryGrows(reg: Registry, reg': Registry) {
    forall t: Topic, s: Subscriber :: IsSubscribed(reg, t, s) ==> IsSubscribed(reg', t, s)
  }

  /** `ProcessNode.__init__`: a node with empty histories, no subscribers,
      no pending requests and no children; the subclass starts it. */
  function Create(name: string, command: string): (n: Node)
    ensures Wf(n) && !n.running && n.name == name && n.command == command
    ensures n.bytesHistory == [] && n.stringHistory == [] && n.calls == []
    ensures n.pending == [] && n.children == []
    ensures forall t: Topic, s: Subscriber :: !IsSubscribed(n.registry, t, s)
  {
    Node(name, command, false, [], [], EmptyRegistry, [], [], [])
  }

  /** `_record_and_publish`: append the chunk and its decoding to the
      histories, then publish the text and then the bytes. */
  function RecordAndPublish(n: Node, data: seq<byte>, decode: Decoder): (r: Node)
    ensures r.bytesHistory == n.bytesHistory + data
    ensures r.stringHistory == n.stringHistory + decode(data)
    ensures n.calls <= r.calls
    ensures r.registry == n.registry && r.pending == n.pending
    ensures r.running == n.running && r.children == n.children
    ensures r.name == n.name && r.command == n.command
    ensures Wf(n) && DecoderSound(decode) ==> Wf(r)
  {
    var text := decode(data);
    n.(bytesHistory := n.bytesHistory + data,
       stringHistory := n.stringHistory + text,
       calls := n.calls
                + (Publish(n.registry, StringDataStream, StringPayload(text))
                   + Publish(n.registry, BytesDataStream, BytesPayload(data))))
  }

  /** The calls one record-and-publish makes: every text subscriber in
      registration order with the decoded chunk, then every byte subscriber
      in registration order with the raw chunk. */
  lemma RecordPublishesTextThenBytes(n: Node, data: seq<byte>, decode: Decoder)
    ensures var published := RecordAndPublish(n, data, decode).calls[|n.calls|..];
            var texts := Subscribers(n.registry, StringDataStream);
            var bytes := Subscribers(n.registry, BytesDataStream);
            && |published| == |texts| + |bytes|
            && (forall i :: 0 <= i < |texts| ==>
                  published[i] == Call(StringDataStream, texts[i], StringPayload(decode(data))))
            && (forall i :: |texts| <= i < |published| ==>
                  published[i] == Call(BytesDataStream, bytes[i - |texts|], BytesPayload(data)))
  {
    var texts := Publish(n.registry, StringDataStream, StringPayload(decode(data)));
    var bytes := Publish(n.registry, BytesDataStream, BytesPayload(data));
    assert RecordAndPublish(n, data, decode).calls[|n.calls|..] == texts + bytes;
  }

  /** One record-and-publish hands each registered subscriber its topic's
      variant of the chunk exactly once, and nobody else anything. */
  lemma RecordDeliversOnce(n: Node, data: seq<byte>, decode: Decoder, t: Topic, s: Subscriber)
    requires NoDuplicates(n.registry)
    ensures Received(RecordAndPublish(n, data, decode).calls[|n.calls|..], t, s)
            == if !IsSubscribed(n.registry, t, s) then []
               else if t == StringDataStream then [StringPayload(decode(data))]
               else [BytesPayload(data)]
  {
    var texts := Publish(n.registry, StringDataStream, StringPayload(decode(data)));
    var bytes := Publish(n.registry, BytesDataStream, BytesPayload(data));
    RecordAppendsPublished(n, data, decode);
    ReceivedAppend(texts, bytes, t, s);
    PublishReachesOnce(n.registry, StringDataStream, StringPayload(decode(data)), t, s);
    PublishReachesOnce(n.registry, BytesDataStream, BytesPayload(data), t, s);
  }

  /** The calls a record-and-publish adds are the two publications. */
  lemma RecordAppendsPublished(n: Node, data: seq<byte>, decode: Decoder)
    ensures RecordAndPublish(n, data, decode).calls[|n.calls|..]
            == Publish(n.registry, StringDataStream, StringPayload(decode(data)))
               + Publish(n.registry, BytesDataStream, BytesPayload(data))
  {
    DropPrefix(n.calls, Publish(n.registry, StringDataStream, StringPayload(decode(data)))
                        + Publish(n.registry, BytesDataStream, BytesPayload(data)));
  }

  lemma DropPrefix<T>(a: seq<T>, b: seq<T>)
    ensures (a + b)[|a|..] == b
  {
  }

  lemma AppendAssociates<T>(a: seq<T>, b: seq<T>, c: seq<T>)
    ensures (a + b) + c == a + (b + c)
  {
  }

  /** `_onboard_subscriber`: a registered pair is refused; otherwise the
      subscriber is handed its topic's whole history (only when some text
      history exists) and is then registered. */
  function OnboardSubscriber(n: Node, t: Topic, s: Subscriber): (r: Result<Node>)
    ensures r.Err? <==> IsSubscribed(n.registry, t, s)
    ensures r.Err? ==> r.error == DuplicateSubscriberError
    ensures r.Ok? ==> r.value.registry == Subscribe(n.registry, t, s).value
    ensures r.Ok? ==> r.value.calls
                      == n.calls + (if |n.stringHistory| > 0 then [Call(t, s, HistoryOf(n, t))] else [])
    ensures r.Ok? ==> SameStreamState(n, r.value)
    ensures r.Ok? && Wf(n) ==> Wf(r.value)
  {
    if IsSubscribed(n.registry, t, s) then Err(DuplicateSubscriberError)
    else
      var replay := if |n.stringHistory| > 0 then [Call(t, s, HistoryOf(n, t))] else [];
      Ok(n.(calls := n.calls + replay, registry := Subscribe(n.registry, t, s).value))
  }

  /** A successful onboarding registers exactly the onboarded pair. */
  lemma OnboardRegistersExactlyOne(n: Node, t: Topic, s: Subscriber, u: Topic, v: Subscriber)
    requires OnboardSubscriber(n, t, s).Ok?
    ensures IsSubscribed(OnboardSubscriber(n, t, s).value.registry, u, v)
            <==> IsSubscribed(n.registry, u, v) || (u == t && v == s)
  {
    SubscribeAddsExactlyOne(n.registry, t, s, u, v);
  }

  /** `subscribe_with_history`: onboard at once when blocking, otherwise
      only queue the request (no call, no registration). */
  function SubscribeWithHistory(n: Node, t: Topic, s: Subscriber, blocking: bool): (r: Result<Node>)
    ensures blocking ==> r == OnboardSubscriber(n, t, s)
    ensures !blocking ==> r.Ok? && r.value.pending == n.pending + [Request(t, s)]
    ensures !blocking ==> r.value.calls == n.calls && r.value.registry == n.registry
    ensures !blocking ==> r.value.bytesHistory == n.bytesHistory && r.value.stringHistory == n.stringHistory
    ensures !blocking ==> r.value.running == n.running && r.value.children == n.children
  {
    if blocking then OnboardSubscriber(n, t, s)
    else Ok(n.(pending := n.pending + [Request(t, s)]))
  }

  /** The history replay calls for a run of requests, in queue order, as
      made against histories equal to those of `n`. */
  function ReplayCalls(n: Node, qs: seq<Request>): seq<Call> {
    if |n.stringHistory| == 0 then []
    else seq(|qs|, i requires 0 <= i < |qs| => Call(qs[i].topic, qs[i].subscriber, HistoryOf(n, qs[i].topic)))
  }

  lemma ReplayCallsCons(n: Node, m: Node, q: Request, rest: seq<Request>)
    requires n.stringHistory == m.stringHistory && n.bytesHistory == m.bytesHistory
    ensures ReplayCalls(n, [q] + rest) == ReplayCalls(n, [q]) + ReplayCalls(m, rest)
  {
    if |n.stringHistory| > 0 {
      var whole := ReplayCalls(n, [q] + rest);
      var split := ReplayCalls(n, [q]) + ReplayCalls(m, rest);
      assert |whole| == |split|;
      forall i | 0 <= i < |whole| ensures whole[i] == split[i] {
        if i > 0 {
          assert ([q] + rest)[i] == rest[i - 1];
          assert HistoryOf(n, rest[i - 1].topic) == HistoryOf(m, rest[i - 1].topic);
        }
      }
    }
  }

  /** The outcome of draining the queue: the node, and the exception that
      stopped the drain, if any. */
  datatype Drained = Drained(node: Node, error: Option<Error>)

  /** `_onboard_new_subscribers`: while running, onboard the queued requests
      in FIFO order; a duplicate raises after its request has been taken off
      the queue, leaving the later ones queued. */
  function OnboardNewSubscribers(n: Node): (r: Drained)
    decreases |n.pending|
    ensures !n.running ==> r == Drained(n, None)
    ensures r.node.running == n.running && r.node.children == n.children
    ensures r.node.name == n.name && r.node.command == n.command
    ensures r.node.bytesHistory == n.bytesHistory && r.node.stringHistory == n.stringHistory
    ensures n.calls <= r.node.calls
    ensures r.error.None? && n.running ==> r.node.pending == []
    ensures r.error.Some? ==> n.running && r.error.value == DuplicateSubscriberError
    ensures r.error.Some? ==> |r.node.pending| < |n.pending|
                              && r.node.pending == n.pending[|n.pending| - |r.node.pending|..]
  {
    if !n.running || n.pending == [] then Drained(n, None)
    else
      var q := n.pending[0];
      var taken := n.(pending := n.pending[1..]);
      match OnboardSubscriber(taken, q.topic, q.subscriber)
      case Err(e) => Drained(taken, Some(e))
      case Ok(m) => OnboardNewSubscribers(m)
  }

  /** Draining the queue keeps every registration and the node's
      well-formedness. */
  lemma {:induction false} OnboardNewSubscribersKeepsRegistrations(n: Node)
    decreases |n.pending|
    ensures RegistryGrows(n.registry, OnboardNewSubscribers(n).node.registry)
    ensures Wf(n) ==> Wf(OnboardNewSubscribers(n).node)
  {
    if n.running && n.pending != [] {
      var q := n.pending[0];
      var taken := n.(pending := n.pending[1..]);
      var onboarded := OnboardSubscriber(taken, q.topic, q.subscriber);
      if onboarded.Ok? {
        var m := onboarded.value;
        assert OnboardNewSubscribers(n) == OnboardNewSubscribers(m);
        OnboardNewSubscribersKeepsRegistrations(m);
      }
    }
  }

  /** A drain that raises nothing has handed every queued request its
      topic's history (when there is one), in queue order. */
  lemma {:induction false} OnboardNewSubscribersReplaysInOrder(n: Node)
    decreases |n.pending|
    requires n.running && OnboardNewSubscribers(n).error.None?
    ensures OnboardNewSubscribers(n).node.calls == n.calls + ReplayCalls(n, n.pending)
  {
    if n.pending != [] {
      var q := n.pending[0];
      var taken := n.(pending := n.pending[1..]);
      var m := OnboardSubscriber(taken, q.topic, q.subscriber).value;
      var r := OnboardNewSubscribers(m);
      assert OnboardNewSubscribers(n) == r;
      var head := ReplayCalls(n, [q]);
      var tail := ReplayCalls(m, m.pending);
      assert r.node.calls == m.calls + tail by {
        OnboardNewSubscribersReplaysInOrder(m);
      }
      assert m.calls == n.calls + head by {
        if |n.stringHistory| > 0 {
          assert head == [Call(q.topic, q.subscriber, HistoryOf(n, q.topic))];
        }
      }
      assert ReplayCalls(n, n.pending) == head + tail by {
        assert n.pending == [q] + m.pending;
        ReplayCallsCons(n, m, q, m.pending);
      }
      AppendAssociates(n.calls, head, tail);
    }
  }

  /** A drain that raises nothing has registered every queued request. */
  lemma {:induction false} OnboardNewSubscribersRegistersAll(n: Node)
    decreases |n.pending|
    requires n.running && OnboardNewSubscribers(n).error.None?
    ensures forall q :: q in n.pending ==>
              IsSubscribed(OnboardNewSubscribers(n).node.registry, q.topic, q.subscriber)
  {
    if n.pending != [] {
      var q := n.pending[0];
      var taken := n.(pending := n.pending[1..]);
      var m := OnboardSubscriber(taken, q.topic, q.subscriber).value;
      var r := OnboardNewSubscribers(m);
      assert OnboardNewSubscribers(n) == r;
      OnboardNewSubscribersRegistersAll(m);
      OnboardNewSubscribersKeepsRegistrations(m);
      assert n.pending == [q] + m.pending;
      assert IsSubscribed(r.node.registry, q.topic, q.subscriber);
    }
  }

  /** `add_child`: queue the child's `write` for the byte history (without
      blocking), then append the child to the children. */
  function AddChild(n: Node, child: Node): (r: Node)
    ensures r.pending == n.pending + [Request(BytesDataStream, ChildWriter(child.name))]
    ensures r.children == n.children + [child]
    ensures r.calls == n.calls && r.registry == n.registry && r.running == n.running
    ensures r.bytesHistory == n.bytesHistory && r.stringHistory == n.stringHistory
  {
    var queued := SubscribeWithHistory(n, BytesDataStream, ChildWriter(child.name), false).value;
    queued.(children := queued.children + [child])
  }

  /** Every node of the tree rooted at `n` is stopped. */
  predicate AllStopped(n: Node) {
    !n.running && forall i :: 0 <= i < |n.children| ==> AllStopped(n.children[i])
  }

  /** The two trees differ at most in their running flags. */
  predicate SameExceptRunning(a: Node, b: Node) {
    && a.name == b.name && a.command == b.command && a.pending == b.pending
    && a.registry == b.registry && a.calls == b.calls
    && a.bytesHistory == b.bytesHistory && a.stringHistory == b.stringHistory
    && |a.children| == |b.children|
    && forall i :: 0 <= i < |a.children| ==> SameExceptRunning(a.children[i], b.children[i])
  }

  /** The number of nodes of the tree rooted at `n`. */
  function Size(n: Node): nat
    decreases n, 1
  {
    1 + SizeAll(n.children)
  }

  function SizeAll(ns: seq<Node>): nat
    decreases ns, 0
  {
    if ns == [] then 0 else Size(ns[0]) + SizeAll(ns[1..])
  }

  /** The position of a node in a tree: the child indexes on the way down
      from the root. Positions tell nodes apart even when names repeat. */
  type Path = seq<nat>

  /** `p` leads from `n` down to a node of its tree. */
  predicate IsPath(n: Node, p: Path)
    decreases p
  {
    p == [] || (p[0] < |n.children| && IsPath(n.children[p[0]], p[1..]))
  }

  /** `p` leads from `n` down to a node that is stopped. */
  predicate StoppedAt(n: Node, p: Path)
    decreases p
  {
    if p == [] then !n.running
    else p[0] < |n.children| && StoppedAt(n.children[p[0]], p[1..])
  }

  /** Pre-order on positions: `p` comes strictly before `q` when `q` lies in
      the subtree below `p`, or when, where the two first part ways, `p`
      takes the earlier child. */
  predicate Before(p: Path, q: Path)
    decreases p
  {
    q != [] && (p == [] || p[0] < q[0] || (p[0] == q[0] && Before(p[1..], q[1..])))
  }

  /** A closed tree, and the positions of its nodes in the order `close`
      cleared their running flags. */
  datatype Closing = Closing(node: Node, trace: seq<Path>)

  /** Closed sibling nodes, and the positions `close` stopped, in order,
      relative to their parent. */
  datatype ClosingAll = ClosingAll(nodes: seq<Node>, trace: seq<Path>)

  /** Each position of `ps`, moved below the child with index `k`. */
  function Under(k: nat, ps: seq<Path>): (r: seq<Path>)
    ensures |r| == |ps|
  {
    seq(|ps|, i requires 0 <= i < |ps| => [k] + ps[i])
  }

  /** `close`: stop this node, then close each child in list order. */
  function Close(n: Node): (r: Closing)
    decreases n, 1
    ensures !r.node.running && |r.node.children| == |n.children|
    ensures |r.trace| == Size(n) && r.trace[0] == []
  {
    var rest := CloseAll(n.children, 0);
    Closing(n.(running := false, children := rest.nodes), [[]] + rest.trace)
  }

  /** Close the siblings `ns`, the first of which is child number `first`. */
  function CloseAll(ns: seq<Node>, first: nat): (r: ClosingAll)
    decreases ns, 0
    ensures |r.nodes| == |ns| && |r.trace| == SizeAll(ns)
  {
    if ns == [] then ClosingAll([], [])
    else
      var c := Close(ns[0]);
      var rest := CloseAll(ns[1..], first + 1);
      ClosingAll([c.node] + rest.nodes, Under(first, c.trace) + rest.trace)
  }

  /** `p` leads into the subtree of one of the siblings `ns`, numbered from `first`. */
  predicate IsPathAmong(ns: seq<Node>, first: nat, p: Path) {
    p != [] && first <= p[0] < first + |ns| && IsPath(ns[p[0] - first], p[1..])
  }

  /** After `close`, no node of the tree is running, and nothing but the
      running flags has changed: histories, subscribers, queues and the
      tree's shape are as they were. */
  lemma {:induction false} CloseStopsWholeTree(n: Node)
    decreases n, 1
    ensures AllStopped(Close(n).node)
    ensures SameExceptRunning(n, Close(n).node)
  {
    CloseAllStopsEach(n.children, 0);
  }

  lemma {:induction false} CloseAllStopsEach(ns: seq<Node>, first: nat)
    decreases ns, 0
    ensures forall i :: 0 <= i < |ns| ==>
              AllStopped(CloseAll(ns, first).nodes[i]) && SameExceptRunning(ns[i], CloseAll(ns, first).nodes[i])
  {
    if ns != [] {
      CloseStopsWholeTree(ns[0]);
      CloseAllStopsEach(ns[1..], first + 1);
      var closed := CloseAll(ns, first).nodes;
      forall i | 0 <= i < |ns|
        ensures AllStopped(closed[i]) && SameExceptRunning(ns[i], closed[i])
      {
        if i > 0 {
          assert closed[i] == CloseAll(ns[1..], first + 1).nodes[i - 1];
          assert ns[i] == ns[1..][i - 1];
        }
      }
    }
  }

  /** A position moved below child `k` is in `Under(k, ps)` exactly when
      the rest of it is in `ps`. */
  lemma UnderMembers(k: nat, ps: seq<Path>, p: Path)
    ensures p in Under(k, ps) <==> p != [] && p[0] == k && p[1..] in ps
  {
    var r := Under(k, ps);
    if p in r {
      var i :| 0 <= i < |r| && r[i] == p;
      assert p[1..] == ps[i];
    }
    if p != [] && p[0] == k && p[1..] in ps {
      var i :| 0 <= i < |ps| && ps[i] == p[1..];
      assert r[i] == [k] + p[1..] == p;
    }
  }

  /** `close` reaches every node of the tree and nothing else: a position
      is in its trace exactly when it leads to a node of the tree. */
  lemma {:induction false} CloseTraceCoversTree(n: Node)
    decreases n, 1
    ensures forall p :: p in Close(n).trace <==> IsPath(n, p)
  {
    CloseAllTraceCoversSiblings(n.children, 0);
    var trace := Close(n).trace;
    forall p
      ensures p in trace <==> IsPath(n, p)
    {
      if p != [] {
        assert p in trace <==> p in CloseAll(n.children, 0).trace;
        assert IsPath(n, p) <==> IsPathAmong(n.children, 0, p);
      }
    }
  }

  lemma {:induction false} CloseAllTraceCoversSiblings(ns: seq<Node>, first: nat)
    decreases ns, 0
    ensures forall p :: p in CloseAll(ns, first).trace <==> IsPathAmong(ns, first, p)
  {
    if ns != [] {
      var c := Close(ns[0]);
      var rest := CloseAll(ns[1..], first + 1);
      CloseTraceCoversTree(ns[0]);
      CloseAllTraceCoversSiblings(ns[1..], first + 1);
      forall p
        ensures p in CloseAll(ns, first).trace <==> IsPathAmong(ns, first, p)
      {
        UnderMembers(first, c.trace, p);
        assert p in CloseAll(ns, first).trace <==> p in Under(first, c.trace) || p in rest.trace;
        if p != [] && first + 1 <= p[0] < first + |ns| {
          assert ns[1..][p[0] - (first + 1)] == ns[p[0] - first];
        }
      }
    }
  }

  /** No position comes before itself. */
  lemma {:induction false} BeforeIrreflexive(p: Path)
    decreases p
    ensures !Before(p, p)
  {
    if p != [] {
      BeforeIrreflexive(p[1..]);
    }
  }

  /** The trace is in pre-order, so it lists each node once: `close` stops
      the node itself first, a node before every node of its subtree, and
      the whole subtree of an earlier child before any node of a later one. */
  lemma {:induction false} CloseTraceInPreOrder(n: Node)
    decreases n, 1
    ensures forall i, j :: 0 <= i < j < |Close(n).trace| ==> Before(Close(n).trace[i], Close(n).trace[j])
    ensures forall i, j :: 0 <= i < j < |Close(n).trace| ==> Close(n).trace[i] != Close(n).trace[j]
  {
    var rest := CloseAll(n.children, 0).trace;
    CloseAllTraceInPreOrder(n.children, 0);
    var trace := Close(n).trace;
    forall i, j | 0 <= i < j < |trace|
      ensures Before(trace[i], trace[j]) && trace[i] != trace[j]
    {
      assert trace[j] == rest[j - 1];
      if i > 0 {
        assert trace[i] == rest[i - 1];
      }
      if trace[i] == trace[j] {
        BeforeIrreflexive(trace[i]);
      }
    }
  }

  lemma {:induction false} CloseAllTraceInPreOrder(ns: seq<Node>, first: nat)
    decreases ns, 0
    ensures forall i :: 0 <= i < |CloseAll(ns, first).trace| ==>
              CloseAll(ns, first).trace[i] != [] && first <= CloseAll(ns, first).trace[i][0]
    ensures forall i, j :: 0 <= i < j < |CloseAll(ns, first).trace| ==>
              Before(CloseAll(ns, first).trace[i], CloseAll(ns, first).trace[j])
  {
    if ns != [] {
      var c := Close(ns[0]).trace;
      var rest := CloseAll(ns[1..], first + 1).trace;
      var under := Under(first, c);
      var trace := CloseAll(ns, first).trace;
      CloseTraceInPreOrder(ns[0]);
      CloseAllTraceInPreOrder(ns[1..], first + 1);
      assert trace == under + rest;
      forall i | 0 <= i < |trace|
        ensures trace[i] != [] && first <= trace[i][0]
      {
        if i >= |under| {
          assert trace[i] == rest[i - |under|];
        }
      }
      forall i, j | 0 <= i < j < |trace|
        ensures Before(trace[i], trace[j])
      {
        if j < |under| {
          assert trace[i] == [first] + c[i] && trace[j] == [first] + c[j];
          assert trace[i][1..] == c[i] && trace[j][1..] == c[j];
        } else if i < |under| {
          assert trace[j] == rest[j - |under|];
        } else {
          assert trace[i] == rest[i - |under|] && trace[j] == rest[j - |under|];
        }
      }
    }
  }

  /** Every node the trace names is stopped in the closed tree. */
  lemma {:induction false} CloseStopsTracedNodes(n: Node)
    decreases n, 1
    ensures forall i :: 0 <= i < |Close(n).trace| ==> StoppedAt(Close(n).node, Close(n).trace[i])
  {
    var rest := CloseAll(n.children, 0);
    CloseAllStopsTracedNodes(n.children, 0);
    var r := Close(n);
    forall i | 0 <= i < |r.trace|
      ensures StoppedAt(r.node, r.trace[i])
    {
      if i > 0 {
        assert r.trace[i] == rest.trace[i - 1];
      }
    }
  }

  lemma {:induction false} CloseAllStopsTracedNodes(ns: seq<Node>, first: nat)
    decreases ns, 0
    ensures forall i :: 0 <= i < |CloseAll(ns, first).trace| ==>
              var p := CloseAll(ns, first).trace[i];
              p != [] && first <= p[0] < first + |ns| && StoppedAt(CloseAll(ns, first).nodes[p[0] - first], p[1..])
  {
    if ns != [] {
      var c := Close(ns[0]);
      var rest := CloseAll(ns[1..], first + 1);
      var under := Under(first, c.trace);
      var r := CloseAll(ns, first);
      CloseStopsTracedNodes(ns[0]);
      CloseAllStopsTracedNodes(ns[1..], first + 1);
      forall i | 0 <= i < |r.trace|
        ensures r.trace[i] != [] && first <= r.trace[i][0] < first + |ns|
                && StoppedAt(r.nodes[r.trace[i][0] - first], r.trace[i][1..])
      {
        if i < |under| {
          assert r.trace[i] == [first] + c.trace[i];
          assert r.trace[i][1..] == c.trace[i];
        } else {
          var p := rest.trace[i - |under|];
          assert r.trace[i] == p;
          assert r.nodes[p[0] - first] == rest.nodes[p[0] - (first + 1)];
        }
      }
    }
  }

  /** Closing a closed tree changes nothing, and goes through the same
      nodes in the same order. */
  lemma {:induction false} CloseIdempotent(n: Node)
    decreases n, 1
    ensures Close(Close(n).node) == Close(n)
  {
    CloseAllIdempotent(n.children, 0);
  }

  lemma {:induction false} CloseAllIdempotent(ns: seq<Node>, first: nat)
    decreases ns, 0
    ensures CloseAll(CloseAll(ns, first).nodes, first) == CloseAll(ns, first)
  {
    if ns != [] {
      CloseIdempotent(ns[0]);
      CloseAllIdempotent(ns[1..], first + 1);
      var closed := CloseAll(ns, first).nodes;
      assert closed[0] == Close(ns[0]).node;
      assert closed[1..] == CloseAll(ns[1..], first + 1).nodes;
    }
  }
}
