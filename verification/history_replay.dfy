/** History replay: what a subscriber of a process node ends up receiving.

    Every operation of groklog/process_node/base.py that touches a node is a
    `Step`; a run of a node is a sequence of steps. The theorem of this module
    is the promise of `subscribe_with_history`: a subscriber that joins with
    the history, blocking or through the queue, receives the whole history of
    its topic followed by every later chunk, with no gap and no duplicate.
    A subscriber registered with the plain `subscribe` receives every chunk
    recorded after it joined. */
module HistoryReplay {
  import opened Exceptions
  import opened PubSub
  import opened ProcessNode

  /** The operations of a process node, each one atomic. */
  datatype Step =
    /** `_record_and_publish(data)` */
    | Chunk(data: seq<byte>)
    /** `subscribe_with_history(topic, subscriber, blocking=...)` */
    | HistorySubscription(topic: Topic, subscriber: Subscriber, blocking: bool)
    /** `_onboard_new_subscribers()` */
    | DrainQueue
    /** the mixin's plain `subscribe(topic, subscriber)` */
    | PlainSubscription(topic: Topic, subscriber: Subscriber)
    /** `add_child(child)` */
    | ChildAdded(child: Node)
    /** `close()` */
    | Closed

  /** The node after one step. A step that raises leaves the node as it was
      when the exception was raised. */
  function Apply(n: Node, step: Step, decode: Decoder): (r: Node)
    ensures n.calls <= r.calls
    ensures n.bytesHistory <= r.bytesHistory && n.stringHistory <= r.stringHistory
    ensures RegistryGrows(n.registry, r.registry)
    ensures Wf(n) && DecoderSound(decode) ==> Wf(r)
  {
    match step
    case Chunk(data) => RecordAndPublish(n, data, decode)
    case HistorySubscription(t, s, blocking) =>
      (match SubscribeWithHistory(n, t, s, blocking)
       case Ok(m) => m
       case Err(_) => n)
    case DrainQueue =>
      OnboardNewSubscribersKeepsRegistrations(n);
      OnboardNewSubscribers(n).node
    case PlainSubscription(t, s) =>
      (match Subscribe(n.registry, t, s)
       case Ok(reg) =>
         assert RegistryGrows(n.registry, reg) by {
           forall u: Topic, v: Subscriber | IsSubscribed(n.registry, u, v)
             ensures IsSubscribed(reg, u, v)
           {
             SubscribeAddsExactlyOne(n.registry, t, s, u, v);
           }
         }
         n.(registry := reg)
       case Err(_) => n)
    case ChildAdded(child) => AddChild(n, child)
    case Closed => Close(n).node
  }

  /** The node after a run of steps, in order. */
  function Run(n: Node, steps: seq<Step>, decode: Decoder): (r: Node)
    decreases |steps|
    ensures n.calls <= r.calls
    ensures n.bytesHistory <= r.bytesHistory && n.stringHistory <= r.stringHistory
    ensures RegistryGrows(n.registry, r.registry)
    ensures Wf(n) && DecoderSound(decode) ==> Wf(r)
  {
    if steps == [] then n else Run(Apply(n, steps[0], decode), steps[1..], decode)
  }

  /** Since position `k` of the trace, `s` has received on topic `t`
      exactly the topic's history from position `h` on, in order. */
  predicate ReceivedSince(n: Node, k: nat, t: Topic, s: Subscriber, h: nat) {
    && k <= |n.calls|
    && match t
       case BytesDataStream =>
         h <= |n.bytesHistory| && JoinBytes(Received(n.calls[k..], t, s)) == n.bytesHistory[h..]
       case StringDataStream =>
         h <= |n.stringHistory| && JoinText(Received(n.calls[k..], t, s)) == n.stringHistory[h..]
  }

  /** The invariant that follows one (topic, subscriber) pair through a run:
      once registered it has received the history from `h` on; before that
      it has received nothing since `k`. */
  predicate Tracked(n: Node, k: nat, t: Topic, s: Subscriber, h: nat) {
    && k <= |n.calls|
    && if IsSubscribed(n.registry, t, s) then ReceivedSince(n, k, t, s, h)
       else Received(n.calls[k..], t, s) == [] && h == 0
  }

  /** Appending calls that do not reach (t, s) keeps it tracked. */
  lemma QuietCalls(n: Node, m: Node, k: nat, t: Topic, s: Subscriber, h: nat)
    requires Tracked(n, k, t, s, h)
    requires n.calls <= m.calls && Received(m.calls[|n.calls|..], t, s) == []
    requires n.bytesHistory == m.bytesHistory && n.stringHistory == m.stringHistory
    requires IsSubscribed(m.registry, t, s) <==> IsSubscribed(n.registry, t, s)
    ensures Tracked(m, k, t, s, h)
  {
    assert m.calls[k..] == n.calls[k..] + m.calls[|n.calls|..];
    ReceivedAppend(n.calls[k..], m.calls[|n.calls|..], t, s);
    assert Received(m.calls[k..], t, s) == Received(n.calls[k..], t, s);
  }

  /** A registered pair handed its topic's new history stays in step. */
  lemma ExtendsBy(n: Node, m: Node, k: nat, t: Topic, s: Subscriber, h: nat, p: Payload)
    requires ReceivedSince(n, k, t, s, h)
    requires k <= |m.calls| && Received(m.calls[k..], t, s) == Received(n.calls[k..], t, s) + [p]
    requires t == BytesDataStream ==>
               n.bytesHistory <= m.bytesHistory && p == BytesPayload(m.bytesHistory[|n.bytesHistory|..])
    requires t == StringDataStream ==>
               n.stringHistory <= m.stringHistory && p == StringPayload(m.stringHistory[|n.stringHistory|..])
    ensures ReceivedSince(m, k, t, s, h)
  {
    var before := Received(n.calls[k..], t, s);
    match t
    case BytesDataStream =>
      JoinBytesAppend(before, [p]);
      assert JoinBytes([p]) == p.bytes;
      assert m.bytesHistory[h..] == n.bytesHistory[h..] + m.bytesHistory[|n.bytesHistory|..];
    case StringDataStream =>
      JoinTextAppend(before, [p]);
      assert JoinText([p]) == p.text;
      assert m.stringHistory[h..] == n.stringHistory[h..] + m.stringHistory[|n.stringHistory|..];
  }

  /** One onboarding keeps every pair tracked; the onboarded pair itself
      receives the whole history of its topic. */
  lemma OnboardKeepsTracked(n: Node, u: Topic, v: Subscriber, k: nat, t: Topic, s: Subscriber, h: nat)
    requires Wf(n) && Tracked(n, k, t, s, h)
    requires OnboardSubscriber(n, u, v).Ok?
    ensures Tracked(OnboardSubscriber(n, u, v).value, k, t, s, h)
  {
    var m := OnboardSubscriber(n, u, v).value;
    var replay := m.calls[|n.calls|..];
    assert replay == (if |n.stringHistory| > 0 then [Call(u, v, HistoryOf(n, u))] else []);
    if u == t && v == s {
      OnboardedPairGetsHistory(n, t, s, k);
    } else {
      assert Received(replay, t, s) == [];
      QuietCalls(n, m, k, t, s, h);
    }
  }

  /** What a pair has received since `k` after the trace grew by `extra`. */
  lemma ReceivedAfterGrowth(calls: seq<Call>, extra: seq<Call>, k: nat, t: Topic, s: Subscriber)
    requires k <= |calls|
    ensures (calls + extra)[k..] == calls[k..] + extra
    ensures Received((calls + extra)[k..], t, s) == Received(calls[k..], t, s) + Received(extra, t, s)
  {
    assert (calls + extra)[k..] == calls[k..] + extra;
    ReceivedAppend(calls[k..], extra, t, s);
  }

  /** A single call reaches exactly its own pair. */
  lemma ReceivedOne(c: Call, t: Topic, s: Subscriber)
    ensures Received([c], t, s) == if c.topic == t && c.subscriber == s then [c.payload] else []
  {
    assert [c][1..] == [];
  }

  /** The replayed history of a topic, joined, is that history. */
  lemma JoinHistory(n: Node, t: Topic)
    ensures t == BytesDataStream ==> JoinBytes([HistoryOf(n, t)]) == n.bytesHistory
    ensures t == StringDataStream ==> JoinText([HistoryOf(n, t)]) == n.stringHistory
  {
    assert [HistoryOf(n, t)][1..] == [];
  }

  /** The onboarded pair, which had received nothing, has now received its
      topic's whole history. */
  lemma OnboardedPairGetsHistory(n: Node, t: Topic, s: Subscriber, k: nat)
    requires Wf(n) && Tracked(n, k, t, s, 0)
    requires OnboardSubscriber(n, t, s).Ok?
    ensures ReceivedSince(OnboardSubscriber(n, t, s).value, k, t, s, 0)
  {
    var m := OnboardSubscriber(n, t, s).value;
    var replay := if |n.stringHistory| > 0 then [Call(t, s, HistoryOf(n, t))] else [];
    assert m.calls == n.calls + replay;
    assert Received(n.calls[k..], t, s) == [];
    ReceivedAfterGrowth(n.calls, replay, k, t, s);
    if |n.stringHistory| > 0 {
      ReceivedOne(Call(t, s, HistoryOf(n, t)), t, s);
      assert Received(m.calls[k..], t, s) == [HistoryOf(n, t)];
      JoinHistory(n, t);
    } else {
      assert Received(m.calls[k..], t, s) == [];
      assert n.bytesHistory == [];
    }
  }

  /** Draining the queue keeps every pair tracked. */
  lemma {:induction false} DrainKeepsTracked(n: Node, k: nat, t: Topic, s: Subscriber, h: nat)
    decreases |n.pending|
    requires Wf(n) && Tracked(n, k, t, s, h)
    ensures Tracked(OnboardNewSubscribers(n).node, k, t, s, h)
  {
    if n.running && n.pending != [] {
      var q := n.pending[0];
      var taken := n.(pending := n.pending[1..]);
      assert Tracked(taken, k, t, s, h);
      var onboarded := OnboardSubscriber(taken, q.topic, q.subscriber);
      if onboarded.Ok? {
        var m := onboarded.value;
        assert OnboardNewSubscribers(n) == OnboardNewSubscribers(m);
        OnboardKeepsTracked(taken, q.topic, q.subscriber, k, t, s, h);
        DrainKeepsTracked(m, k, t, s, h);
      }
    }
  }

  /** A recorded chunk reaches a tracked pair exactly when it is registered,
      and then extends what it has received by the chunk. */
  lemma ChunkKeepsTracked(n: Node, data: seq<byte>, decode: Decoder, k: nat, t: Topic, s: Subscriber, h: nat)
    requires Wf(n) && Tracked(n, k, t, s, h)
    ensures Tracked(RecordAndPublish(n, data, decode), k, t, s, h)
  {
    var m := RecordAndPublish(n, data, decode);
    var published := m.calls[|n.calls|..];
    assert m.calls == n.calls + published;
    var got := Received(published, t, s);
    assert got == if !IsSubscribed(n.registry, t, s) then []
                  else if t == StringDataStream then [StringPayload(decode(data))]
                  else [BytesPayload(data)] by {
      RecordDeliversOnce(n, data, decode, t, s);
    }
    assert Received(m.calls[k..], t, s) == Received(n.calls[k..], t, s) + got by {
      ReceivedAfterGrowth(n.calls, published, k, t, s);
    }
    if IsSubscribed(n.registry, t, s) {
      assert m.bytesHistory[|n.bytesHistory|..] == data;
      assert m.stringHistory[|n.stringHistory|..] == decode(data);
      ExtendsBy(n, m, k, t, s, h, got[0]);
    } else {
      assert Received(m.calls[k..], t, s) == Received(n.calls[k..], t, s);
    }
  }

  /** Every step but a plain subscription of the tracked pair itself keeps
      the pair tracked. */
  lemma StepKeepsTracked(n: Node, step: Step, decode: Decoder, k: nat, t: Topic, s: Subscriber, h: nat)
    requires Wf(n) && Tracked(n, k, t, s, h)
    requires step == PlainSubscription(t, s) ==> IsSubscribed(n.registry, t, s)
    ensures Tracked(Apply(n, step, decode), k, t, s, h)
  {
    match step
    case Chunk(data) =>
      ChunkKeepsTracked(n, data, decode, k, t, s, h);
    case HistorySubscription(u, v, blocking) =>
      if blocking {
        if OnboardSubscriber(n, u, v).Ok? {
          OnboardKeepsTracked(n, u, v, k, t, s, h);
        }
      } else {
        QuietCalls(n, Apply(n, step, decode), k, t, s, h);
      }
    case DrainQueue =>
      DrainKeepsTracked(n, k, t, s, h);
    case PlainSubscription(u, v) =>
      var m := Apply(n, step, decode);
      if Subscribe(n.registry, u, v).Ok? {
        SubscribeAddsExactlyOne(n.registry, u, v, t, s);
      }
      QuietCalls(n, m, k, t, s, h);
    case ChildAdded(child) =>
      QuietCalls(n, Apply(n, step, decode), k, t, s, h);
    case Closed =>
      QuietCalls(n, Apply(n, step, decode), k, t, s, h);
  }

  lemma {:induction false} RunKeepsTracked(n: Node, steps: seq<Step>, decode: Decoder, k: nat, t: Topic, s: Subscriber, h: nat)
    decreases |steps|
    requires Wf(n) && DecoderSound(decode) && Tracked(n, k, t, s, h)
    requires IsSubscribed(n.registry, t, s)
             || forall i :: 0 <= i < |steps| ==> steps[i] != PlainSubscription(t, s)
    ensures Tracked(Run(n, steps, decode), k, t, s, h)
  {
    if steps != [] {
      var m := Apply(n, steps[0], decode);
      StepKeepsTracked(n, steps[0], decode, k, t, s, h);
      assert IsSubscribed(n.registry, t, s) ==> IsSubscribed(m.registry, t, s);
      assert forall i :: 0 <= i < |steps[1..]| ==> steps[1..][i] == steps[i + 1];
      RunKeepsTracked(m, steps[1..], decode, k, t, s, h);
    }
  }

  /** No gap, no duplicate: a pair that joins with the history, at once or
      through the queue, has received since the run began exactly its
      topic's whole history, in order; until it joins it receives nothing. */
  lemma NoGapNoDuplicate(n: Node, steps: seq<Step>, decode: Decoder, t: Topic, s: Subscriber)
    requires Wf(n) && DecoderSound(decode) && !IsSubscribed(n.registry, t, s)
    requires forall i :: 0 <= i < |steps| ==> steps[i] != PlainSubscription(t, s)
    ensures var r := Run(n, steps, decode);
            IsSubscribed(r.registry, t, s) ==> ReceivedSince(r, |n.calls|, t, s, 0)
    ensures var r := Run(n, steps, decode);
            !IsSubscribed(r.registry, t, s) ==> Received(r.calls[|n.calls|..], t, s) == []
  {
    assert n.calls[|n.calls|..] == [];
    RunKeepsTracked(n, steps, decode, |n.calls|, t, s, 0);
  }

  /** The length of a topic's history, in that topic's units. */
  function HistoryLength(n: Node, t: Topic): nat {
    match t
    case BytesDataStream => |n.bytesHistory|
    case StringDataStream => |n.stringHistory|
  }

  /** A pair registered with the plain `subscribe` receives, from then on,
      exactly the part of the history recorded after it joined. */
  lemma LiveSubscriberMissesNothing(n: Node, steps: seq<Step>, decode: Decoder, t: Topic, s: Subscriber)
    requires Wf(n) && DecoderSound(decode) && !IsSubscribed(n.registry, t, s)
    ensures ReceivedSince(Run(n, [PlainSubscription(t, s)] + steps, decode), |n.calls|, t, s, HistoryLength(n, t))
  {
    var m := Apply(n, PlainSubscription(t, s), decode);
    SubscribeAddsExactlyOne(n.registry, t, s, t, s);
    assert m.calls[|n.calls|..] == [];
    assert Tracked(m, |n.calls|, t, s, HistoryLength(n, t));
    assert ([PlainSubscription(t, s)] + steps)[1..] == steps;
    RunKeepsTracked(m, steps, decode, |n.calls|, t, s, HistoryLength(n, t));
  }

  /** A child added to a node receives, once the queue has been drained,
      the node's whole byte history and then every later byte chunk: the
      wiring `add_child` sets up for a new filter. */
  lemma ChildReceivesParentHistory(n: Node, child: Node, steps: seq<Step>, decode: Decoder)
    requires Wf(n) && DecoderSound(decode)
    requires !IsSubscribed(n.registry, BytesDataStream, ChildWriter(child.name))
    requires forall i :: 0 <= i < |steps| ==> steps[i] != PlainSubscription(BytesDataStream, ChildWriter(child.name))
    ensures var r := Run(n, [ChildAdded(child)] + steps, decode);
            IsSubscribed(r.registry, BytesDataStream, ChildWriter(child.name)) ==>
              JoinBytes(Received(r.calls[|n.calls|..], BytesDataStream, ChildWriter(child.name))) == r.bytesHistory
  {
    var all := [ChildAdded(child)] + steps;
    assert forall i :: 0 <= i < |all| ==> all[i] != PlainSubscription(BytesDataStream, ChildWriter(child.name)) by {
      forall i | 0 <= i < |all|
        ensures all[i] != PlainSubscription(BytesDataStream, ChildWriter(child.name))
      {
        if i > 0 { assert all[i] == steps[i - 1]; }
      }
    }
    NoGapNoDuplicate(n, all, decode, BytesDataStream, ChildWriter(child.name));
  }
}
