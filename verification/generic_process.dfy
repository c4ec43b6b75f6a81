/** The pipe-backed process node of groklog/process_node/generic_process.py.

    The subprocess itself is outside the model: its standard input is the
    sequence of bytes written into it, and its standard output is the
    sequence of bytes it has produced that the node has not read yet. The
    extraction thread's loop is modelled one iteration at a time. */
module GenericProcess {
  import opened Exceptions
  import opened PubSub
  import opened ProcessNode
  import HistoryReplay

  /** A `GenericProcessIO`: the node, what has been written to the
      process's stdin, the unread output waiting in its stdout pipe, and
      whether the extraction thread is still alive. */
  datatype GenericProcessIO = GenericProcessIO(
    node: Node,
    stdin: seq<byte>,
    stdout: seq<byte>,
    draining: bool)

  /** `GenericProcessIO.__init__`: the process is spawned, the node is
      running and its extraction thread started. */
  function New(name: string, command: string): (g: GenericProcessIO)
    ensures g.node.running && g.draining && Wf(g.node)
    ensures g.node.name == name && g.node.command == command
    ensures g.node.bytesHistory == [] && g.node.stringHistory == [] && g.node.calls == []
    ensures g.node.pending == [] && g.node.children == []
    ensures g.stdin == [] && g.stdout == []
  {
    GenericProcessIO(Create(name, command).(running := true), [], [], true)
  }

  /** `write`: dropped once the node has stopped running; otherwise the
      bytes go to the process's stdin. */
  function Write(g: GenericProcessIO, data: seq<byte>): (r: GenericProcessIO)
    ensures !g.node.running ==> r == g
    ensures g.node.running ==> r.stdin == g.stdin + data
    ensures r.node == g.node && r.stdout == g.stdout && r.draining == g.draining
  {
    if !g.node.running then g else g.(stdin := g.stdin + data)
  }

  /** The bytes of a list of chunks, concatenated in order. */
  function Concat(chunks: seq<seq<byte>>): seq<byte> {
    if chunks == [] then [] else chunks[0] + Concat(chunks[1..])
  }

  /** Several writes, in call order. */
  function WriteAll(g: GenericProcessIO, chunks: seq<seq<byte>>): GenericProcessIO
    decreases |chunks|
  {
    if chunks == [] then g else WriteAll(Write(g, chunks[0]), chunks[1..])
  }

  /** While the node runs, its stdin receives the written bytes in call
      order, and nothing else about the node changes. */
  lemma {:induction false} WritesArriveInCallOrder(g: GenericProcessIO, chunks: seq<seq<byte>>)
    decreases |chunks|
    requires g.node.running
    ensures WriteAll(g, chunks).stdin == g.stdin + Concat(chunks)
    ensures WriteAll(g, chunks).node == g.node && WriteAll(g, chunks).stdout == g.stdout
  {
    if chunks != [] {
      WritesArriveInCallOrder(Write(g, chunks[0]), chunks[1..]);
    }
  }

  /** `close`: the node and its children stop, and the extraction thread is
      joined. */
  function Stop(g: GenericProcessIO): (r: GenericProcessIO)
    ensures !r.node.running && !r.draining
    ensures r.stdin == g.stdin && r.stdout == g.stdout
  {
    g.(node := Close(g.node).node, draining := false)
  }

  /** Once closed, any number of writes change nothing. */
  lemma {:induction false} WritesAfterCloseIgnored(g: GenericProcessIO, chunks: seq<seq<byte>>)
    decreases |chunks|
    ensures WriteAll(Stop(g), chunks) == Stop(g)
  {
    if chunks != [] {
      assert Write(Stop(g), chunks[0]) == Stop(g);
      WritesAfterCloseIgnored(g, chunks[1..]);
    }
  }

  /** The process producing more output; outside the model's control. */
  function Emit(g: GenericProcessIO, output: seq<byte>): (r: GenericProcessIO)
    ensures r.stdout == g.stdout + output
    ensures r.node == g.node && r.stdin == g.stdin && r.draining == g.draining
  {
    g.(stdout := g.stdout + output)
  }

  /** `stdout.read1(_READ_MAX_BYTES)` on the non-blocking pipe: whatever is
      waiting, up to the ceiling. */
  function ReadChunk(stdout: seq<byte>): (chunk: seq<byte>)
    ensures chunk <= stdout
    ensures |chunk| <= READ_MAX_BYTES
    ensures |chunk| == 0 <==> |stdout| == 0
  {
    if |stdout| <= READ_MAX_BYTES then stdout else stdout[..READ_MAX_BYTES]
  }

  /** One pass of `_background`'s loop. A stopped node ends the thread; a
      running one first onboards queued subscribers (an exception there ends
      the thread), then reads; an empty read leaves the node as onboarding
      left it, anything else is recorded and published. */
  function BackgroundIteration(g: GenericProcessIO, decode: Decoder): (r: GenericProcessIO)
    ensures !g.draining ==> r == g
    ensures !g.node.running ==> r.node == g.node && !r.draining
    ensures r.stdin == g.stdin
    ensures r.node.bytesHistory + r.stdout == g.node.bytesHistory + g.stdout
    ensures |r.node.bytesHistory| <= |g.node.bytesHistory| + READ_MAX_BYTES
  {
    if !g.draining then g
    else if !g.node.running then g.(draining := false)
    else
      var drained := OnboardNewSubscribers(g.node);
      if drained.error.Some? then g.(node := drained.node, draining := false)
      else
        var chunk := ReadChunk(g.stdout);
        if |chunk| == 0 then g.(node := drained.node)
        else
          PrefixThenRest(g.stdout, chunk);
          AppendAssociates(g.node.bytesHistory, chunk, g.stdout[|chunk|..]);
          g.(node := RecordAndPublish(drained.node, chunk, decode), stdout := g.stdout[|chunk|..])
  }

  /** An iteration keeps the node well formed, leaves it running, and
      changes neither history when the pipe was empty. With no subscriber
      queued the thread survives and the queue stays empty. */
  lemma IterationKeepsNode(g: GenericProcessIO, decode: Decoder)
    ensures BackgroundIteration(g, decode).node.running == g.node.running
    ensures g.stdout == [] ==> BackgroundIteration(g, decode).node.bytesHistory == g.node.bytesHistory
                               && BackgroundIteration(g, decode).node.stringHistory == g.node.stringHistory
    ensures g.draining && g.node.running && g.node.pending == [] ==>
              BackgroundIteration(g, decode).draining && BackgroundIteration(g, decode).node.pending == []
    ensures Wf(g.node) && DecoderSound(decode) ==> Wf(BackgroundIteration(g, decode).node)
  {
    if g.draining && g.node.running {
      OnboardNewSubscribersKeepsRegistrations(g.node);
    }
  }

  /** The steps of the node that one iteration performs. */
  function IterationSteps(g: GenericProcessIO): seq<HistoryReplay.Step> {
    if !g.draining || !g.node.running then []
    else if OnboardNewSubscribers(g.node).error.Some? || |ReadChunk(g.stdout)| == 0 then [HistoryReplay.DrainQueue]
    else [HistoryReplay.DrainQueue, HistoryReplay.Chunk(ReadChunk(g.stdout))]
  }

  /** An iteration onboards the queued subscribers before it reads, records
      at most one chunk, and is a run of base-node steps with no plain
      subscription; so the replay guarantees of the base node hold for a
      generic node. */
  lemma IterationIsNodeRun(g: GenericProcessIO, decode: Decoder)
    ensures BackgroundIteration(g, decode).node == HistoryReplay.Run(g.node, IterationSteps(g), decode)
    ensures forall i :: 0 <= i < |IterationSteps(g)| ==> !IterationSteps(g)[i].PlainSubscription?
    ensures |IterationSteps(g)| > 0 ==> IterationSteps(g)[0] == HistoryReplay.DrainQueue
  {
    var steps := IterationSteps(g);
    if |steps| == 2 {
      var drained := HistoryReplay.Apply(g.node, steps[0], decode);
      assert steps[1..] == [HistoryReplay.Chunk(ReadChunk(g.stdout))];
      assert HistoryReplay.Run(g.node, steps, decode)
             == HistoryReplay.Run(drained, steps[1..], decode);
    } else if |steps| == 1 {
      assert HistoryReplay.Run(g.node, steps, decode)
             == HistoryReplay.Run(HistoryReplay.Apply(g.node, steps[0], decode), [], decode);
    }
  }

  /** `k` passes of the extraction loop with no new output in between. */
  function Iterate(g: GenericProcessIO, k: nat, decode: Decoder): (r: GenericProcessIO)
    ensures r.node.bytesHistory + r.stdout == g.node.bytesHistory + g.stdout
    ensures r.stdin == g.stdin
    ensures g.draining && g.node.running && g.node.pending == [] ==>
              r.draining && r.node.running && r.node.pending == []
    decreases k
  {
    if k == 0 then g
    else
      var next := BackgroundIteration(g, decode);
      IterationKeepsNode(g, decode);
      Iterate(next, k - 1, decode)
  }

  /** With no subscriber queued, a pass reads one chunk off the pipe into
      the byte history and leaves the thread and the node running. */
  lemma QuietIterationReadsChunk(g: GenericProcessIO, decode: Decoder)
    requires g.draining && g.node.running && g.node.pending == []
    ensures var r := BackgroundIteration(g, decode);
            && r.draining && r.node.running && r.node.pending == []
            && r.stdout == g.stdout[|ReadChunk(g.stdout)|..]
            && r.node.bytesHistory == g.node.bytesHistory + ReadChunk(g.stdout)
  {
    assert OnboardNewSubscribers(g.node) == Drained(g.node, None);
  }

  lemma PrefixThenRest(s: seq<byte>, p: seq<byte>)
    requires p <= s
    ensures s == p + s[|p|..]
  {
  }

  /** The number of reads of at most READ_MAX_BYTES bytes that it takes to
      read `n` bytes off the pipe: n / READ_MAX_BYTES rounded up. */
  function Passes(n: nat): (k: nat)
    decreases n
    ensures n == 0 <==> k == 0
  {
    if n == 0 then 0
    else if n <= READ_MAX_BYTES then 1
    else 1 + Passes(n - READ_MAX_BYTES)
  }

  /** With no subscriber waiting, enough passes read all pending output:
      the pipe is empty and the byte history has grown by exactly the
      output, in order. */
  lemma {:induction false} DrainEmptiesPipe(g: GenericProcessIO, k: nat, decode: Decoder)
    requires g.draining && g.node.running && g.node.pending == []
    requires Passes(|g.stdout|) <= k
    decreases k, 1
    ensures Iterate(g, k, decode).stdout == []
    ensures Iterate(g, k, decode).node.bytesHistory == g.node.bytesHistory + g.stdout
  {
    if k > 0 {
      DrainFirstPass(g, k, decode);
    } else {
      assert g.stdout == [];
    }
  }

  /** A read off a non-empty pipe leaves output for one pass fewer. */
  lemma ReadLeavesOnePassFewer(stdout: seq<byte>)
    requires |stdout| > 0
    ensures Passes(|stdout[|ReadChunk(stdout)|..]|) == Passes(|stdout|) - 1
  {
    if |stdout| > READ_MAX_BYTES {
      assert |stdout[|ReadChunk(stdout)|..]| == |stdout| - READ_MAX_BYTES;
    }
  }

  /** The first of `k` quiet passes: it reads one chunk into the byte
      history, and the other `k - 1` passes continue from there. */
  lemma QuietFirstPass(g: GenericProcessIO, k: nat, decode: Decoder) returns (next: GenericProcessIO)
    requires g.draining && g.node.running && g.node.pending == [] && 0 < k
    ensures Iterate(g, k, decode) == Iterate(next, k - 1, decode)
    ensures next.draining && next.node.running && next.node.pending == []
    ensures next.stdout == g.stdout[|ReadChunk(g.stdout)|..]
    ensures next.node.bytesHistory == g.node.bytesHistory + ReadChunk(g.stdout)
  {
    next := BackgroundIteration(g, decode);
    QuietIterationReadsChunk(g, decode);
  }

  /** The first of the passes reads one chunk, and the rest drain what is
      left. */
  lemma {:induction false} DrainFirstPass(g: GenericProcessIO, k: nat, decode: Decoder)
    requires g.draining && g.node.running && g.node.pending == []
    requires 0 < k && Passes(|g.stdout|) <= k
    decreases k, 0
    ensures Iterate(g, k, decode).stdout == []
    ensures Iterate(g, k, decode).node.bytesHistory == g.node.bytesHistory + g.stdout
  {
    var next := QuietFirstPass(g, k, decode);
    var chunk := ReadChunk(g.stdout);
    if |g.stdout| > 0 {
      ReadLeavesOnePassFewer(g.stdout);
    }
    DrainEmptiesPipe(next, k - 1, decode);
    PrefixThenRest(g.stdout, chunk);
    AppendAssociates(g.node.bytesHistory, chunk, next.stdout);
  }
}
