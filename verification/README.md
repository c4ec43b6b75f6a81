# groklog core in Dafny

A model of the streaming core of groklog, a terminal log viewer. In groklog, shell output flows through a tree of
filter processes.

- **Process node** (`groklog/process_node/base.py`). A node keeps two append-only histories of its output:
  - the raw bytes;
  - the text, decoded chunk by chunk.

  It publishes each chunk on two topics. `subscribe_with_history` hands a new subscriber the whole history of its
  topic and then registers it. This happens either at once, or through a queue that the node drains before its
  next read. `add_child` wires a child's `write` to the byte topic, and `close` stops a whole tree of nodes.
- **Generic process** (`groklog/process_node/generic_process.py`). A node backed by a subprocess.
  - Its `write` is dropped once the node has stopped.
  - Its extraction loop does three things in order: onboard the queued subscribers, read at most 102400 bytes,
    then record and publish what was read.
- **Filter registries** (`groklog/filter_manager/filter_manager.py` and the older
  `groklog/filter_model/filter_model.py`). A name→filter map that starts with a root filter named "Shell". Names
  are unique, lookups of unknown names fail, and iteration follows registration order.
- **Streaming text box** (`groklog/ui/streaming_text_box.py`). The incremental reflow behind the filter viewer.
  New lines are wrapped at the box's width, and their rows are appended to a cache without rebuilding the rows
  already there.

How each part is modelled:

- Every operation is a pure function over immutable datatypes. Each locked region of the source is one atomic
  transition. `_onboard_subscriber` makes its duplicate check just before taking the lock; the model folds that
  check into the same transition.
- Subscriber callbacks are opaque identities. Every callback invocation is appended to a trace (`calls`) in the
  node, so what a subscriber has received is the trace filtered to it (`PubSub.Received`).
- The UTF-8 decoding of a chunk is a function parameter, `decode`. The only property assumed of it
  (`ProcessNode.DecoderSound`) is that empty input, and only empty input, decodes to empty text.
- Exceptions are `Error` values inside a `Result`. Where Python mutates state before it raises, the model returns
  both the state and the error.

The main theorem is `HistoryReplay.NoGapNoDuplicate`. Take any run of node operations and a subscriber that joins
with the history, at once or through the queue. The concatenation of what that subscriber has received is exactly
its topic's whole history: no gap and no duplicate.

## Model

| member | source | states |
|---|---|---|
| PubSub.Subscribe | groklog/process_node/base.py:98 | registering a pair that is already registered is refused with DuplicateSubscriberError; otherwise the subscriber is appended to its own topic only, and a registry without duplicates stays without duplicates |
| PubSub.SecondSubscribeRejected | groklog/process_node/base.py:87-88 | after a registration the pair is registered, earlier pairs stay registered, and registering it again raises DuplicateSubscriberError |
| PubSub.SubscribeAddsExactlyOne | groklog/process_node/base.py:98 | after a successful registration a pair is registered if and only if it was before or it is the new pair |
| PubSub.Publish | groklog/process_node/base.py:62-63 | publishing makes one call per subscriber of the topic, in registration order, each with that topic and the value |
| PubSub.DeliverReachesOnce | groklog/process_node/base.py:62-63 | calling a list of distinct subscribers reaches a given pair exactly once if it is in the list and the topic matches, and never otherwise |
| PubSub.PublishReachesOnce | groklog/process_node/base.py:62-63 | publishing reaches each registered subscriber of the topic exactly once with the value and reaches nobody else |
| ProcessNode.Create | groklog/process_node/base.py:20-38 | a new node has empty histories, no subscriber, an empty queue and no children, and is not yet running |
| ProcessNode.RecordAndPublish | groklog/process_node/base.py:50-63 | the byte history grows by the chunk and the text history by its decoding; earlier calls are kept and nothing else changes; well-formedness is preserved under a sound decoder |
| ProcessNode.RecordPublishesTextThenBytes | groklog/process_node/base.py:62-63 | the calls a record adds are every text subscriber with the decoded chunk, then every byte subscriber with the raw chunk, each in registration order |
| ProcessNode.RecordDeliversOnce | groklog/process_node/base.py:58-63 | a record reaches a pair once, with the decoded chunk on the text topic or the raw chunk on the byte topic, if the pair is registered, and not at all otherwise |
| ProcessNode.OnboardSubscriber | groklog/process_node/base.py:86-98 | a registered pair raises DuplicateSubscriberError and nothing happens. Otherwise the subscriber gets one call with its own topic's whole history (only when the text history is non-empty), and is then registered; histories and queue are untouched |
| ProcessNode.OnboardRegistersExactlyOne | groklog/process_node/base.py:98 | a successful onboarding registers exactly the onboarded pair and keeps every other registration |
| ProcessNode.SubscribeWithHistory | groklog/process_node/base.py:65-74 | blocking means onboarding at once; otherwise the request is only appended to the queue: no call and no registration |
| ProcessNode.OnboardNewSubscribers | groklog/process_node/base.py:76-84 | a stopped node is left as it is. A running node empties its queue unless a duplicate raises; the raise happens after that request was taken off, so only a proper suffix of the queue is left. Histories, flag and children are kept |
| ProcessNode.OnboardNewSubscribersKeepsRegistrations | groklog/process_node/base.py:81-84 | draining the queue never drops a registration and keeps the node well formed |
| ProcessNode.OnboardNewSubscribersReplaysInOrder | groklog/process_node/base.py:81-95 | a drain that raises nothing hands every queued request its topic's history, in FIFO order, when there is a history |
| ProcessNode.OnboardNewSubscribersRegistersAll | groklog/process_node/base.py:82-83 | a drain that raises nothing has registered every queued request |
| ProcessNode.AddChild | groklog/process_node/base.py:43-48 | a non-blocking request for the child's `write` on the byte topic is queued and the child is appended to the children; no call and no registration happen |
| ProcessNode.Close | groklog/process_node/base.py:104-112 | the closed node is stopped, keeps as many children, and its trace has one entry per node of the tree, the first being the node itself |
| ProcessNode.CloseStopsWholeTree | groklog/process_node/base.py:104-112 | after `close` no node of the tree is running, and nothing but the running flags has changed |
| ProcessNode.CloseTraceCoversTree | groklog/process_node/base.py:104-112 | a position is in the trace of `close` exactly when it leads to a node of the tree |
| ProcessNode.CloseTraceInPreOrder | groklog/process_node/base.py:106-112 | the trace lists no node twice and is in pre-order: a node before its whole subtree, and an earlier child's subtree before any node of a later child's |
| ProcessNode.CloseStopsTracedNodes | groklog/process_node/base.py:106-112 | every node the trace names is stopped in the closed tree |
| ProcessNode.CloseIdempotent | groklog/process_node/base.py:104-112 | closing a closed tree changes nothing and reaches the same nodes in the same order |
| HistoryReplay.Apply | groklog/process_node/base.py:43-112 | every node operation only extends the call trace and both histories, never drops a registration, and keeps the node well formed |
| HistoryReplay.Run | groklog/process_node/base.py:43-112 | the same holds for any run of operations |
| HistoryReplay.OnboardedPairGetsHistory | groklog/process_node/base.py:89-98 | a pair that had received nothing has, once onboarded, received exactly its topic's whole history |
| HistoryReplay.ChunkKeepsTracked | groklog/process_node/base.py:58-63 | a recorded chunk extends what a registered pair has received by exactly the chunk, and reaches no unregistered pair |
| HistoryReplay.DrainKeepsTracked | groklog/process_node/base.py:81-84 | draining the queue keeps every pair's received stream in step with the history |
| HistoryReplay.StepKeepsTracked | groklog/process_node/base.py:43-112 | every operation except a plain re-subscription of the pair itself keeps the pair in step with the history |
| HistoryReplay.RunKeepsTracked | groklog/process_node/base.py:43-112 | a whole run keeps the pair in step with the history |
| HistoryReplay.NoGapNoDuplicate | groklog/process_node/base.py:65-98 | a pair that joins with the history has received since the run began exactly its topic's whole history, in order, with no gap or duplicate; until it joins it receives nothing |
| HistoryReplay.LiveSubscriberMissesNothing | groklog/process_node/base.py:62-63 | a pair registered with the plain `subscribe` receives exactly the history recorded after it joined |
| HistoryReplay.ChildReceivesParentHistory | groklog/process_node/base.py:43-48 | once the queue is drained, a child added with `add_child` has received the parent's whole byte history and every later byte chunk |
| GenericProcess.New | groklog/process_node/generic_process.py:12-36 | a new generic node is running with its extraction loop alive, has empty histories, and has written and read nothing |
| GenericProcess.Write | groklog/process_node/generic_process.py:38-45 | a write to a stopped node changes nothing; on a running node the bytes are appended to the process's stdin and nothing else changes |
| GenericProcess.WritesArriveInCallOrder | groklog/process_node/generic_process.py:43-45 | while the node runs, its stdin receives the written bytes in call order |
| GenericProcess.Stop | groklog/process_node/base.py:104-109 | after `close` the node is stopped and the extraction loop has ended |
| GenericProcess.WritesAfterCloseIgnored | groklog/process_node/generic_process.py:40-41 | once closed, any number of writes change nothing |
| GenericProcess.ReadChunk | groklog/process_node/generic_process.py:52 | a read takes a prefix of the waiting output of at most 102400 bytes, and is empty only when nothing is waiting |
| GenericProcess.BackgroundIteration | groklog/process_node/generic_process.py:47-59 | a finished loop does nothing and a stopped node ends the loop; no byte is lost or duplicated between the pipe and the byte history, and at most 102400 bytes are recorded per pass |
| GenericProcess.IterationKeepsNode | groklog/process_node/generic_process.py:54-57 | a pass keeps the node running and well formed; an empty read changes neither history; with nothing queued, the loop survives |
| GenericProcess.IterationIsNodeRun | groklog/process_node/generic_process.py:49-59 | a pass is the base-node run "drain the queue, then record at most one chunk"; onboarding comes before any read |
| GenericProcess.Iterate | groklog/process_node/generic_process.py:47-59 | over any number of passes no byte is lost or duplicated between the pipe and the byte history, and stdin is untouched |
| GenericProcess.QuietIterationReadsChunk | groklog/process_node/generic_process.py:52-59 | with nothing queued, a pass moves exactly one read's worth of output from the pipe to the end of the byte history |
| GenericProcess.DrainEmptiesPipe | groklog/process_node/generic_process.py:47-59 | with nothing queued, enough passes empty the pipe, and the byte history has grown by exactly the pending output, in order |
| FilterManager.Init | groklog/filter_manager/filter_manager.py:21-34 | a new registry holds exactly one filter, "Shell", with an empty command, no parent, the shell as process node and no children |
| FilterManager.Iterate | groklog/filter_manager/filter_manager.py:36-38 | iteration yields each registered filter once, in registration order, root first |
| FilterManager.GetFilter | groklog/filter_manager/filter_manager.py:44-50 | a lookup succeeds exactly for registered names, returning that entry; otherwise it raises FilterNotFoundError, a FilterError |
| FilterManager.RootFilter | groklog/filter_manager/filter_manager.py:40-42 | in a valid registry the root filter exists, is named "Shell", and is the first filter iteration yields |
| FilterManager.CreateFilter | groklog/filter_manager/filter_manager.py:52-80 | a registered name raises DuplicateFilterError. Otherwise exactly one entry is added and registered last, holding the given name, command, parent and node; the parent's children get the new name appended, other entries are untouched, and the registry stays valid |
| FilterManager.CreatedFilterIsRegistered | tests/test_filter_model.py:19-44 | the new filter is found by name, the registry grows by one, and creating the name again raises DuplicateFilterError |
| FilterManager.CreateStep | groklog/filter_manager/filter_manager.py:67-80 | creating under a looked-up parent registers the name last, keeps the registry valid, and appends the name to that parent's children |
| FilterManager.CreateManyKeepsValid | groklog/filter_manager/filter_manager.py:67-80 | any sequence of creations keeps the registry valid: root first, unique names, each filter under its own name |
| FilterManager.CreateManyIteratesInOrder | tests/test_filter_model.py:58-69 | after a sequence of creations, iteration yields the earlier filters and then the new ones in creation order |
| FilterManager.CreateManyAppendsChildren | groklog/filter_manager/filter_manager.py:78 | filters created under a parent are appended to its children in creation order |
| FilterManager.FreshRegistryScenario | tests/test_filter_model.py:32-69 | after creations under the root of a fresh registry, iteration yields the root then the new filters, and the root's children are the new filters |
| FilterManager.ConstructFilter | groklog/filter_manager/filter.py:7-12 | the `Filter` dataclass builds only when every declared field is passed, and otherwise raises a TypeError |
| FilterManager.InitAsWritten | groklog/filter_manager/filter_manager.py:30-34 | as written, constructing a registry raises the TypeError for the missing `parent` argument, whatever the shell |
| FilterManager.CreateFilterAsWritten | groklog/filter_manager/filter_manager.py:67-77 | as written, `create_filter` always raises: DuplicateFilterError for a registered name, and the TypeError for the missing `parent` argument for any new name |
| FilterManager.AsWrittenNothingIsRegistered | groklog/filter_manager/filter_manager.py:73-77 | as written, constructing a registry and creating a new filter both raise the TypeError, where the intended operation succeeds |
| FilterModel.CreateFilter | groklog/filter_model/filter_model.py:36-59 | a parentless filter whose node is not a shell raises the RuntimeError, checked before the duplicate check. A registered name raises DuplicateFilterError. Otherwise exactly that entry is added, with the given name, command, parent and node, and the registry stays valid |
| FilterModel.Init | groklog/filter_model/filter_model.py:15-22 | a registry exists exactly when the node is a shell, and then holds only the root "Shell" with an empty command, no parent and the shell |
| FilterModel.GetFilter | groklog/filter_model/filter_model.py:28-34 | a lookup succeeds exactly for registered names, and otherwise raises FilterNotFoundError |
| FilterModel.RootFilter | groklog/filter_model/filter_model.py:24-26 | the root filter is the entry named "Shell", which a valid registry always has |
| FilterModel.CreatedFilterIsRegistered | groklog/filter_model/filter_model.py:43-59 | a created filter is found by name, other entries are untouched, a second creation under its name fails, and the shell rule still comes first |
| FilterModel.RootThenChild | groklog/filter_model/filter_model.py:20-26 | a child created under the root of a fresh registry has the root as its parent, and both are found |
| StreamingTextBox.Reset | groklog/ui/streaming_text_box.py:41-48 | scrolls to the top and puts the cursor on the last line, at its end unless disabled; lines and cache are untouched; an enabled box with no lines raises IndexError |
| StreamingTextBox.ResetIdempotent | groklog/ui/streaming_text_box.py:45-48 | resetting twice is resetting once |
| StreamingTextBox.WrapLine | groklog/ui/streaming_text_box.py:31-39 | every line yields at least one row |
| StreamingTextBox.AddLines | groklog/ui/streaming_text_box.py:11-39 | no lines change nothing. Otherwise the lines are appended and the box is reset. The old cache is kept as a prefix, followed by the rows of the new lines, numbered on from the last cached index; an empty cache raises IndexError |
| StreamingTextBox.WrapLineJoinsBack | groklog/ui/streaming_text_box.py:31-39 | the rows of a line, concatenated, give back the line |
| StreamingTextBox.WrapLineShape | groklog/ui/streaming_text_box.py:32-39 | every row of a line carries the line's index; all rows but the last are exactly the width long, and the last is shorter |
| StreamingTextBox.WrapLineColumns | groklog/ui/streaming_text_box.py:36-38 | each row starts at the column where the line's earlier rows end |
| StreamingTextBox.ShortLineOneRow | groklog/ui/streaming_text_box.py:32-39 | a line shorter than the width is one row |
| StreamingTextBox.ReflowAppend | groklog/ui/streaming_text_box.py:12-18 | reflowing two batches of lines one after the other gives the rows of reflowing them together |
| StreamingTextBox.LineRowsInPlace | groklog/ui/streaming_text_box.py:30-39 | the rows of the j-th new line sit as one block between the rows of the lines before and after it, with index start + j |
| StreamingTextBox.ShortLinesOneRowEach | tests/test_filter_viewer.py:40-44 | lines narrower than the box give one row each, in order, with consecutive indices and column 0, so the cache grows by as many rows as lines |

## Left out

- `groklog/process_node/shell_process.py` is not part of this model. It is pty, ioctl and signal plumbing, and its
  loop never drains the subscriber queue, so a queued subscription on a shell node would never be onboarded.
- `groklog/process_filter.py` is not part of this model. It is a superseded, history-less predecessor of the
  generic process.
- Threads, locks, the `Queue` object and the timeouts of `join`/`wait` are left out. Each locked region is one
  atomic step, and the extraction loop runs one pass at a time.
- HistoryReplay.NoGapNoDuplicate: holds for runs in which one onboarding finishes before another starts. In the
  source, the duplicate check of `_onboard_subscriber` (base.py:87) runs before the lock is taken (base.py:89). A
  blocking `subscribe_with_history` and the background drain can both pass the check for the same pair. The
  subscriber then receives the history twice before the second `subscribe` raises DuplicateSubscriberError. The
  model serialises the two, so this interleaving is not modelled.
- ProcessNode.OnboardSubscriber: assumes every subscriber callback returns normally; so do `PubSub.Publish` and
  `ProcessNode.RecordAndPublish`. In the source nothing catches an exception raised by the replay call (base.py:93,
  95). Such an exception leaves the pair unregistered, because base.py:98 is skipped, and its queued request is
  already consumed. On the drain path the exception also ends `_background` (generic_process.py:49). A child's
  `write` can raise that way on a closed stdin (generic_process.py:44). Failing callbacks are not modelled.
- ProcessNode.AddChild: children are stored as copies of the child node taken when it is added, not as references
  to live objects (base.py:28, 48). `close` therefore stops those copies, and `GenericProcess.Stop` ends only its
  own loop.
- ProcessNode.AddChild: the child's `write` callback is identified by the child's name. The source uses the bound
  method, which differs for different objects. Two different children with the same name would clash as a
  duplicate subscriber in the model but not in the source. Names are taken to be unique, as the constructor's
  docstring asks (base.py:22).
- Spawning the subprocess, the non-blocking `fcntl` set-up, `kill`, `flush` and the 0.1 s sleep after an empty
  read are left out: they are OS I/O. The subprocess is a pair of byte sequences: what was written to its stdin,
  and its unread stdout. New output arrives through `GenericProcess.Emit`, which is outside the program's control.
- GenericProcess.ReadChunk: a read takes everything waiting, up to the 102400-byte ceiling. The source's `read1`
  (generic_process.py:52) makes one raw read, which may return less, for example only what the pipe buffers at
  once. `GenericProcess.DrainEmptiesPipe` bounds the passes needed to empty the pipe by one per 102400 bytes, and
  that bound holds only for reads that take all they can.
- The UTF-8 codec with replacement is left out; decoding is the parameter `decode`.
  - HistoryReplay.NoGapNoDuplicate: for the byte topic it assumes `DecoderSound`. Onboarding tests whether the
    text history is empty, not the byte history, so the theorem needs an empty chunk to decode to empty text and
    no other chunk to do so.
- The `pubsus` mixin is foreign. Only `subscribe`, `is_subscribed` and `publish` are modelled; unsubscribing is
  not used by the core.
- The `ValueError("Invalid topic")` branch of `_onboard_subscriber` is left out: a topic is one of the two
  datatype constructors, so the branch cannot be reached.
- ProcessNode.Close: models which nodes are stopped and in what order. It names each node by its position in
  the tree (`ProcessNode.Path`). Killing the process and joining the thread are I/O.
- FilterManager.CreateFilter: filters are identified by name. The parent is recorded by its name, and it is the
  registered entry of that name whose children grow. A parent that is not registered is outside the registry, so
  only the new entry is visible.
- FilterManager.CreateFilter: wiring the new filter's process node as a child of the parent's node is left out.
  The source never does it as written, and `HistoryReplay.ChildReceivesParentHistory` states what that wiring
  gives on the node side.
- FilterManager.Names: states only the length of the list of names; the names themselves are the definition.
- `FilterManager.close`, profile saving and loading, the CLI and all UI code except the text box's reflow are left
  out. The first two are called in the repository but never defined; the rest is widget and rendering code.
- StreamingTextBox.AddLines: requires a usable width of at least one column whenever the wrapping loop runs. The
  source never finishes when the width is zero or negative and there are new lines and a cached row. At zero width
  `_enforce_width` returns an empty prefix on every pass. At a negative width it returns `text[0:width]`, all but
  the last |width| characters, and then, once the line is that short, an empty prefix on every pass. Calls that
  finish at any width are covered: no new lines returns at once, and an empty cache raises IndexError before the
  loop.
- StreamingTextBox.WrapLine: `_enforce_width` is taken as the prefix of the given length, and `string_len` as the
  length. That is the non-unicode-aware case, with every character one column wide.
- The `line_wrap` check in `StreamingTextBox.__init__` and the `_reflowed_text` property are left out. They are
  widget configuration and a plain accessor.

## Findings

| source | as written | input that shows it | evidently intended | confidence | as-written member | corrected member |
|---|---|---|---|---|---|---|
| groklog/filter_manager/filter_manager.py:73-78 | The call `Filter(name=..., command=..., process_node=...)` here, like the one at lines 30-34, leaves out `parent`, which the dataclass declares without a default. The call raises TypeError, so no `FilterManager` can be constructed and `create_filter` can never register a filter. The later `parent.add_child(filter)` is called on a dataclass with no such method | `FilterManager(shell)` for any shell; `create_filter("Cool filter", "cat", root)` for any new name | the root has no parent; a new filter records its parent and is appended to the parent's children, as `tests/test_filter_model.py:11-44` asserts | not executed | FilterManager.CreateFilterAsWritten | FilterManager.CreateFilter |
