# pipe++ core: model and proofs

pipe++ moves messages through pipelines of bounded size. A source hands messages to a pipeline; the
pipeline copies each one into buffers of fixed capacity, runs its stages over the copy and gives the
result to a sink, all under a spinlock of its own. A sink may emit into another pipeline. Pipelines
are built by chained calls into fixed arrays with a sticky error, and `run()` drives a source through
connect, configuration, subscriptions and a poll loop. Callables and sources are stored in place
behind hand-written function tables. A registry maps URI schemes to source factories, and two URI
parsers and an owning wrapper serve it and the pipelines.

The project models the headers under `include/pipepp/core` and proves what they promise, for all
inputs, all sources, all histories and all interleavings.

## The modules

**Shared.** `Core` (errors, results, the limits of a Config), `Message` (bounded copy, all or
nothing), `Processing` (what `process_message` means: stages in order over an owned copy, then the
sink), `SinkBuffer`, `Spinlock`.

**Wired pipelines and concurrent emit.** `Wiring` defines shapes, sinks that forward, acyclic wirings
and the sequential meaning `SeqEmit` of one emit with all the emits nested in it. `Network` is the
same in place: sinks are set one by one and `Emit` calls the next pipeline's `Emit` while it holds its
lock. `Threads` is the transition system: any number of threads, each a stack of unfinished emits,
one atomic step at a time, in any order. `Linearization` and `Linearizability` show that every
reachable state is that of whole emits run one after the other plus the partial progress of lock
holders. `Progress` shows that in an acyclic wiring no state is deadlocked and that the steps that do
more than spin are bounded by the remaining work. `PrefixChain` gives the exact result of a chain of
prefixing pipelines.

An emit that is forwarded holds all the locks on its way until the last pipeline is done, so it is
atomic over all pipelines it passes, not only over each of them. `order` in the state records the
moments at which emits become complete; `log` in each pipeline records who acquired its lock.

**URIs.** `Text` (searching), `Uri` (the two parsers; a component is a slice of the input, `Null` if
it was never assigned), `UriTiling`, `UriAgreement`, `UriReading`, the round trips `UriRoundTrip` (RFC
parser), `UriMinimal` (minimal parser) and `UriSchemeless` (both), `UriIrregular` (texts that are not
printed components), `OwnedUri` (`basic_uri` and its rebinding).

**Building and running.** `Builder` states the builder calls on values and what any history of them
leaves; `Lifecycle` states which calls a run may make, for an arbitrary source, and `RunOrder` what this
means for the order in which they come; `Source` is such a
source as an object, `Pipeline` the class, `Rounds` the bookkeeping between them; `RangeSource` is
the replaying source with the end-to-end result; `StopRace` interleaves `stop()` with a run.

A source is modelled by what it answers, as a function of everything that was called on it before.
Since that function is arbitrary, so is the source. The same function says when somebody has called
`stop()`. What a source hands to the callback during a poll is the result of the poll, and the
pipeline emits it message by message. All state that the callables of one pipeline have captured is
one value, which they read and write. A stage is handed the bounded message itself, so what it leaves
there fits the buffers (`Processing.StageFits`); this is the one thing asked of a stage.

**Registry.** `Registry` is the table with one thread at work, joined to the parsers; `RegistryRace`
lets one writer publish entries word by word while any number of readers look names up.

**Ownership.** `Ownership` states what moves, resets and destructions do to objects and proves it
sound over any program with any number of holders; `SmallFunction` and `AnySource` do the same to
function pointers and storage in place, over the `Memory` in which the stored objects live and change
themselves when they are called; `Holders` and `SourceHolders` run such programs on any number of these
objects.

## Where the code differs from its documentation, or from what a call suggests

- When `#` comes before the first `?`, the code reads a query out of what section 3.5 of RFC 3986
  makes the fragment; the text between the two is in no component, and the fragment is empty unless
  another `#` follows the query (`include/pipepp/core/uri.hpp:50-58`). `UriTiling.TailConforms` states exactly when this happens and
  `UriTiling.HashThenQueryIsLost` gives an input.
- `rebind_view` takes the first occurrence of the characters, so it keeps what a component reads but
  not always where it lies (`include/pipepp/core/uri.hpp:228`): `OwnedUri.RebindKeepsOffset`,
  `OwnedUri.RebindMovesHost`.
- A `stop()` before `run()` sets its flag is overwritten (`include/pipepp/core/pipeline.hpp:179`):
  `StopRace.EarlyStopIsLost`.
- `register_scheme` returns true for a name that its parameter has silently truncated, and the entry is
  then not found under that name (`include/pipepp/core/fixed_string.hpp:17`):
  `Registry.RegistrationFoundIff`.

## Model

| member | source | states |
|---|---|---|
| Message.BasicMessage.FromView | include/pipepp/core/message.hpp:33-45 | A message is copied whole or not at all: it fits both buffers and reads back as itself, or the call reports an overflow and the object reads as before. |
| Processing.ProcessAllAppend | include/pipepp/core/pipeline.hpp:214-226 | Processing two batches one after the other is processing their concatenation, in captured state and in delivered messages. |
| Processing.FirstThenRest | include/pipepp/core/pipeline.hpp:219-221 | Running the first stages and going on from the state and message they left is running all stages; once one of them drops the message no later one runs. |
| Processing.ProcessTraced | include/pipepp/core/pipeline.hpp:214-226 | A message that does not fit changes nothing. Otherwise each stage is given the state and message that the one before it left; the sink is given what the last stage left, in the state that it left; a stage that drops the message leaves its own state, and the sink sees nothing. |
| Processing.Passage | include/pipepp/core/pipeline.hpp:219-221 | Every message passes some first stages, up to the last one or up to one that drops it. |
| Processing.BatchTraced | include/pipepp/core/pipeline.hpp:214-226 | A batch is its messages one after the other, each traced in this way from the state and deliveries that the one before it left. |
| Processing.PassThroughDelivers | include/pipepp/core/pipeline.hpp:214-226 | Through stages that let everything pass the sink is given exactly the messages that fit, in order and unchanged. |
| Processing.DeliveredFit | include/pipepp/core/pipeline.hpp:214-226 | Everything a sink ever sees fits the buffers of the Config. |
| SinkBuffer.HoldsFirstAccepted | include/pipepp/core/as_range.hpp:18-32 | After any pushes and clears the buffer holds exactly the first `max_messages` fitting messages pushed since the last clear, in order. |
| SinkBuffer.PipelineFeedsBuffer | include/pipepp/core/as_range.hpp:18-23 | A pipeline of the same Config never has a message refused for its size: what is held is the first deliveries up to the capacity. |
| SinkBuffer.Buffer.Push | include/pipepp/core/as_range.hpp:18-23 | The array and the counter change as one push changes the stored messages; a full buffer and a message that does not fit change nothing. |
| SinkBuffer.Buffer.Clear | include/pipepp/core/as_range.hpp:32 | Nothing is stored afterwards. |
| SinkBuffer.Buffer.At | include/pipepp/core/as_range.hpp:28-30 | Reads the stored message of that number. |
| UriTiling.ParseInOrder | include/pipepp/core/uri.hpp:41-173 | For every input and both parsers the components are in bounds, in order and apart, host and port lie inside the authority after its first `@`, and a port reaches the end of the authority. |
| UriTiling.ParseTiles | include/pipepp/core/uri.hpp:41-63 | Components and delimiters tile the whole input if and only if no `#` comes before the first `?` in the text after the authority. |
| UriTiling.TailConforms | include/pipepp/core/uri.hpp:41-63 | The path is always what section 3.3 of RFC 3986 says; query and fragment are what sections 3.4 and 3.5 say if and only if no `#` comes before the first `?` in the text after the authority. |
| UriTiling.FragmentConforms | include/pipepp/core/uri.hpp:50-61 | The fragment is everything after the first `#` if and only if no `#` comes before the first `?`. |
| UriTiling.TilesRecompose | include/pipepp/core/uri.hpp:115-173 | Components that tile the input, printed with their delimiters, are the input. |
| UriTiling.HashThenQueryIsLost | include/pipepp/core/uri.hpp:50-58 | A concrete input whose components do not give it back, because `#` comes before `?`. |
| UriAgreement.ParsersAgree | include/pipepp/core/uri.hpp:65-173 | The two parsers report the same components on an input if and only if it is schemeless, or has no `?` or `#` before the first slash after the scheme and host-and-port text there that does not start with a bracket, or is a bracketed literal that is free of colons or is followed by a colon and a colon-free port. |
| UriAgreement.AuthoritiesAgree | include/pipepp/core/uri.hpp:65-104 | The two authority parsers read the same host and port exactly on unbracketed texts and on plain literals. |
| UriRoundTrip.RoundTrip | include/pipepp/core/uri.hpp:141-173 | Printing components as in section 5.3 of RFC 3986 and parsing them gives every component back if and only if each is free of the characters that would end it early. |
| UriMinimal.MinimalRoundTrip | include/pipepp/core/uri.hpp:115-139 | The same for the minimal parser, whose conditions differ: no slash in the authority, which may hold `?` and `#`; after it a path that starts with a slash, or nothing at all; the last colon is the one before the port. |
| UriIrregular.BracketedAuthorityReads | include/pipepp/core/uri.hpp:86-94 | A host that opens a bracket is read up to the first closing one, or as nothing if there is none; a port is read only directly after it and a colon; all other components are as printed. |
| UriIrregular.HashBeforeQueryReads | include/pipepp/core/uri.hpp:50-58 | With a `#` before the first `?` the text between the two is in no component, the query ends at the next `#`, and only what follows that one is the fragment. |
| UriSchemeless.SchemelessRoundTrip | include/pipepp/core/uri.hpp:106-111 | Path, query and fragment alone, printed and parsed by either parser, come back with no scheme and no authority if and only if none of them contains "://" and each is free of the characters that would end it early. |
| UriReading.AuthorityLocal | include/pipepp/core/uri.hpp:79-104 | Host and port read the same whether the authority is parsed alone or inside a longer URI. |
| UriReading.TailLocal | include/pipepp/core/uri.hpp:41-63 | Path, query and fragment read the same whether the tail is parsed alone or inside a longer URI. |
| OwnedUri.RebindKeepsText | include/pipepp/core/uri.hpp:226-231 | The search for a component never fails, and what it finds lies in the storage and reads the same. |
| OwnedUri.RebindKeepsOffset | include/pipepp/core/uri.hpp:228-230 | The offset is kept if and only if the characters do not occur earlier in the text. |
| OwnedUri.RebindMovesHost | include/pipepp/core/uri.hpp:226-234 | In `a://a` the host is rebound to where the scheme lies. |
| OwnedUri.BasicUri.Parse | include/pipepp/core/uri.hpp:195-206 | On a text that is not too long every component reads as the configured parser reads it and is the first occurrence of its characters in the result's own storage; a longer text gives an empty view and the flag. |
| OwnedUri.BasicUri.ParseOrDefault | include/pipepp/core/uri.hpp:208-211 | The same, with the default object for an empty input. |
| OwnedUri.BasicUri.RebindView | include/pipepp/core/uri.hpp:221-239 | Each component becomes the first occurrence of its characters; the storage and what every component reads stay as they were. |
| Wiring.WayEnds | include/pipepp/core/connect_to.hpp:46-54 | In an acyclic wiring no message passes through more pipelines than there are. |
| Wiring.ForwardIsCloser | include/pipepp/core/connect_to.hpp:66-88 | A forwarding sink emits into a pipeline that is strictly closer to the end of its way. |
| Wiring.WhatIsForwarded | include/pipepp/core/connect_to.hpp:19-33 | For every remap callable and message: the plain connection forwards it as it is, the prefixing one changes the topic alone, a remap replaces the topic unless it returns an empty one, and leaves the captured state that the callable left. |
| Wiring.VisitPasses | include/pipepp/core/pipeline.hpp:214-226 | What one emit does to one pipeline of a wiring, stage by stage: its sink, or the emit its sink makes, is given what the last stage left, in the state that it left. |
| Network.ConnectKeepsAcyclic | include/pipepp/core/connect_to.hpp:46-64 | Connecting a pipeline to a target keeps a wiring acyclic if and only if the pipeline cannot be reached from the target; connecting it to itself never does. |
| Network.Network.Pipe | include/pipepp/core/connect_to.hpp:66-74 | The sink, and nothing else of the wiring, becomes one that emits each message into the target. |
| Network.Network.PipeWithPrefix | include/pipepp/core/connect_to.hpp:76-88 | The sink, and nothing else of the wiring, becomes one that emits with the prefix before the topic. |
| Network.Network.SetSink | include/pipepp/core/connect_to.hpp:19-33 | Sets one sink of the wiring and nothing else, for `with_remap` and both operators. |
| Network.Network.Emit | include/pipepp/core/pipeline.hpp:197-200 | Nested emits under nested locks change all pipelines as the sequential emit does, and leave every lock as it was. |
| Network.Network.ProcessMessage | include/pipepp/core/pipeline.hpp:214-226 | Stages, then the sink, and then, if it forwards, the whole emit into its target. |
| Spinlock.SpinLock.TryLock | include/pipepp/core/spinlock.hpp:37-39 | The lock is taken afterwards, and the call says whether it was free before. |
| Spinlock.SpinLock.Unlock | include/pipepp/core/spinlock.hpp:33-35 | The lock is free afterwards. |
| Threads.StepShaped | include/pipepp/core/connect_to.hpp:66-88 | Every atomic step keeps each thread's stack a chain of emits in which all but the last wait in a sink that emits into the next pipeline. |
| Linearizability.StepKeeps | include/pipepp/core/spinlock.hpp:23-35 | Every lock, stage, sink and unlock step of every thread keeps the invariant: mutual exclusion, program order, and the sequential explanation of the whole state. |
| Linearizability.Linearizable | include/pipepp/core/pipeline.hpp:197-226 | For any threads and any schedule the state is that of the completed emits run whole and alone in one order, plus the partial progress of each lock holder, stage by stage; each completed emit is in that order once, and each thread's emits are in program order. |
| Linearizability.HeldPipelineIsMidway | include/pipepp/core/pipeline.hpp:197-226 | A pipeline whose lock is taken is exactly as far as its one holder: from what the sequential run left there, it has entered, or has run its first stages on its message and holds what they left, or its own part is done. |
| Linearizability.FreePipelineReplaysLog | include/pipepp/core/pipeline.hpp:197-226 | A pipeline whose lock is free is `process_message` run over its messages in lock-acquisition order, which is the order of the emits. |
| Linearizability.RunReplaysLogs | include/pipepp/core/pipeline.hpp:214-226 | In the sequential run, too, every pipeline is the replay of its own log, in the order of the run. |
| Linearizability.EmitVisitsOnce | include/pipepp/core/connect_to.hpp:66-88 | One emit visits a pipeline once or leaves it exactly as it was. |
| Linearizability.FinishedIsSequential | include/pipepp/core/pipeline.hpp:197-200 | When all threads are through, all pipelines are as after the sequential run of every emit exactly once, and all locks are free. |
| Linearizability.RealTimeOrder | include/pipepp/core/spinlock.hpp:23-35 | An emit that returned before another was called comes before it in the order, however the run goes on. |
| Progress.NoDeadlock | include/pipepp/core/connect_to.hpp:46-88 | In every reachable state of an acyclic wiring all emits are finished or some thread can do more than spin. |
| Progress.StepUsesWork | include/pipepp/core/spinlock.hpp:23-35 | Every step is a failing exchange, which changes nothing, or decreases the remaining work. |
| Progress.MovesAreBounded | include/pipepp/core/pipeline.hpp:197-226 | No schedule, however long, has more steps that do something than there was work at its start. |
| Progress.EveryRunCanFinish | include/pipepp/core/pipeline.hpp:197-226 | Every run can be continued until all emits of all threads are done. |
| PrefixChain.ChainDelivers | include/pipepp/core/connect_to.hpp:76-88 | Through a chain of prefixing pipelines the last sink sees all prefixes, the last one first, before the topic, with payload and QoS as they were, exactly when the whole fits; otherwise nothing captured by the last pipeline's callables changes. |
| PrefixChain.JoinedLength | include/pipepp/core/connect_to.hpp:81-84 | The topic grows by the sum of the prefix lengths. |
| PrefixChain.ConnectionsAgree | include/pipepp/core/connect_to.hpp:19-33 | `with_remap` with a prepending callable forwards what the prefix connection forwards, and an empty prefix what the plain connection does. |
| Lifecycle.ResultIsFirstFailure | include/pipepp/core/pipeline.hpp:154-184 | For every source the result of a run is the first failure among its calls; what disconnect returns is not reported. |
| Lifecycle.DisconnectOnceAndLast | include/pipepp/core/pipeline.hpp:154-184 | Disconnect is the last call and no other one if connect succeeded, and is never called if it did not. |
| Lifecycle.PollsNeedTheWholeSetup | include/pipepp/core/pipeline.hpp:158-182 | No callback is set and nothing polled unless every setup call was made and succeeded. |
| Lifecycle.PendingErrorMakesNoCall | include/pipepp/core/pipeline.hpp:155-156 | A run makes no call if and only if an error is pending, and then reports it. |
| Lifecycle.RunIsDetermined | include/pipepp/core/pipeline.hpp:154-184 | For one source with one history there is only one sequence of calls and one result that a run can have. |
| RunOrder.SetupInOrder | include/pipepp/core/pipeline.hpp:158-177 | In every run the first call is connect, with the pipeline's URI; the configuration callables applied are the first ones in order, the subscriptions made are the first ones in order, none before all callables were applied, and all of both when the run succeeds. |
| RunOrder.FailureEndsTheRun | include/pipepp/core/pipeline.hpp:158-177 | A setup call that fails is the last one before disconnect, which follows unless connect itself failed, and its error is the result. |
| RunOrder.LoopInOrder | include/pipepp/core/pipeline.hpp:228-235 | The flag is loaded before the source is asked; the source is polled when both have just said yes, and only then; the first no is followed by disconnect. |
| Builder.HoldsFirstCalls | include/pipepp/core/pipeline.hpp:105-152 | After any builder calls each array holds the first calls of its kind, as many as there are slots; a topic that is too long uses a slot; sink and URI are the last ones set. |
| Builder.CheckSucceedsIffAllAccepted | include/pipepp/core/pipeline.hpp:207-211 | `check()` succeeds if and only if no builder call was ever rejected, where rejection is read off the history. |
| Builder.CheckReportsLastRejection | include/pipepp/core/pipeline.hpp:105-152 | Otherwise the error is the last rejected call's. |
| Builder.AcceptedHistoryIsStored | include/pipepp/core/pipeline.hpp:105-138 | When nothing was rejected the arrays are the history itself. |
| Builder.ErrorStays | include/pipepp/core/pipeline.hpp:105-152 | Once there is an error no later call takes it back. |
| Pipeline.BasicPipeline.WithUri | include/pipepp/core/pipeline.hpp:62-66 | A pipeline made with a URI is one that was made without and then told the URI, which it holds as the configured parser reads it; a URI that is too long is the pending error invalid_uri. |
| Pipeline.BasicPipeline.Subscribe | include/pipepp/core/pipeline.hpp:105-118 | With a free slot the counter grows and the slot holds the subscription, or stays as initialized under buffer_overflow if the topic is too long; without one nothing changes but the error, capacity_exceeded. |
| Pipeline.BasicPipeline.Configure | include/pipepp/core/pipeline.hpp:120-128 | The callable is appended, or the error is capacity_exceeded and nothing else changes. |
| Pipeline.BasicPipeline.AddStage | include/pipepp/core/pipeline.hpp:130-138 | The stage is appended, or the error is capacity_exceeded and nothing else changes. |
| Pipeline.BasicPipeline.SetSink | include/pipepp/core/pipeline.hpp:140-144 | The sink is the one given, and nothing else changes. |
| Pipeline.BasicPipeline.ConnectUri | include/pipepp/core/pipeline.hpp:146-152 | The URI reads as the configured parser reads the text, or is empty under invalid_uri if the text is too long. |
| Pipeline.BasicPipeline.Check | include/pipepp/core/pipeline.hpp:207-211 | Reports the pending error, or success. |
| Pipeline.BasicPipeline.ProcessMessage | include/pipepp/core/pipeline.hpp:214-226 | The loop over an owned copy that stages change in place: the sink is given the message as the last stage left it, in the state that it left; a message that is dropped or does not fit never reaches it. |
| Pipeline.BasicPipeline.Emit | include/pipepp/core/pipeline.hpp:197-200 | The same under the lock, which is free again afterwards. |
| Pipeline.BasicPipeline.EventLoop | include/pipepp/core/pipeline.hpp:228-235 | The callback is set first, then rounds of flag, connection and poll until one of the first two says no, and the sink has seen what the polled messages come to. |
| Pipeline.BasicPipeline.Run | include/pipepp/core/pipeline.hpp:154-184 | For every source on which the run returns: the calls made and their order, their answers, the result, the flag, and the messages delivered; connect is given the pipeline's URI, and the pipeline's callables and subscriptions come in order; the builder state stays. |
| Pipeline.BasicPipeline.Stop | include/pipepp/core/pipeline.hpp:186-188 | Clears the flag and nothing else. |
| RangeSource.RangeSource.Connect | include/pipepp/core/adapt.hpp:27-31 | Starts at the beginning and succeeds, as the model of a range answers. |
| RangeSource.RangeSource.Poll | include/pipepp/core/adapt.hpp:47-55 | Hands over all that is left, in order, and disconnects, as the model of a range answers. |
| RangeSource.RangeReturns | include/pipepp/core/adapt.hpp:47-55 | Every run over a range returns after at most one poll. |
| RangeSource.RangeRun | include/pipepp/core/adapt.hpp:27-55 | Whatever happened before, a run over a range succeeds, makes the same calls every time with exactly one poll among them, and that poll hands over the whole range. |
| RangeSource.RunTwice | include/pipepp/core/pipeline.hpp:154-235 | End to end: the sink receives in order what the stages make of the range, and a second run delivers the whole range again; through pass-through stages these are exactly the messages that fit, unchanged, twice. |
| StopRace.StopTakesEffect | include/pipepp/core/pipeline.hpp:179-188 | A stop after the flag was set lets at most one more poll begin, and none unless the thread had already seen the flag; within six of its steps the thread has returned with the flag cleared and exactly one disconnect. |
| StopRace.AlwaysSound | include/pipepp/core/pipeline.hpp:179-184 | Under any stops disconnect is called once, at the end, with the flag cleared. |
| StopRace.NotConnectedEndsTheRun | include/pipepp/core/pipeline.hpp:232-235 | Once the source has said that it is not connected no poll begins, and within two more steps the thread has returned with the flag cleared and exactly one disconnect, stopped or not. |
| StopRace.ConnectedRunsOn | include/pipepp/core/pipeline.hpp:232-234 | As long as nobody stops it and the source is connected the thread goes on polling. |
| StopRace.OneMorePollCanBegin | include/pipepp/core/pipeline.hpp:228-235 | The bound of one further poll is met. |
| StopRace.EarlyStopIsLost | include/pipepp/core/pipeline.hpp:179-188 | After a stop that comes before the flag is set any number of polls can follow. |
| Registry.SchemeSelects | include/pipepp/core/source_registry.hpp:53-71 | Whichever parser is configured, the view's scheme is the name that selected the entry if and only if the URI is not too long, has no "://", or has an empty scheme. |
| Registry.ParsersGiveSameScheme | include/pipepp/core/source_registry.hpp:60-64 | Both parsers give the factory the same scheme. |
| Registry.EarliestWins | include/pipepp/core/source_registry.hpp:59-61 | The earliest registration stored under a name is selected, and stays selected whatever is registered later. |
| Registry.FoundIff | include/pipepp/core/source_registry.hpp:76-82 | A name is found if and only if one of the first `max_schemes` registrations was truncated to it. |
| Registry.RegistrationFoundIff | include/pipepp/core/source_registry.hpp:26-34 | A registration is found under the name it was given if and only if it got a slot, the name was short enough not to be truncated, and no earlier registration was stored under it. |
| Registry.LongNameIsFoundShort | include/pipepp/core/source_registry.hpp:26-34 | A registration under a name that is too long is found under the first `max_scheme_len` characters of that name if and only if it got a slot and is the first one stored there. |
| Registry.MadeByTheEarliest | include/pipepp/core/source_registry.hpp:59-73 | The source made is the one that the factory of the earliest registration stored under the scheme makes of the view, and there is none if no registration is stored so. |
| Registry.LongNamesAreNotFound | include/pipepp/core/source_registry.hpp:61 | A name longer than a stored scheme can be is never found. |
| Registry.SourceRegistry.RegisterScheme | include/pipepp/core/source_registry.hpp:36-46 | Entries are the first registrations under truncated names; the call is refused exactly when the table is full. |
| Registry.SourceRegistry.HasScheme | include/pipepp/core/source_registry.hpp:76-82 | True exactly when some registration that got a slot is stored under the name. |
| Registry.SourceRegistry.Create | include/pipepp/core/source_registry.hpp:53-74 | Calls the factory of the earliest registration stored under the text before the first "://", or under the whole text without one; the factory is given all components as the configured parser reads them, an empty view if the URI is too long, and the scheme alone without "://"; there is no source if no registration is stored so. |
| Registry.CreateAgreesWithHasScheme | include/pipepp/core/source_registry.hpp:53-82 | For every text `create` calls a factory if and only if `has_scheme` holds for the text before the first "://"; the factory is that of the selected entry, and unless the URI is too long the view names the scheme of this entry. |
| RegistryRace.ReadersTouchCompleteEntries | include/pipepp/core/source_registry.hpp:26-46 | With one writer and any readers, an entry that a reader is about to read is completely written, and however the run goes on the writer is never at it again, so nobody writes to it, not even the same words. |
| RegistryRace.OnlyThatEntryChanges | include/pipepp/core/source_registry.hpp:29-30 | A step changes no entry but the one the writer is at. |
| RegistryRace.LookupIsFirstMatch | include/pipepp/core/source_registry.hpp:53-82 | Every lookup gives the first match in the prefix fixed by its load of the count. |
| RegistryRace.FoundIsTheSame | include/pipepp/core/source_registry.hpp:59-82 | Two lookups of one name that find it, by any readers at any time, find the same entry. |
| RegistryRace.FoundForEver | include/pipepp/core/source_registry.hpp:26-46 | A lookup that starts after a registration has returned finds its name, at that place or an earlier one, and the same one for ever. |
| RegistryRace.StepKeeps | include/pipepp/core/source_registry.hpp:26-46 | Every step of the writer and of a reader keeps the invariant behind these results. |
| Ownership.OwnershipIsSound | include/pipepp/core/small_function.hpp:38-98 | Over any constructions, moves, self-moves, resets, destructions and calls on any number of holders nothing is used or destroyed after its destruction, every live object has one owner, constructed equals destroyed plus live, and the holders mean what they mean as values: a move carries the callable over and empties its source. |
| Ownership.MoveCarriesMeaning | include/pipepp/core/small_function.hpp:51-66 | After any program, an assignment gives the target what the source meant and leaves the source empty, touches no other holder, and changes nothing when it is to itself. |
| Ownership.MoveMakeCarriesMeaning | include/pipepp/core/small_function.hpp:38-49 | After any program, move construction gives the new holder what the old one meant and leaves that one empty. |
| Ownership.ConstructionsMean | include/pipepp/core/small_function.hpp:32-33 | After any program a construction adds a holder with what it was given. |
| Ownership.ResetsMean | include/pipepp/core/small_function.hpp:91-98 | A reset empties its holder; no other holder means anything else. |
| Ownership.DestructionsMean | include/pipepp/core/small_function.hpp:68 | A destruction ends its holder; no other holder means anything else. |
| Ownership.CallsMean | include/pipepp/core/small_function.hpp:85-87 | A call leaves the callable as it leaves itself; no other holder means anything else. |
| Ownership.OneOwner | include/pipepp/core/small_function.hpp:38-66 | A live object has exactly one owner. |
| Ownership.NothingLeaks | include/pipepp/core/small_function.hpp:68 | When all holders are empty or gone every object has been destroyed, once each. |
| Ownership.StepStands | include/pipepp/core/any_source.hpp:29-64 | One operation does to the objects what it does to the values, and is allowed on the one exactly when it is on the other. |
| SmallFunction.SmallFunction.From | include/pipepp/core/small_function.hpp:70-83 | Constructs one object and owns it. |
| SmallFunction.SmallFunction.MoveFrom | include/pipepp/core/small_function.hpp:38-49 | The object moves into a new one, the old one is destroyed and its holder emptied. |
| SmallFunction.SmallFunction.MoveAssign | include/pipepp/core/small_function.hpp:51-66 | What was owned is destroyed before the other object moves in; assignment from itself changes nothing. |
| SmallFunction.SmallFunction.Reset | include/pipepp/core/small_function.hpp:91-98 | Destroys the object, if there is one, and empties the holder. |
| SmallFunction.SmallFunction.Invoke | include/pipepp/core/small_function.hpp:85-87 | Calls the live object that is owned, returns what it returns and leaves it as it leaves itself; nothing is misused. |
| Holders.Holders.MoveAssign | include/pipepp/core/small_function.hpp:51-66 | On any number of function objects the assignment does to memory and holders what Ownership says. |
| Holders.Holders.MoveMake | include/pipepp/core/small_function.hpp:38-49 | The same for move construction. |
| Holders.Holders.Make | include/pipepp/core/small_function.hpp:70-83 | The same for construction from a callable. |
| Holders.Holders.MakeEmpty | include/pipepp/core/small_function.hpp:32-33 | The same for an empty one. |
| Holders.Holders.Reset | include/pipepp/core/small_function.hpp:91-98 | The same for reset. |
| Holders.Holders.Destroy | include/pipepp/core/small_function.hpp:68 | The same for destruction. |
| Holders.Holders.Invoke | include/pipepp/core/small_function.hpp:85-87 | A call reaches the callable that the holder means as a value, and changes that one as it changes itself. |
| AnySource.AnySource.From | include/pipepp/core/any_source.hpp:53-64 | Constructs one source and owns it. |
| AnySource.AnySource.MoveFrom | include/pipepp/core/any_source.hpp:29-36 | The source moves into a new object, which is what was stored before; the old one is destroyed and its holder emptied. |
| AnySource.AnySource.MoveAssign | include/pipepp/core/any_source.hpp:38-49 | What was owned is destroyed before the other source moves in, and what is stored is what the other one stored; assignment from itself changes nothing. |
| AnySource.AnySource.Reset | include/pipepp/core/any_source.hpp:101-106 | Destroys the source, if there is one, and empties the holder. |
| AnySource.AnySource.Ask | include/pipepp/core/any_source.hpp:66-97 | The stored source is asked and may change itself; without one connect fails as not connected, the holder is not connected, and all else succeeds. |
| AnySource.AnswersMove | include/pipepp/core/any_source.hpp:38-49 | After a move the new holder answers whatever it is asked as the old one would have, and the old one answers as an empty holder. |
| SourceHolders.SourceHolders.MakeEmpty | include/pipepp/core/any_source.hpp:24 | On any number of source objects the construction does to memory and holders what Ownership says. |
| SourceHolders.SourceHolders.Make | include/pipepp/core/any_source.hpp:53-64 | The same for construction from a source. |
| SourceHolders.SourceHolders.MoveMake | include/pipepp/core/any_source.hpp:29-36 | The same for move construction. |
| SourceHolders.SourceHolders.MoveAssign | include/pipepp/core/any_source.hpp:38-49 | The same for move assignment, from itself too. |
| SourceHolders.SourceHolders.Reset | include/pipepp/core/any_source.hpp:101-106 | The same for reset. |
| SourceHolders.SourceHolders.Destroy | include/pipepp/core/any_source.hpp:51 | The same for destruction. |
| SourceHolders.SourceHolders.Ask | include/pipepp/core/any_source.hpp:66-97 | A holder answers as the source answers that it means as a value, and that source changes as it changes itself; an empty holder answers by itself and nothing changes. |

## Left out

- Memory orders, fences, pause instructions and the fairness of spinning: steps are interleaved
  sequentially consistently, and the results are about safety, deadlock freedom and bounded work.
- Stages and sinks that do not return, that emit into their own pipeline, or that build pipelines
  while threads emit: stages are functions, and the shape of all pipelines is fixed before threads start.
- Cyclic wirings, which the code declares undefined; `Network.ConnectKeepsAcyclic` says when a
  connection makes one.
- Pipeline.BasicPipeline.ConnectUri: does not model that the views of the assigned `owned_uri_` still
  refer to the storage of the value it was assigned from; `connect` is given the text that this value had.
- Copies and moves of `basic_uri`, and moved-from pipelines, which keep their stage count while their
  stages are empty.
- Pipeline.BasicPipeline.Run: is stated for runs that return; it takes a bound on the polls after which
  the loop ends, and says nothing of a loop that never does.
- Pipeline.BasicPipeline.Stop: is for the running thread; the interleaving with other threads is in
  `StopRace`, and in the sequential runs the source's model says when the flag is found cleared.
- Messages that a source hands over outside a poll, and `poll_once`.
- Two concurrent runs of one pipeline, `poll_once` beside `run`, and two writers of one registry, which
  the code does not protect.
- Spinlock.SpinLock.Lock: a single thread may only take a free lock here; contention is in `Threads`.
- SinkBuffer.Buffer.Push: a slot of the array is a message value, not an object with buffers of its own.
- Network.Network.ProcessMessage: hands the message from stage to stage as a value; the owned copy
  that stages change in place is in `Pipeline.BasicPipeline.ProcessMessage`.
- Byte layout, alignment, size checks, null termination, `fixed_string` beyond its bounded and truncating
  constructors, and the null character that ends a C string early.
- `pipeline_ops.hpp`, `pipeline_factory.hpp`, `stages.hpp`, `concepts.hpp`, `expected.hpp` and the
  adapters to real brokers: thin wrappers, function values and network I/O.
