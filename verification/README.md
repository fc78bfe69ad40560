# cqy: a verified model

cqy is a small actor system on C++20 coroutines. A node (`cqy_app`) hosts contexts (`cqy_ctx`);
contexts exchange messages and calls, on one node or across nodes. This project models the parts
of it whose correctness spans several functions, and proves what they promise. The sources are
cited by path and line.

`dafny verify dfyconfig.toml` checks everything.

## The parts

**The recursive generator** (`include/cqy_gen.h`). A generator body is a tree of yields, throws and
nested generators with handlers (`GenSemantics`); its meaning is the depth-first flattening
`Flatten`. The residual tree is also the program counter of a coroutine frame. `GenMachine` runs the
frames as heap objects with the file's own fields (`top`, `info`, `value`, and in the awaiter
`parent`, `root`, `exception`), `Generators` adds the objects that own them. The main results: a whole loop
(`ForEach`) reads exactly the flattening and ends with the exception that nobody handled; one
resume per value and one for the end, one push and one pop per nested generator; wherever an
iterator rests, the pointers form the one path from the top frame to the root, and this path holds
all frames that exist; destroying it at any point frees each of them once. `GenSlow` is the slow
loop of the file's comment: it reads the same, and costs one more resume per value and level.

**Delivery between nodes** (`cqy_cv_queue_t`, `node_mq_spawn`, `rpc_on_mq`). `Delivery` is a
step system: pushes in two parts, the sender's steps, and copies of batches that the receiver
works through at any later time, in any interleaving, or never. In every run the receiver's log,
reduced to first occurrences, is a prefix of what was accepted, contains everything acknowledged and
nothing else than accepted messages; a message is processed at most as often as its batch was
sent; and accepted == acknowledged + batch + queue. The node's shutdown is two steps, the stop of the
queue and the reset of the client. `ProcessableExactly` says when a message is lost: an accepted message
has a continuation that processes it exactly if an attempt with it has been made, or if the client is
there and one of these holds: the message has left the queue, the queue is not stopped, the sender is
past its loop condition with nothing held. `BreaksExactly` says from where the sender can run into the missing
client. `Sender` is the loop as it runs, turn by turn, against a function of what happens between its
steps (`Loop`), which is proved to be a run of
the step system. `Arrival` composes this with routing, down to the inbox of one context, where two
successive dispatches of a context come in session order. `Backlog` bounds the warnings.

**The context lock** (`cqy_ctx`). A task is an interaction tree: accesses to the context, awaits,
and lock-dropping calls (`ctx_call`, `ctx_call_name`, `sync_call`), with continuations that depend on what the
context, the world or the call delivered. Any number of tasks arrive at any time and interleave
freely. The lock is a plain flag that anybody's unlock clears. `MannersExactly` says, for every
invariant of the context, that one condition on code (it drops the lock and uses the context only
while it holds it, and leaves the invariant true where it gives the lock up) is both enough and
needed: code that meets it never breaks a turn into two or shows a free lock with a broken
invariant, whatever well-mannered code runs beside it; for code that does not, there is a run,
beside well-mannered code only, in which one of the two happens.

**The entity manager** (`example/entity.*`). A class with the source's vectors and, as ghost state,
the handles issued, those live, and a map from (entity, type) to component that the pools stand for.

**Addressing and framing** (`cqy_msg`, `cqy_handle`, `cqy_ctx_mgr`, `cqy_app`). Byte layout and its
round trips, 8/24-bit handles, the sorted name vector, resolution of "node.context", and the theorems that
compose them: the handler sees the same message however it was addressed; a request by handle or by name
and its response make a round trip back to the context that sent it, and no other, with the
session number of its dispatch, whatever the nodes do in between; finding a context and calling it
is calling it by name. `App` and `Contexts` are the objects as they run.

## Where code and documentation differ, and where the code fails

- README.md:32 warns that the next message or call may come in during any `await`. In the code
  that is so only for `ctx_call`, `ctx_call_name` and `sync_call`: a plain `co_await` in a handler keeps the lock
  (`CtxLock.AwaitsAreUndisturbed`). README.md:30 promises freedom from races; it holds exactly
  under the condition of `CtxLock.MannersExactly`, which RPCs registered with `muli` and `on_init`, which
  run without the lock, and code inside `sync_call` can break (`CtxLock.DropsNeedTheLock`). What `on_init` does before its first `async_call` has no company yet and
  belongs to the making of the context.
- example/ping.cpp:55 says that a dispatch always succeeds. While the queue is not stopped, every
  accepted message can still be processed. After the stop and before the client is reset, what is in the
  queue or still gets into it is lost, unless the sender is past its loop condition with nothing held,
  and nothing else is. Once the client is reset, every message is lost that no attempt was made with
  (`Delivery.ProcessableExactly`, with runs in `Delivery.LossHappens` and `Delivery.LossByReset`). A batch
  without a reply need not be lost: the receiver may have processed it
  (`Delivery.UnacknowledgedButProcessed`) or may still do so. A message can also be processed more than
  once (`Delivery.DuplicatesHappen`).
- src/cqy_node.cpp:127 uses `rpc_client` without a test, which src/cqy_node.cpp:97 may just have reset: a
  shutdown can make the sender dereference a null pointer. `Delivery.BreaksExactly` says from which
  states; src/cqy_app.cpp:187 does test the pointer.
- `parse(true)` does not imply that the payload view lies inside the bytes
  (`Framing.ParseAloneIsNotEnough`); `Framing.PayloadInsideExactly` says what is missing. Everything
  that `make` writes is fine.
- `entity_t::add` does not look at the version. Called with the handle of a destroyed entity whose
  slot is still free, it leaves a component for the next entity in the slot
  (`Entities.InheritedComponent`); in every other case the store stays what it stands for
  (`Entities.EntityManager.Add`).

## Model

| member | source | states |
|---|---|---|
| GenSemantics.CaughtMeans | include/cqy_gen.h:414-418 | the code a handler chain continues with means what the flattening says about the rethrown exception |
| GenSemantics.StepKeeps | include/cqy_gen.h:395-418 | each transfer of control keeps everything still to be read and the outcome, and counts one entered generator exactly when it enters one |
| GenSemantics.YieldEmits | include/cqy_gen.h:478-481 | a yield, however deep, takes exactly the first value off what is to be read |
| GenSemantics.StepUsesFuel | include/cqy_gen.h:435-451 | every transfer lowers a measure, so control comes back to the consumer of a finite tree |
| GenSemantics.RangeYieldsItsElements | include/cqy_gen.h:501-516 | elements_of a range reads exactly the elements of the range, then goes on |
| GenSemantics.NestLaw | include/cqy_gen.h:293-299 | a nested generator that ends normally: its values, then those of the rest, and the rest's outcome |
| GenSemantics.CatchLaws | include/cqy_gen.h:414-418 | a nested generator's exception without a handler stays an exception after the same values; with a handler, the handler takes the place of the rest |
| GenSemantics.UnhandledSurvives | include/cqy_gen.h:520-526 | an exception that no clause fits leaves the surrounding generator after the same values and without its rest |
| GenSemantics.FirstFitHandles | include/cqy_gen.h:414-418 | of several clauses the first that fits handles the exception |
| GenSemantics.UnhandledEscapes | include/cqy_gen.h:520-526 | an exception that nobody around it handles leaves generators nested to any depth, after the same values |
| GenMachine.NestedAwaiter.AwaitSuspend | include/cqy_gen.h:395-412 | links the child to the current frame and to the current frame's root, and makes it the root's top |
| GenMachine.NestedAwaiter.AwaitResume | include/cqy_gen.h:414-418 | hands the child's exception to the parent once |
| GenMachine.Frame.UnhandledException | include/cqy_gen.h:520-526 | the exception waits in the parent's awaiter, and escapes exactly if nobody is nested around the frame |
| GenMachine.Frame.FinalSuspend | include/cqy_gen.h:438-451 | a nested frame unlinks itself and makes its parent the root's top; a root returns to its resumer |
| GenMachine.Enter | include/cqy_gen.h:490-498 | entering a nested generator keeps the linked shape, the existing frames are the chain's, and the stack takes one pure step |
| GenMachine.Leave | include/cqy_gen.h:520-526 | the end of a nested generator, normal or by exception, leaves the parent on top with the child's ending in its awaiter |
| GenMachine.Rejoin | include/cqy_gen.h:387-392 | when the parent goes on, its awaiter frees the child's frame, and the rest is linked as before |
| GenMachine.Destroy | include/cqy_gen.h:612-621 | destroying a frame destroys everything it holds, each frame once |
| GenMachine.ChainHolds | include/cqy_gen.h:387-392 | from the root, awaiter by awaiter, ownership reaches exactly the frames of the chain |
| GenMachine.PathFollowsParents | include/cqy_gen.h:395-412 | following info and parent from the top visits distinct frames, each owned by the next, all knowing the root, and ends there |
| GenMachine.Transfer | include/cqy_gen.h:395-451 | one transfer of control on the heap is exactly one step of the pure stack machine |
| GenMachine.Stop | include/cqy_gen.h:478-481 | control returns with the first value still to be read, or at the end with the outcome |
| GenMachine.Resume | include/cqy_gen.h:573-578 | one resume of the top delivers the next value or the end, and its pushes and pops are the generators entered and left |
| Generators.Generator.constructor | include/cqy_gen.h:528-530 | a fresh generator owns one frame at its start that means the flattening of its body |
| Generators.Generator.Begin | include/cqy_gen.h:623-629 | runs to the first value and hands the coroutine over; an exception leaves begin and the generator keeps it; a moved-from generator is refused |
| Generators.Proceed | include/cqy_gen.h:573-578 | one resume of the top, as begin and ++ make it, delivers the next value with the rest to come, or the end, or the exception |
| Generators.Generator.TakeFrom | include/cqy_gen.h:599-610 | takes the coroutine over and frees every frame of the one owned before; what is left is sound except exactly if a generator that owns a coroutine is assigned to itself |
| Generators.Generator.Destroy | include/cqy_gen.h:612-621 | frees every frame, and a second time does nothing |
| Generators.Iterator.Value | include/cqy_gen.h:564-571 | the first value of what is still coming; refused at the end |
| Generators.Iterator.Next | include/cqy_gen.h:573-578 | drops the current value and delivers the next, or the end, or the exception; one resume; refused at the end |
| Generators.Iterator.Destroy | include/cqy_gen.h:540-590 | frees every frame of the iteration wherever it rests |
| Generators.RestingShape | include/cqy_gen.h:435-462 | at rest the path from the root's top to the root holds exactly the existing frames, and only the top stands on a yield, of the current value |
| Generators.ReadAll | include/cqy_gen.h:558-578 | reading an iterator to its end gives exactly what was still coming, with one resume per value |
| Generators.ForEach | include/cqy_gen.h:301-311 | a whole loop reads the flattening and ends with its outcome, in one resume per value and one more, with one push and one pop per nested generator, and no frame is left |
| Generators.UncaughtLeaves | include/cqy_gen.h:520-526 | the loop over generators nested to any depth reads the values before an exception that nobody handles, and ends with it |
| GenSlow.AdvancePays | include/cqy_gen.h:313-323 | a resume of the slow form takes the first value off its meaning and pays its share of the remaining cost |
| GenSlow.SlowFormFlattens | include/cqy_gen.h:313-323 | the slow form reads the same values and outcome as the flattening, for one more resume per value and generator it passes |
| GenSlow.NestedCostsMore | include/cqy_gen.h:301-308 | the nested resumes of the slow form are at least the generators the fast form enters |
| GenSlow.TunnelCosts | include/cqy_gen.h:305-311 | with n values under a depth of d, the slow form pays d times n + 1 nested resumes, the fast form enters d generators |
| Framing.PayloadInsideExactly | src/cqy_msg.cpp:23-54 | for bytes that parse, the payload view lies inside them exactly if, in a routed message, len covers the name, or there are 4 GiB more bytes than len says |
| Framing.ParseAloneIsNotEnough | src/cqy_msg.cpp:42-51 | there are bytes that parse and whose payload view leaves them |
| Framing.HeaderRoundTrip | include/cqy_msg.h:12-35 | every header field comes back from the twenty header bytes |
| Framing.HeaderLayout | include/cqy_msg.h:12-35 | which bytes of the header hold which field, lowest byte first |
| Framing.PayloadLayout | src/cqy_msg.cpp:75-83 | behind the header stand the body, or the length of the name, the name and the body |
| Framing.ParsesExactly | src/cqy_msg.cpp:31-54 | a header parses exactly if the bytes behind it can hold its length, and its name if there is one |
| Framing.DirectRoundTrip | src/cqy_msg.cpp:56-70 | a directly addressed message parses with the given fields, and its payload is the body exactly if its length fits 32 bits |
| Framing.RoutedRoundTrip | src/cqy_msg.cpp:72-97 | a message routed by name parses with the given fields, and name and payload come back exactly if the name has at most 255 bytes and the body fits 32 bits |
| Framing.MessageString.Make | src/cqy_msg.cpp:56-70 | resizing and overwriting the buffer leaves the direct layout, whatever was in it before |
| Framing.MessageString.MakeNamed | src/cqy_msg.cpp:72-97 | resizing and overwriting the buffer leaves the routed layout, whatever was in it before |
| Handles.HandleRoundTrip | include/cqy_handle.h:16-32 | the node always comes back from a handle, the number exactly if it fits 24 bits, in whatever order the parts are set |
| Handles.HandleLayout | include/cqy_handle.h:6-12 | the node is the top byte, the number the rest |
| Handles.HandleIsItsParts | include/cqy_handle.h:16-32 | a handle is determined by its node and number |
| Handles.CreatedHandlesCollide | src/cqy_ctx_mgr.cpp:33-35 | two creations have the same handle exactly if they are on one node and a multiple of 2^24 apart |
| Handles.CreatedHandlesAreDistinct | src/cqy_app.cpp:284-287 | the first 2^24 creations on all nodes have distinct handles |
| Names.LessIsTotal | src/cqy_ctx_mgr.cpp:72-81 | the order of names is total and strict |
| Names.LessAtFirstDifference | src/cqy_ctx_mgr.cpp:72-81 | the first byte in which two names differ decides, and a name comes before its continuations |
| Names.MeaningOf | src/cqy_ctx_mgr.cpp:70-86 | a strictly sorted vector holds exactly the pairs of its map |
| Names.InsertedAscends | src/cqy_ctx_mgr.cpp:75-76 | appending a new name and sorting gives a strictly sorted vector |
| Names.InsertedRearranges | src/cqy_ctx_mgr.cpp:75-76 | what sorting leaves is a permutation of the vector with the new entry appended |
| Names.ArrangementIsUnique | src/cqy_ctx_mgr.cpp:76 | the strictly sorted arrangement is unique, so it does not matter how it is found |
| Names.InsertedMeans | src/cqy_ctx_mgr.cpp:75-76 | the map gains exactly the new pair |
| Names.FirstRemovedKeeps | src/cqy_ctx_mgr.cpp:54-57 | deletion keeps the order and all other names, and leaves no name for the context exactly if it had at most one |
| Names.DeletionMeans | src/cqy_ctx_mgr.cpp:54-57 | the map loses exactly the names of that context, exactly if it has at most one |
| Names.Registry.NewId | src/cqy_ctx_mgr.cpp:33-35 | ids count up from 1 and wrap in 32 bits |
| Names.Registry.LowerBound | src/cqy_ctx_mgr.cpp:79-81 | bisection finds the border between smaller names and the others |
| Names.Registry.FindName | src/cqy_ctx_mgr.cpp:79-86 | agrees with the map, 0 for an unknown name |
| Names.Registry.RegisterName | src/cqy_ctx_mgr.cpp:70-77 | fails, changing nothing, exactly if the name is taken; otherwise the map gains the pair and the vector stays sorted |
| Names.Registry.DeleteContext | src/cqy_ctx_mgr.cpp:51-58 | the context goes, and the first name that leads to it |
| Contexts.Host.CreateContext | src/cqy_app.cpp:274-299 | the handle is new on the node exactly for the first 2^24 ids, and then the table takes the context; 0 if it cannot be made |
| Contexts.FreshExactly | src/cqy_app.cpp:284-287 | exactly the first 2^24 handles of a node differ from all before them |
| Contexts.Host.StopById | src/cqy_app.cpp:310-316 | a context that exists goes with its first name, otherwise nothing changes |
| Contexts.Host.StopByName | src/cqy_app.cpp:301-308 | the context the name leads to goes, if it exists |
| Contexts.StoppedNameIsGone | src/cqy_app.cpp:301-308 | stopping a context by a name takes exactly that name out of the lookup, exactly if it is the first of its names |
| Routing.TableHasConfig | src/cqy_app.cpp:51-64 | for a configuration without duplicates, the table a node builds holds exactly the configured nodes |
| Routing.LookupsHit | src/cqy_node.cpp:28-47 | a scan by id or name hits an entry that fits, or there is none |
| Routing.FirstHit | src/cqy_node.cpp:28-47 | of several entries that fit the scans find the first |
| Routing.TablesAgree | src/cqy_node.cpp:28-47 | lookups by id and by name give the same on every node of one configuration |
| Routing.SplitMeans | src/cqy_algo.cpp:17-25 | the split is at the first separator, and without one everything is on the left |
| Routing.HandleFound | src/cqy_app.cpp:109-122 | "node.context" resolves to this node and context, wherever it is asked |
| Routing.OwnHandleFound | src/cqy_node.cpp:37-40 | ".context" resolves to the node that asks |
| Routing.ResolvesExactly | src/cqy_app.cpp:109-122 | a name resolves exactly if something stands behind its first dot and before it a configured name or nothing, and then to that entry's id or the own node |
| Routing.PushedTouchesOne | src/cqy_app.cpp:124-144 | a push adds the message to the addressed context's queue on this node, or to the queue towards its node, and changes nothing else |
| Routing.UnknownContextIsDropped | src/cqy_app.cpp:153-164 | a message for a name that leads to no context takes a session number and goes nowhere |
| Routing.LocalDispatchArrives | src/cqy_ctx.cpp:44-67 | a message dispatched by handle or by name to a context of the same node gets into its queue with the same view |
| Routing.RemoteDispatchArrives | src/cqy_ctx.cpp:69-74 | dispatched to another node, by handle or by name, it is queued for that node and gets into the context's queue there with the same view |
| Routing.ResponseReturns | src/cqy_ctx.cpp:77-82 | a response gets into the queue of the context that sent the request, with its session number, and of no other context on any node |
| Routing.RoundTrip | src/cqy_ctx.cpp:44-82 | a request by handle and its response make a round trip to the created context that dispatched it, with the session number that the dispatch returned, whatever the nodes do in between |
| Routing.NamedRoundTrip | src/cqy_ctx.cpp:52-82 | the same for a request by name, to the same node or another one |
| Routing.PushedParses | src/cqy_app.cpp:124-144 | everything in a queue towards another node parses |
| Routing.BadMessageEnds | src/cqy_app.cpp:148-152 | a message that does not parse ends the work on its batch |
| Routing.ReceivedInParts | src/cqy_app.cpp:146-166 | a batch of messages that parse is worked through to its end, so batches may be cut anywhere |
| App.NodeApp.Start | src/cqy_app.cpp:51-64 | the node comes up with clients and queues for exactly the other configured nodes, and is refused exactly if it is not configured itself |
| App.NodeApp.CreateContext | src/cqy_app.cpp:274-299 | the node gains an empty queue under the handle of this creation |
| App.ContextsAreNumbered | src/cqy_app.cpp:284-287 | the contexts of a running node are numbered by creation, as the round trips need it |
| App.NodeApp.GetNodeById | src/cqy_node.cpp:28-35 | the scan finds the first entry with the id |
| App.NodeApp.GetNodeByName | src/cqy_node.cpp:37-47 | the scan finds the first entry with the name, and the own entry for the empty name |
| App.NodeApp.NodeMqPush | src/cqy_app.cpp:124-144 | a message goes to the local context, to the queue of a known node, or nowhere |
| App.NodeApp.RpcOnMq | src/cqy_app.cpp:146-166 | each message goes to the context its name or handle says, up to the first that does not parse |
| App.Context.Dispatch | src/cqy_ctx.cpp:44-50 | uses the next session number and pushes the direct message with it |
| App.Context.DispatchByName | src/cqy_ctx.cpp:52-75 | local and remote ways of a dispatch by name; exactly a name that does not resolve on the node's configuration gives -1, takes no session number and changes no queue |
| App.Context.Response | src/cqy_ctx.cpp:77-82 | pushes the response to the sender of the message |
| Calls.ResolvesAlike | src/cqy_app.cpp:109-122 | "node.context" resolves alike on every node |
| Calls.ResolvesToANode | src/cqy_app.cpp:109-122 | what resolves is a configured node with a non-zero id, and ".context" stays on the node that asks |
| Calls.CallByIdMeans | include/cqy_ctx.h:164-206 | a call by handle gives the registered function's own result at the parameters, exactly if the node can be asked and has the context and the function, and which error otherwise |
| Calls.CallByNameMeans | include/cqy_ctx.h:208-257 | the same for a call by name, with the context that the name leads to on the node before the dot |
| Calls.OtherCallsByName | include/cqy_ctx.h:208-219 | calls to the own node's contexts, and to names that do not resolve |
| Calls.ServedElsewhere | src/cqy_app.cpp:213-256 | a node serves calls to its own contexts only |
| Calls.FindMeans | src/cqy_app.cpp:168-211 | finding gives the handle behind the name if the node can be asked and has the name, and 0 otherwise |
| Calls.CallByNameAnywhere | include/cqy_ctx.h:208-257 | a call by name has the same result from every node, as long as the network lets it through |
| Calls.FindThenCall | src/cqy_app.cpp:168-272 | finding a context and calling it by handle equals calling it by name exactly if the context is found; if not, both are errors |
| CvQueue.Queue.Shutdown | include/cqy_utils.h:110-116 | only the first call stops the queue |
| CvQueue.Queue.Append | include/cqy_utils.h:158-163 | the message becomes the last one; nothing taken or queued changes |
| CvQueue.Queue.Pop | include/cqy_utils.h:123-132 | the oldest message; on a stopped queue an exception, even if messages are left |
| CvQueue.Queue.TryPop | include/cqy_utils.h:134-145 | the oldest message unless the lock is held or there is none |
| CvQueue.Queue.PopAll | include/cqy_utils.h:147-152 | everything, in order, stopped or not, and the queue is empty |
| Delivery.StepKeeps | src/cqy_node.cpp:109-143 | every step keeps the invariant: conservation, and the receiver's progress through the accepted messages |
| Delivery.RunKeeps | src/cqy_node.cpp:102-145 | the invariant holds in every run |
| Delivery.FirstDeliveriesInOrder | src/cqy_node.cpp:109-143 | first occurrences in the receiver's log are a prefix of the accepted messages, between what is acknowledged and what the sender has taken on |
| Delivery.FirstsAt | src/cqy_app.cpp:146-166 | each message of the reduced log stands for its first occurrence, in the order of these |
| Delivery.AcknowledgedIsProcessed | src/cqy_app.cpp:146-166 | everything acknowledged was processed, and nothing was processed that was never accepted or is still queued |
| Delivery.NothingIsLost | src/cqy_node.cpp:119-142 | accepted messages are the acknowledged ones, then the batch, then the queue |
| Delivery.CopiesAreWorkedThrough | src/cqy_app.cpp:147-152 | rpc_on_mq never returns before the end of a batch |
| Delivery.RepeatsAreAttempts | src/cqy_node.cpp:127-141 | a message is processed at most as often as its batch was sent |
| Delivery.RepeatsAreCounted | src/cqy_node.cpp:127-141 | the places of a message in the log are at most as many as the attempts that hold it |
| Delivery.ProcessableExactly | src/cqy_node.cpp:93-143 | an accepted message has a continuation that processes it exactly if an attempt with it was made, or if the client is there and the message has left the queue, the queue is not stopped, or the sender is past its loop condition with nothing held; before the reset the first case adds nothing |
| Delivery.BreaksExactly | src/cqy_node.cpp:93-130 | the states from which a shutdown can still make the loop use the client that was reset |
| Delivery.LossByReset | src/cqy_node.cpp:95-97 | a shutdown that finds a batch popped and not sent loses it for good, and the sender breaks |
| Delivery.LossHappens | src/cqy_node.cpp:109-110 | a stop right after a push loses the message: no continuation processes it |
| Delivery.UnacknowledgedButProcessed | src/cqy_node.cpp:132-141 | a sender can stop with a batch that it has no reply for and that was processed |
| Delivery.DuplicatesHappen | src/cqy_node.cpp:132-141 | for every message there is a run that processes it twice |
| Arrival.FirstsOfFor | src/cqy_app.cpp:153-160 | picking out one context's messages and dropping repeats commute |
| Arrival.InboxGets | src/cqy_app.cpp:146-166 | a context's inbox grows by exactly its messages, in order |
| Arrival.InboxInOrder | src/cqy_app.cpp:146-166 | in every run the inbox of every context gets its share of the log, which up to repeats is its share of a prefix of what was accepted |
| Arrival.PushedFeeds | src/cqy_app.cpp:137-139 | what a node pushes for another one waits, possibly long, and is what the link to it accepts when it is appended |
| Arrival.AcceptedInOrder | src/cqy_app.cpp:146-166 | in every run, of two accepted messages for one context, once the second is processed both are in its inbox, up to repeats in the order of acceptance |
| Arrival.PushesStayInOrder | include/cqy_utils.h:154-165 | the same for two pushes, the first appended before the second, whatever happens around and inside them |
| Arrival.SessionsInOrder | src/cqy_ctx.cpp:44-75 | two successive dispatches of one context to another, each by handle or by name, reach its inbox, up to repeats, in session order |
| Backlog.WarningsAreFew | src/cqy_node.cpp:108-117 | the threshold is 1024 times a power of two and at most twice the backlog's bound, and twice the warnings are at most the turns plus K |
| Backlog.WarnsExactly | src/cqy_node.cpp:111-116 | a turn warns exactly if the size has reached 1024 * 2^level, which takes the level up by one; other turns take it down by one |
| Backlog.WarningMustCome | src/cqy_node.cpp:108-117 | with a bounded backlog, after K turns with less than 1024 messages a turn with 1024 or more warns |
| Sender.LoopIsARun | src/cqy_node.cpp:109-143 | whatever happens between its steps, the loop is a run of the step system |
| Sender.LoopDelivers | src/cqy_node.cpp:109-143 | whatever happened before its first turn, the loop delivers at least once and in order, and keeps every accepted message acknowledged, held or queued |
| Sender.TurnAcknowledges | src/cqy_node.cpp:109-142 | a turn of the loop makes one attempt, with the batch it held or all that was queued, or does not come back; a success acknowledges exactly that batch and clears it, and nothing else does; the size it saw lies between what was queued before and what came in |
| Sender.LoopWarnsSeldom | src/cqy_node.cpp:108-117 | if the loop never sees more than the bound, twice its warnings are at most its turns plus K, and its threshold is at most twice the bound |
| Sender.LoopStays | src/cqy_node.cpp:123-125 | once a turn does not come back to the loop condition, nothing more happens |
| Sender.Link.Other | src/cqy_app.cpp:139 | a push, a shutdown or the receiver's progress is one step of the system |
| Sender.Link.Gather | src/cqy_node.cpp:109-125 | from the loop condition to the batch it held or all that was queued, with the queue size seen on the way |
| Sender.Link.Exchange | src/cqy_node.cpp:127-142 | one attempt with the batch: without a client the loop breaks; a success clears the batch and acknowledges it, every other reply keeps it and acknowledges nothing |
| Sender.Link.NodeMqSpawn | src/cqy_node.cpp:102-145 | the loop, with everything that happens between its steps, does what the turns say, and its threshold and warnings are those of the sizes it saw |
| CtxLock.TaskMoves | src/cqy_ctx.cpp:95-98 | a task with manners keeps them, uses the context and frees the lock only inside, and frees it only with the invariant |
| CtxLock.LockMoves | include/cqy_ctx.h:145-162 | the lock stays taken exactly while one task is inside |
| CtxLock.LogMoves | include/cqy_ctx.h:259-263 | the accesses of one turn stay uninterrupted, and those of the task inside are the latest |
| CtxLock.RunKeeps | src/cqy_ctx.cpp:95-98 | in every run of tasks with manners the invariant of the lock, the tasks and the access log holds |
| CtxLock.MutualExclusion | include/cqy_ctx.h:93-105 | at most one task is inside, the lock is taken exactly then, and nobody else can use the context |
| CtxLock.OnlyTakingWaits | include/cqy_ctx.h:93-105 | a task that is not over can always go on, except exactly while it has to take a lock that is taken; so a muli RPC begins at any time |
| CtxLock.StepMeans | include/cqy_ctx.h:145-162 | which steps take the lock, free it or leave it, whoever holds it, and that other tasks are left alone |
| CtxLock.AwaitsAreUndisturbed | src/cqy_ctx.cpp:139-146 | while the task inside awaits plainly, nobody else uses or changes the context |
| CtxLock.MannersAreNeeded | include/cqy_ctx.h:145-162 | for code without manners there is a run beside well-mannered code that breaks a turn in two or frees the lock without the invariant |
| CtxLock.MannersExactly | include/cqy_ctx.h:93-162 | code keeps every turn whole, and the invariant whenever the lock is free, in all runs beside well-mannered code exactly if it has manners |
| CtxLock.DropsNeedTheLock | include/cqy_ctx.h:96-98 | an unguarded RPC that makes a lock-dropping call, or code that makes one inside another, has no manners |
| Entities.PackedRoundTrip | example/entity.h:9-23 | slot and version come back from the 64-bit id |
| Entities.EntityManager.Check | example/entity.cpp:39-44 | true exactly if the version of the slot is the handle's, which for an issued handle means that it is live |
| Entities.EntityManager.Create | example/entity.cpp:14-33 | the handle was never issued before and is live, and no component of the store is the entity's; its cells are what the slot had; all other components stay; the manager stays sound exactly until the slot counter wraps |
| Entities.EntityManager.Destroy | example/entity.cpp:46-61 | the handle is no longer live, its components are gone, all others stay; an old handle changes nothing; exactly a handle invented for a free slot, or a version that wraps, breaks the slots |
| Entities.EntityManager.ClearSlot | example/entity.cpp:56-60 | the slot's cell is emptied in every pool without leaving it, and no other cell changes |
| Entities.EntityManager.Add | example/entity.h:106-123 | the component map gains or replaces exactly this component of the slot's owner, whatever pools have to be made; exactly if the slot is free, free slots are no longer bare |
| Entities.InheritedComponent | example/entity.h:116-121 | create, destroy, add with the old handle, create: the new entity has the component |
| Entities.EntityManager.Get | example/entity.h:125-143 | what the slot's cell holds, which is what the component map has for the slot's owner, whatever version is asked for, and nothing for a free slot |
| Entities.EntityManager.WithComponents | example/entity.h:145-161 | what is found is in the given handles, in their order, passes the check and has every queried component, and every handle with these properties is found as often as it is given |
| Entities.HavingIsLive | example/entity.h:145-161 | a query with at least one type finds live entities only |
| Entities.SlotFreed | example/entity.cpp:54-55 | raising the version and freeing the slot takes exactly one handle out of the live ones and keeps the issued ones |
| Entities.StoreCleared | example/entity.cpp:56-60 | emptying a slot's cells takes exactly one entity's components out of the map |
| Entities.StoreAdded | example/entity.h:116-121 | filling a cell adds exactly one component to the map |
| Entities.CheckExactly | example/entity.cpp:39-44 | an issued handle passes the check exactly while it is not destroyed, and the zero handle never does |

## Left out

- CtxLock.RunKeeps: overrides of `on_stop`, which never run: only the base destructor calls it.
- Sockets, the RPC client and server, TLS, websockets, JSON configuration, logging and timers: only their outcomes appear, as choices of the environment.
- Delivery.BreaksExactly: what a program does after the null pointer is dereferenced, here a sender that stands still; and what the reset does to a request that is waiting for its reply, which is in the RPC library.
- A success reply is taken to mean that `rpc_on_mq` has returned, and a deque moved from to be empty.
- Liveness: wake-ups at shutdown, fairness of the spin lock, eventual delivery, and the deadlock of a call without lock-dropping to one's own context.
- The order in which a context handles its messages: each handler is started on a pool executor, so the model stops at the queue.
- Arrival.InboxInOrder: names and contexts of the receiving node do not change during a run.
- Framing.HeaderRoundTrip: little-endian machines, and a header without padding whose flag bits count from the lowest.
- Contexts.Host.CreateContext: names that `on_init` registers are separate steps, and so are the messages it sends.
- App.Context.DispatchByName: debug builds, where an assertion stops at context names of 255 bytes and more.
- Routing.RoundTrip: nodes with more than 2^24 contexts created, where handles repeat.
- Calls.FindThenCall: the texts of errors, and `struct_pack` encoding, which is a part of the called function.
- Calls.CallByNameAnywhere: names without a node before the dot, which mean the caller's own node.
- Entities.EntityManager.Create: what the manager does after its slot counter has wrapped in 32 bits.
- Entities.EntityManager.Destroy: what the manager does after a version has wrapped in 32 bits, or a handle was destroyed that nobody was given.
- Entities.EntityManager.Add: a slot that was never made, which the source does not check, and a constructor that throws.
- Entities.EntityManager.Get: a slot that was never made.
- Entities.EntityManager.WithComponents: queries for types without a pool slot.
- Generators.Iterator.Next: infinite bodies, element references and allocators, and the branch that uses `std::generator` where it exists.
- Generators.Generator.Begin: local generator variables inside a body that are never started; the move constructor and move assignment of iterators.
- GenSlow.SlowFormFlattens: the slow loop over a generator that was moved away, which the source refuses and the model skips.
- CtxLock.MannersExactly: the content of calls; a callee on the same context is a task of its own, and its answer is the value of an await.
- Backlog.WarningsAreFew: backlogs of 2^63 and more, where the threshold wraps.
- `shared_mutex_type`, `algo::split`, the random helpers, the game demo, the msgpack files and the benchmarks: only easy facts.
