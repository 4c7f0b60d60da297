# Wake-up audio pipeline

This project models the platform-independent wake-up engine of a voice
assistant front end (`app/wakeup_trigger_main.py`). `WakeupEngine` buffers PCM
frames in an unbounded FIFO queue. A dedicated dispatch thread takes the
frames off the queue one at a time. It hands each frame first to the wake-word
detector (`feed_data`) and then to every linked sink (`put`), in link order.
The model also covers the single-slot wake callback of the SnowBoy detector
adapter, `set_callback`, which is guarded by a `callable` check.

Files:

- `types.dfy` (`Types`): frames, sinks, detectors, callback values, the
  exceptions the core raises, and the events of the dispatch trace. A
  collaborator is an identity plus a flag. The flag stands for the
  capability the engine checks, for example "has a callable `put`".
- `sequences.dfy` (`Sequences`): Python's `list.remove`, as `FirstIndex` and
  `RemoveFirst`. Also `Repeat` and `Stutter`, which describe fan-out to a sink
  linked several times.
- `pipeline.dfy` (`Pipeline`): the engine as a pure state machine.
  - Each public operation maps the old attributes to the new attributes and
    to the exception raised, if any.
  - `Step` is one pass of the dispatch loop. It returns the calls it made on
    the detector and on the sinks.
  - `Drain` is several passes in a row.
  - The lemmas state FIFO order, fan-out order and counts, the registration
    checks, `unlink` semantics and the lifecycle flag.
- `detector_adapter.dfy` (`DetectorAdapter`): `set_callback` as a function,
  with lemmas about repeated registration. `SnowBoy` is a class whose
  `callback` slot its methods update.
- `wakeup_engine.dfy` (`Engine`): `WakeupEngine` as a class with the source's
  attributes.
  - Each method is proved to leave exactly the state the matching `Pipeline`
    function computes.
  - The dispatch thread's body is the method `Run`. It loops over `RunStep`
    and carries an invariant that ties it to the trace `Pipeline` predicts.

Two behaviours of the code worth knowing:

- `start()` does not reject an engine that has no detector. It only clears
  `done` and spawns the thread. The thread then dequeues the first frame and
  dies when it reads the missing `wakeup_detector` attribute. That frame is
  lost (`Pipeline.StepWithoutDetector`, the `Fault` outcome of `Step`).
- An exception in the dispatch loop is not caught. It ends the dispatch
  thread, `threading` prints the traceback to stderr, and later frames stay
  queued.

`unlink` of a sink that is not linked raises, because that is what
`list.remove` does. It deletes only the first occurrence of a sink that was
linked several times.

## Model

| member | source | states |
|---|---|---|
| Sequences.FirstIndex | app/wakeup_trigger_main.py:148 | the index `list.remove` deletes: it holds `x`, and no earlier element is `x` |
| Sequences.RemoveFirst | app/wakeup_trigger_main.py:148 | `list.remove` leaves one element fewer, and exactly one copy of `x` fewer (multiset) |
| Sequences.RemoveFirstKeepsOthers | app/wakeup_trigger_main.py:148 | `list.remove` keeps everything before the first `x`, shifts everything after it down by one, and keeps the relative order of all other elements |
| Pipeline.Init | app/wakeup_trigger_main.py:87-93 | a new engine has an empty queue, no sinks, no detector and `done` false, so a pass of the loop on it waits for a frame |
| Pipeline.Put | app/wakeup_trigger_main.py:106-112 | `put` appends the frame at the back of the queue, keeps the queued frames in place and changes nothing else |
| Pipeline.PutManyEnqueues | app/wakeup_trigger_main.py:106-112 | putting frames one by one appends them to the queue in call order |
| Pipeline.SetWakeupDetector | app/wakeup_trigger_main.py:95-104 | `set_wakeup_detector` raises exactly when the candidate lacks a callable `feed_data`; the state is then unchanged; otherwise the slot holds the new detector |
| Pipeline.Link | app/wakeup_trigger_main.py:131-140 | `link` raises exactly when the candidate lacks a callable `put`; the registry is then unchanged; otherwise the sink is appended at the end |
| Pipeline.LinkTwiceDeliversTwice | app/wakeup_trigger_main.py:131-140 | no deduplication: linking a sink twice adds two entries, and each frame then reaches that sink exactly two more times |
| Pipeline.Unlink | app/wakeup_trigger_main.py:142-148 | `unlink` raises exactly when the sink is not linked, and the state is then unchanged; in every case nothing but the registry changes |
| Pipeline.UnlinkRemovesFirst | app/wakeup_trigger_main.py:142-148 | a successful `unlink` deletes only the first entry of the sink: entries before it stay in place, entries after it shift down by one, and the relative order of all other sinks is kept |
| Pipeline.UnlinkStopsDelivery | app/wakeup_trigger_main.py:142-148 | after unlinking a sink linked once, the next frame does not reach it, and every other sink receives what it did before |
| Pipeline.UnlinkDropsOneCopy | app/wakeup_trigger_main.py:142-148 | one `unlink` of a sink linked k times leaves k - 1 entries: each later frame reaches it k - 1 times |
| Pipeline.PutAllCounts | app/wakeup_trigger_main.py:159-160 | the sink loop never feeds the detector, and it gives a sink one copy of the frame per registry entry equal to that sink |
| Pipeline.DispatchOrder | app/wakeup_trigger_main.py:156-160 | per frame: the detector is called first, then each sink in registry order, and nothing else is called |
| Pipeline.DispatchFanOut | app/wakeup_trigger_main.py:156-160 | per frame: the detector is fed the frame once, and a sink linked k times receives it k times |
| Pipeline.Step | app/wakeup_trigger_main.py:155-160 | one pass: it does nothing exactly when `done` is set; it waits exactly when the queue is empty; it dequeues the head frame and then dies exactly when there is no detector; otherwise it dequeues the head frame and emits its dispatch; only the queue changes |
| Pipeline.Drain | app/wakeup_trigger_main.py:155-160 | several passes: only the queue changes, and it loses a prefix of at most one frame per pass; the thread dies only without a detector and with a frame pending; with `done` set nothing happens |
| Pipeline.StepDispatchesHead | app/wakeup_trigger_main.py:155-160 | one pass on a running engine with a detector and a pending frame removes exactly the head frame and hands it out in "detector, then sinks" order |
| Pipeline.StepWithoutDetector | app/wakeup_trigger_main.py:155-157 | without a detector the pass dequeues the head frame and then ends the thread; draining stops there with nothing delivered |
| Pipeline.DrainDelivers | app/wakeup_trigger_main.py:155-160 | n passes hand out the first n queued frames, one full dispatch each, in queue order, and leave the rest queued |
| Pipeline.DrainFifo | app/wakeup_trigger_main.py:155-160 | FIFO order: the detector is fed the dequeued frames in queue order, and a sink linked k times receives each of them k times, in the same order |
| Pipeline.FramesCounts | app/wakeup_trigger_main.py:155-160 | the trace of dispatching several frames feeds the detector exactly those frames, and gives each sink each frame once per registry entry |
| Pipeline.PutThenDrain | app/wakeup_trigger_main.py:106-112 | end to end: frames put into an idle engine reach the detector, and every sink linked once, in put order; a sink that is not linked receives nothing; the queue ends empty |
| Pipeline.DrainRuns | app/wakeup_trigger_main.py:155-160 | draining the whole queue is a run as `Ran` describes it: nothing if `done`, the first frame lost without a detector, otherwise every frame dispatched in order |
| Pipeline.ProgressStep | app/wakeup_trigger_main.py:155-160 | a pass that delivers a frame shortens the queue and extends the trace by that frame's dispatch |
| Pipeline.ProgressEnd | app/wakeup_trigger_main.py:155-157 | a pass that delivers nothing (done, empty queue or no detector) ends the loop in the state `Ran` describes |
| Pipeline.Start | app/wakeup_trigger_main.py:114-122 | `start` clears `done` and changes nothing else |
| Pipeline.Stop | app/wakeup_trigger_main.py:124-129 | `stop` sets `done` and changes nothing else |
| Pipeline.StopHaltsDispatch | app/wakeup_trigger_main.py:114-129 | `stop` is idempotent; once `done` is set no pass dequeues or calls anything; `start` after `stop` restores the flag to false |
| Pipeline.TwoFramesTwoSinks | app/wakeup_trigger_main.py:155-160 | with detector D and sinks [S1, S2], frames A then B give the trace D.feed(A), S1.put(A), S2.put(A), D.feed(B), S1.put(B), S2.put(B) |
| Pipeline.UnlinkBetweenFrames | app/wakeup_trigger_main.py:142-160 | when S1 is unlinked after A was handed out, B is fed to D and put to S2 only |
| DetectorAdapter.Register | app/wakeup_trigger_main.py:47-56 | `set_callback` raises exactly when the argument is not callable, and then keeps the old slot; otherwise the argument replaces the slot |
| DetectorAdapter.RegisterAll | app/wakeup_trigger_main.py:47-56 | after a series of `set_callback` calls, the slot holds either what it held before or a callable argument; so, starting from the empty slot that `__init__` sets (line 36), it never holds a value that is not callable |
| DetectorAdapter.LastCallable | app/wakeup_trigger_main.py:53 | the result is a callable argument with no callable argument after it, or none of the arguments is callable |
| DetectorAdapter.LastCallableWins | app/wakeup_trigger_main.py:47-56 | exactly one callback at a time: after any series of `set_callback` calls, the slot holds the last callable argument, or the previous callback if every argument was rejected |
| DetectorAdapter.SnowBoy.constructor | app/wakeup_trigger_main.py:31-37 | a new adapter has an empty callback slot and has forwarded no audio |
| DetectorAdapter.SnowBoy.FeedData | app/wakeup_trigger_main.py:39-45 | the frame is forwarded to the hotword engine, after the frames forwarded earlier |
| DetectorAdapter.SnowBoy.SetCallback | app/wakeup_trigger_main.py:47-56 | raises exactly when the argument is not callable and then keeps the old slot; otherwise it replaces the slot; the slot stays callable |
| Engine.WakeupEngine.constructor | app/wakeup_trigger_main.py:87-93 | empty queue, no sinks, no detector, `done` false, nothing dispatched; the detector slot invariant `Valid` holds |
| Engine.WakeupEngine.SetWakeupDetector | app/wakeup_trigger_main.py:95-104 | new attributes and exception are those of `Pipeline.SetWakeupDetector`; the slot still holds only a detector with a callable `feed_data` (`Valid`) |
| Engine.WakeupEngine.Put | app/wakeup_trigger_main.py:106-112 | new attributes are those of `Pipeline.Put` |
| Engine.WakeupEngine.Start | app/wakeup_trigger_main.py:114-122 | new attributes are those of `Pipeline.Start` |
| Engine.WakeupEngine.Stop | app/wakeup_trigger_main.py:124-129 | new attributes are those of `Pipeline.Stop` |
| Engine.WakeupEngine.Link | app/wakeup_trigger_main.py:131-140 | new attributes and exception are those of `Pipeline.Link` |
| Engine.WakeupEngine.Unlink | app/wakeup_trigger_main.py:142-148 | new attributes and exception are those of `Pipeline.Unlink` |
| Engine.WakeupEngine.RunStep | app/wakeup_trigger_main.py:155-160 | one loop pass: the outcome is `Pipeline.Step`, the new attributes are its successor state, and the calls made extend the trace by exactly its events |
| Engine.WakeupEngine.Run | app/wakeup_trigger_main.py:150-160 | the thread body until it stops: only the queue changes; with `done` set nothing happens; without a detector the first frame is lost and the thread dies; otherwise every pending frame is dispatched in queue order |

## Left out

- Threads: `start` spawns a daemon thread (`app/wakeup_trigger_main.py:120-122`). The model runs that thread's body as `Run` in the caller's context. Interleavings of `put`, `link`, `unlink` and `stop` with a running dispatch loop are not modelled. The model also does not capture that `stop` takes effect only at the next loop head, or that the `for` loop reads the sink list while another thread may change it.
- Each `start()` spawns one more thread. A second `start()`, or `stop()` then `start()` while the first thread still waits in `get()`, leaves two loops draining one queue; `DrainFifo`, `StepDispatchesHead` and `Run` describe a single loop only.
- `Step`, `Drain` and `Run` stand for a thread that exists only after `start()`. Without `start()` the source dispatches nothing, but in the model a state fresh from `Init()` can already be drained (`TwoFramesTwoSinks` never calls `Start`).
- The blocking `queue.get()` is not modelled as a wait: `Step` returns `Waiting` when the queue is empty, and `Run` returns at that point.
- Exceptions raised by a sink's `put` or by the detector's `feed_data` during dispatch are not modelled. Collaborators are assumed to return normally.
- Engine.WakeupEngine.Run: the `crashed` result stands for the `AttributeError` that ends the thread when no detector was set; the exception itself is not modelled.
- Collaborators are identities with one capability flag. `hasattr`/`callable` are not modelled beyond that flag, and neither is Python object equality beyond identity.
- `SnowBoy.start`, `SnowBoy.stop` and `SnowBoy.__run` (`app/wakeup_trigger_main.py:58-79`) hand the callback to the external `HotwordDetector` and run or terminate it. That engine is not part of this model, so wake events and callback invocation are not modelled. `SnowBoy.__init__`'s sensitivity and gain constants are not modelled either.
- The `self.callback` attribute that `WakeupEngine.__init__` sets (`app/wakeup_trigger_main.py:91`) is never read or written again, so it is not modelled.
- The module-level `Queue`/`queue` import fallback (`app/wakeup_trigger_main.py:10-13`) is not modelled. As written, its fallback imports a module named `queueg`.
- `DuerOSStateListner`, the directive listener and `main` in the same file are not part of this model. Neither are the microphone, the player and the dialogue client.
- The queue has no size bound in the source and none in the model; frames are opaque byte sequences.
