/** The platform-independent wake-up engine as a pure state machine.

    A `State` holds what `WakeupEngine` keeps in its attributes: the FIFO of
    pending frames, the ordered list of linked sinks, the detector slot and
    the `done` flag. Every public operation is a function from the old state
    to the new one (plus the exception it raises, if any), and one iteration
    of the dispatch loop is a `Step` that also returns the calls it made on
    the detector and on the sinks. The lemmas below state what the engine
    promises about these traces: FIFO order, per-frame fan-out order,
    no partial registration, `list.remove` semantics for `unlink`. */
module Pipeline {
  import opened Types
  import opened Sequences

  /** The engine's attributes. `detector` is `None` while `set_wakeup_detector`
      has never succeeded: the attribute does not exist yet. */
  datatype State = State(queue: seq<Frame>, sinks: seq<Sink>, detector: Option<Detector>, done: bool)

  /** The state after a public call and the exception it raised, if any. */
  datatype Call = Call(after: State, raised: Option<Error>)

  /** `WakeupEngine()`: empty queue, no sinks, no detector, not done. */
  function Init(): (r: State)
    ensures r.queue == [] && r.sinks == [] && r.detector.None? && !r.done
    ensures Step(r) == Waiting
  {
    State([], [], None, false)
  }

  /** `set_wakeup_detector(d)`: accepted only with a callable `feed_data`. */
  function SetWakeupDetector(st: State, d: Detector): (r: Call)
    ensures r.raised.Some? <==> !d.hasFeedData
    ensures !d.hasFeedData ==> r == Call(st, Some(DetectorWithoutFeedData))
    ensures d.hasFeedData ==> r.after == st.(detector := Some(d))
  {
    if d.hasFeedData then Call(st.(detector := Some(d)), None)
    else Call(st, Some(DetectorWithoutFeedData))
  }

  /** `put(f)`: enqueue at the back; never raises. */
  function Put(st: State, f: Frame): (r: State)
    ensures r.queue == st.queue + [f]
    ensures r.queue[..|st.queue|] == st.queue
    ensures r.(queue := st.queue) == st
  {
    st.(queue := st.queue + [f])
  }

  /** A producer calling `put` once per frame of `fs`, in order. */
  function PutMany(st: State, fs: seq<Frame>): State
    decreases fs
  {
    if fs == [] then st else PutMany(Put(st, fs[0]), fs[1..])
  }

  /** `start()`: clears `done` (the dispatch thread it spawns is `Step` repeated). */
  function Start(st: State): (r: State)
    ensures !r.done && r.(done := st.done) == st
  {
    st.(done := false)
  }

  /** `stop()`: sets `done`. */
  function Stop(st: State): (r: State)
    ensures r.done && r.(done := st.done) == st
  {
    st.(done := true)
  }

  /** `link(s)`: accepted only with a callable `put`; appended without deduplication. */
  function Link(st: State, s: Sink): (r: Call)
    ensures r.raised.Some? <==> !s.hasPut
    ensures !s.hasPut ==> r == Call(st, Some(SinkWithoutPut))
    ensures s.hasPut ==> r.after == st.(sinks := st.sinks + [s])
  {
    if s.hasPut then Call(st.(sinks := st.sinks + [s]), None)
    else Call(st, Some(SinkWithoutPut))
  }

  /** `unlink(s)`: `self.sinks.remove(s)`, which raises when `s` is not in the list. */
  function Unlink(st: State, s: Sink): (r: Call)
    ensures r.raised.Some? <==> s !in st.sinks
    ensures s !in st.sinks ==> r == Call(st, Some(SinkNotLinked))
    ensures r.after.(sinks := st.sinks) == st
  {
    if s in st.sinks then Call(st.(sinks := RemoveFirst(st.sinks, s)), None)
    else Call(st, Some(SinkNotLinked))
  }

  /** The inner `for sink in self.sinks: sink.put(chunk)` loop. */
  function PutAll(sinks: seq<Sink>, f: Frame): seq<Event>
  {
    if sinks == [] then [] else [Deliver(sinks[0], f)] + PutAll(sinks[1..], f)
  }

  /** Everything done with one dequeued frame: the detector first, then each sink in list order. */
  function Dispatch(d: Detector, sinks: seq<Sink>, f: Frame): seq<Event>
  {
    [Feed(d, f)] + PutAll(sinks, f)
  }

  /** What one pass of the dispatch loop does. */
  datatype StepResult =
    | Idle                                           // `done` seen at the loop head: nothing dequeued
    | Waiting                                        // queue empty: the blocking `get` waits
    | Fault(after: State)                            // frame dequeued, then no detector attribute: the thread dies
    | Delivered(after: State, events: seq<Event>)    // frame dequeued and handed out
  {
    /** The engine's state once the pass is over. */
    function Next(st: State): State
    {
      if Idle? || Waiting? then st else after
    }

    /** The calls made on collaborators during the pass. */
    function Emitted(): seq<Event>
    {
      if Delivered? then events else []
    }
  }

  /** One iteration of `while not self.done: chunk = self.queue.get(); ...`. */
  function Step(st: State): (r: StepResult)
    ensures r.Idle? <==> st.done
    ensures r.Waiting? <==> !st.done && st.queue == []
    ensures r.Fault? <==> !st.done && st.queue != [] && st.detector.None?
    ensures (r.Fault? || r.Delivered?) ==> r.after == st.(queue := st.queue[1..])
    ensures r.Delivered? ==> r.events == Dispatch(st.detector.value, st.sinks, st.queue[0])
  {
    if st.done then Idle
    else if st.queue == [] then Waiting
    else
      var rest := st.(queue := st.queue[1..]);
      match st.detector
      case None => Fault(rest)
      case Some(d) => Delivered(rest, Dispatch(d, st.sinks, st.queue[0]))
  }

  /** The outcome of several passes of the dispatch loop. */
  datatype Drained = Drained(after: State, events: seq<Event>, crashed: bool)

  /** At most `n` passes of the dispatch loop, stopping when it would block,
      when it sees `done`, or when the thread dies. */
  function Drain(st: State, n: nat): (r: Drained)
    decreases n
    ensures r.after.(queue := st.queue) == st
    ensures SuffixOf(r.after.queue, st.queue) && |st.queue| - |r.after.queue| <= n
    ensures r.crashed ==> !st.done && st.detector.None? && st.queue != []
    ensures st.done || n == 0 ==> r == Drained(st, [], false)
  {
    if n == 0 then Drained(st, [], false)
    else
      match Step(st)
      case Idle => Drained(st, [], false)
      case Waiting => Drained(st, [], false)
      case Fault(a) => Drained(a, [], true)
      case Delivered(a, ev) =>
        var r := Drain(a, n - 1);
        Drained(r.after, ev + r.events, r.crashed)
  }

  /** The trace of dispatching the frames `fs` one after another. */
  function Frames(d: Detector, sinks: seq<Sink>, fs: seq<Frame>): seq<Event>
  {
    if fs == [] then [] else Dispatch(d, sinks, fs[0]) + Frames(d, sinks, fs[1..])
  }

  /** The frames the detector was fed, in order. */
  function FedFrames(evs: seq<Event>): seq<Frame>
  {
    if evs == [] then []
    else if evs[0].Feed? then [evs[0].frame] + FedFrames(evs[1..])
    else FedFrames(evs[1..])
  }

  /** The frames sink `s` received through `put`, in order. */
  function PutsTo(evs: seq<Event>, s: Sink): seq<Frame>
  {
    if evs == [] then []
    else if evs[0] == Deliver(s, evs[0].frame) then [evs[0].frame] + PutsTo(evs[1..], s)
    else PutsTo(evs[1..], s)
  }

  // ---------------------------------------------------------------------
  // Trace algebra

  lemma {:induction false} PutAllAppend(a: seq<Sink>, b: seq<Sink>, f: Frame)
    ensures PutAll(a + b, f) == PutAll(a, f) + PutAll(b, f)
  {
    if a == [] {
      assert a + b == b;
    } else {
      assert (a + b)[0] == a[0];
      assert (a + b)[1..] == a[1..] + b;
      PutAllAppend(a[1..], b, f);
    }
  }

  lemma {:induction false} PutAllAt(sinks: seq<Sink>, f: Frame)
    ensures |PutAll(sinks, f)| == |sinks|
    ensures forall j :: 0 <= j < |sinks| ==> PutAll(sinks, f)[j] == Deliver(sinks[j], f)
  {
    if sinks != [] {
      PutAllAt(sinks[1..], f);
    }
  }

  lemma {:induction false} FedFramesAppend(a: seq<Event>, b: seq<Event>)
    ensures FedFrames(a + b) == FedFrames(a) + FedFrames(b)
  {
    if a == [] {
      assert a + b == b;
    } else {
      assert (a + b)[0] == a[0];
      assert (a + b)[1..] == a[1..] + b;
      FedFramesAppend(a[1..], b);
    }
  }

  lemma {:induction false} PutsToAppend(a: seq<Event>, b: seq<Event>, s: Sink)
    ensures PutsTo(a + b, s) == PutsTo(a, s) + PutsTo(b, s)
  {
    if a == [] {
      assert a + b == b;
    } else {
      assert (a + b)[0] == a[0];
      assert (a + b)[1..] == a[1..] + b;
      PutsToAppend(a[1..], b, s);
    }
  }

  /** The sink loop feeds nobody and gives `s` one copy of `f` per list entry equal to `s`. */
  lemma {:induction false} PutAllCounts(sinks: seq<Sink>, f: Frame, s: Sink)
    ensures FedFrames(PutAll(sinks, f)) == []
    ensures PutsTo(PutAll(sinks, f), s) == Repeat(f, multiset(sinks)[s])
  {
    if sinks != [] {
      PutAllCounts(sinks[1..], f, s);
      assert sinks == [sinks[0]] + sinks[1..];
      assert multiset(sinks) == multiset{sinks[0]} + multiset(sinks[1..]);
      var evs := PutAll(sinks, f);
      assert evs[1..] == PutAll(sinks[1..], f);
    }
  }

  // ---------------------------------------------------------------------
  // One frame

  /** Per-frame fan-out order: `Feed(d, f)` first, then `Deliver(s, f)` (the call `s.put(f)`) for each
      sink in current list order. */
  lemma DispatchOrder(d: Detector, sinks: seq<Sink>, f: Frame)
    ensures |Dispatch(d, sinks, f)| == |sinks| + 1
    ensures Dispatch(d, sinks, f)[0] == Feed(d, f)
    ensures forall j :: 0 <= j < |sinks| ==> Dispatch(d, sinks, f)[j + 1] == Deliver(sinks[j], f)
  {
    PutAllAt(sinks, f);
  }

  /** Per-frame delivery counts: the detector is fed `f` once, and a sink
      linked k times receives `f` k times (none at all when not linked). */
  lemma DispatchFanOut(d: Detector, sinks: seq<Sink>, f: Frame, s: Sink)
    ensures FedFrames(Dispatch(d, sinks, f)) == [f]
    ensures PutsTo(Dispatch(d, sinks, f), s) == Repeat(f, multiset(sinks)[s])
  {
    PutAllCounts(sinks, f, s);
    FedFramesAppend([Feed(d, f)], PutAll(sinks, f));
    PutsToAppend([Feed(d, f)], PutAll(sinks, f), s);
  }

  /** One pass on a running engine with a pending frame and a detector removes
      exactly the head frame and hands it out in "detector, then sinks" order. */
  lemma StepDispatchesHead(st: State)
    requires !st.done && st.queue != [] && st.detector.Some?
    ensures Step(st).Delivered?
    ensures Step(st).after == st.(queue := st.queue[1..])
    ensures var ev := Step(st).events;
      |ev| == |st.sinks| + 1 && ev[0] == Feed(st.detector.value, st.queue[0]) &&
      (forall j :: 0 <= j < |st.sinks| ==> ev[j + 1] == Deliver(st.sinks[j], st.queue[0]))
    ensures forall s :: PutsTo(Step(st).events, s) == Repeat(st.queue[0], multiset(st.sinks)[s])
  {
    var d := st.detector.value;
    DispatchOrder(d, st.sinks, st.queue[0]);
    forall s ensures PutsTo(Step(st).events, s) == Repeat(st.queue[0], multiset(st.sinks)[s]) {
      DispatchFanOut(d, st.sinks, st.queue[0], s);
    }
  }

  /** The detector attribute is read only after the `get`: without it, the
      head frame is lost and the pass ends the thread. */
  lemma StepWithoutDetector(st: State)
    requires !st.done && st.queue != [] && st.detector.None?
    ensures Step(st) == Fault(st.(queue := st.queue[1..]))
    ensures Drain(st, |st.queue|) == Drained(st.(queue := st.queue[1..]), [], true)
  {
  }

  // ---------------------------------------------------------------------
  // Many frames

  lemma {:induction false} FramesSnoc(d: Detector, sinks: seq<Sink>, fs: seq<Frame>, f: Frame)
    ensures Frames(d, sinks, fs + [f]) == Frames(d, sinks, fs) + Dispatch(d, sinks, f)
  {
    if fs == [] {
      assert fs + [f] == [f];
      assert [f][1..] == [];
    } else {
      assert (fs + [f])[0] == fs[0];
      assert (fs + [f])[1..] == fs[1..] + [f];
      FramesSnoc(d, sinks, fs[1..], f);
    }
  }

  /** Passes of the dispatch loop from `start` have reached `st`, having
      handed out the frames `handed` and extended the trace `prior` to `trace`. */
  predicate Progress(start: State, st: State, handed: seq<Frame>, prior: seq<Event>, trace: seq<Event>)
  {
    st.(queue := start.queue) == start && start.queue == handed + st.queue &&
    (start.done || start.detector.None? ==> handed == [] && trace == prior) &&
    (start.detector.Some? ==> trace == prior + Frames(start.detector.value, start.sinks, handed))
  }

  /** A pass that hands out a frame keeps `Progress` and shortens the queue. */
  lemma ProgressStep(start: State, st: State, handed: seq<Frame>, prior: seq<Event>, trace: seq<Event>)
    requires Progress(start, st, handed, prior, trace) && Step(st).Delivered?
    ensures |Step(st).after.queue| < |st.queue|
    ensures Progress(start, Step(st).after, handed + [st.queue[0]], prior, trace + Step(st).Emitted())
  {
    var d, f := start.detector.value, st.queue[0];
    assert st.queue == [f] + st.queue[1..];
    assert handed + st.queue == (handed + [f]) + st.queue[1..];
    assert Step(st).Emitted() == Dispatch(d, start.sinks, f);
    FramesSnoc(d, start.sinks, handed, f);
    assert trace + Dispatch(d, start.sinks, f) == prior + Frames(d, start.sinks, handed + [f]);
  }

  /** What running the dispatch loop from `start` until it stops leaves
      behind: with `done` set nothing is dequeued; without a detector the
      first frame is lost and the thread dies (`crashed`); otherwise every
      pending frame is handed out, in queue order, each to the detector and
      then to the sinks in list order. Only the queue changes. */
  predicate Ran(start: State, prior: seq<Event>, end: State, trace: seq<Event>, crashed: bool)
  {
    end.(queue := start.queue) == start &&
    (start.done ==> end == start && trace == prior && !crashed) &&
    (!start.done && start.detector.None? ==>
      crashed == (start.queue != []) && trace == prior &&
      end.queue == if start.queue == [] then [] else start.queue[1..]) &&
    (!start.done && start.detector.Some? ==>
      !crashed && end.queue == [] && trace == prior + Frames(start.detector.value, start.sinks, start.queue))
  }

  /** A pass that hands nothing out ends the loop as `Ran` describes. */
  lemma ProgressEnd(start: State, st: State, handed: seq<Frame>, prior: seq<Event>, trace: seq<Event>)
    requires Progress(start, st, handed, prior, trace) && !Step(st).Delivered?
    ensures Ran(start, prior, Step(st).Next(st), trace, Step(st).Fault?)
  {
    if !start.done && start.detector.Some? {
      assert handed + [] == handed;
    }
  }

  /** `Drain` over the whole queue is one such run. */
  lemma DrainRuns(st: State)
    ensures var d := Drain(st, |st.queue|); Ran(st, [], d.after, d.events, d.crashed)
  {
    if !st.done && st.detector.Some? {
      DrainDelivers(st, |st.queue|);
      assert st.queue[..|st.queue|] == st.queue && st.queue[|st.queue|..] == [];
    }
  }

  lemma {:induction false} FramesCounts(d: Detector, sinks: seq<Sink>, fs: seq<Frame>, s: Sink)
    ensures FedFrames(Frames(d, sinks, fs)) == fs
    ensures PutsTo(Frames(d, sinks, fs), s) == Stutter(fs, multiset(sinks)[s])
  {
    if fs != [] {
      FramesCounts(d, sinks, fs[1..], s);
      DispatchFanOut(d, sinks, fs[0], s);
      FedFramesAppend(Dispatch(d, sinks, fs[0]), Frames(d, sinks, fs[1..]));
      PutsToAppend(Dispatch(d, sinks, fs[0]), Frames(d, sinks, fs[1..]), s);
    }
  }

  /** `n` passes over a running engine with a detector and at least `n`
      pending frames hand out the first `n` frames in queue order and leave
      the rest queued; sinks, detector and `done` are untouched. */
  lemma {:induction false} DrainDelivers(st: State, n: nat)
    requires !st.done && st.detector.Some? && n <= |st.queue|
    decreases n
    ensures Drain(st, n) ==
      Drained(st.(queue := st.queue[n..]), Frames(st.detector.value, st.sinks, st.queue[..n]), false)
  {
    if n == 0 {
      assert st.queue[0..] == st.queue;
      assert st.queue[..0] == [];
    } else {
      var a := st.(queue := st.queue[1..]);
      DrainDelivers(a, n - 1);
      assert a.queue[n - 1..] == st.queue[n..];
      assert st.queue[..n][1..] == a.queue[..n - 1];
    }
  }

  /** FIFO preservation: draining F1..Fn feeds the detector F1..Fn in that
      order, and a sink linked k times receives each Fi k times, in the same
      order. */
  lemma DrainFifo(st: State, n: nat, s: Sink)
    requires !st.done && st.detector.Some? && n <= |st.queue|
    ensures !Drain(st, n).crashed
    ensures Drain(st, n).after == st.(queue := st.queue[n..])
    ensures FedFrames(Drain(st, n).events) == st.queue[..n]
    ensures PutsTo(Drain(st, n).events, s) == Stutter(st.queue[..n], multiset(st.sinks)[s])
  {
    DrainDelivers(st, n);
    FramesCounts(st.detector.value, st.sinks, st.queue[..n], s);
  }

  lemma {:induction false} PutManyEnqueues(st: State, fs: seq<Frame>)
    decreases fs
    ensures PutMany(st, fs) == st.(queue := st.queue + fs)
  {
    if fs != [] {
      PutManyEnqueues(Put(st, fs[0]), fs[1..]);
      assert st.queue + [fs[0]] + fs[1..] == st.queue + fs;
    }
  }

  /** End to end: frames put into an idle running engine reach the detector
      in the order they were put, and so does every sink linked once; a sink
      not linked receives nothing. */
  lemma PutThenDrain(st: State, fs: seq<Frame>, s: Sink)
    requires !st.done && st.detector.Some? && st.queue == []
    ensures var r := Drain(PutMany(st, fs), |fs|);
      !r.crashed && r.after == st &&
      FedFrames(r.events) == fs &&
      (multiset(st.sinks)[s] == 1 ==> PutsTo(r.events, s) == fs) &&
      (s !in st.sinks ==> PutsTo(r.events, s) == [])
  {
    PutManyEnqueues(st, fs);
    var st' := PutMany(st, fs);
    assert st'.queue == fs;
    DrainFifo(st', |fs|, s);
    assert fs[..|fs|] == fs && fs[|fs|..] == [];
    StutterOnceOrNever(fs);
  }

  // ---------------------------------------------------------------------
  // Registration

  /** No deduplication: linking the same sink twice gives two entries, and
      each frame is then delivered to it twice more than before. */
  lemma LinkTwiceDeliversTwice(st: State, s: Sink, d: Detector, f: Frame)
    requires s.hasPut
    ensures var st2 := Link(Link(st, s).after, s).after;
      st2.sinks == st.sinks + [s, s] &&
      PutsTo(Dispatch(d, st2.sinks, f), s) == [f, f] + PutsTo(Dispatch(d, st.sinks, f), s)
  {
    var st2 := Link(Link(st, s).after, s).after;
    assert st2.sinks == st.sinks + [s, s];
    assert multiset(st2.sinks) == multiset(st.sinks) + multiset{s, s};
    DispatchFanOut(d, st.sinks, f, s);
    DispatchFanOut(d, st2.sinks, f, s);
  }

  /** A successful `unlink` follows `list.remove`: it deletes the first
      occurrence only and keeps every other entry in its relative order. */
  lemma UnlinkRemovesFirst(st: State, s: Sink)
    requires s in st.sinks
    ensures
      var after := Unlink(st, s).after;
      var i := FirstIndex(st.sinks, s);
      after.sinks[..i] == st.sinks[..i] && after.sinks[i..] == st.sinks[i + 1..] &&
      multiset(after.sinks) == multiset(st.sinks) - multiset{s} &&
      Erase(after.sinks, s) == Erase(st.sinks, s)
  {
    RemoveFirstKeepsOthers(st.sinks, s);
  }

  /** Unlinking a sink linked once stops delivery to it from the next frame
      on, while every other sink receives exactly what it received before. */
  lemma UnlinkStopsDelivery(st: State, s: Sink, t: Sink, d: Detector, f: Frame)
    requires multiset(st.sinks)[s] == 1
    ensures var sinks' := Unlink(st, s).after.sinks;
      PutsTo(Dispatch(d, sinks', f), s) == [] &&
      (t != s ==> PutsTo(Dispatch(d, sinks', f), t) == PutsTo(Dispatch(d, st.sinks, f), t))
  {
    var sinks' := Unlink(st, s).after.sinks;
    assert sinks' == RemoveFirst(st.sinks, s);
    DispatchFanOut(d, sinks', f, s);
    DispatchFanOut(d, sinks', f, t);
    DispatchFanOut(d, st.sinks, f, t);
  }

  /** One `unlink` of a sink linked k times leaves it linked k - 1 times:
      each later frame reaches it once less. */
  lemma UnlinkDropsOneCopy(st: State, s: Sink, d: Detector, f: Frame)
    requires s in st.sinks
    ensures PutsTo(Dispatch(d, Unlink(st, s).after.sinks, f), s) == Repeat(f, multiset(st.sinks)[s] - 1)
  {
    DispatchFanOut(d, Unlink(st, s).after.sinks, f, s);
  }

  // ---------------------------------------------------------------------
  // Lifecycle

  /** `stop` is idempotent; once `done` is set, the loop head dequeues
      nothing and no pass changes anything; `start` clears the flag again. */
  lemma StopHaltsDispatch(st: State, n: nat)
    ensures Stop(Stop(st)) == Stop(st)
    ensures Step(Stop(st)) == Idle
    ensures Drain(Stop(st), n) == Drained(Stop(st), [], false)
    ensures Start(Stop(st)) == st.(done := false)
  {
  }

  // ---------------------------------------------------------------------
  // Scenarios

  /** Detector D and sinks [S1, S2]; frames [A, B] put and dispatched. */
  lemma TwoFramesTwoSinks()
    ensures
      var D, S1, S2 := Detector(0, true), Sink(1, true), Sink(2, true);
      var A, B: Frame := [1], [2];
      var st := Link(Link(SetWakeupDetector(Init(), D).after, S1).after, S2).after;
      Drain(PutMany(st, [A, B]), 2).events ==
        [Feed(D, A), Deliver(S1, A), Deliver(S2, A), Feed(D, B), Deliver(S1, B), Deliver(S2, B)]
  {
    var D, S1, S2 := Detector(0, true), Sink(1, true), Sink(2, true);
    var A, B: Frame := [1], [2];
    var st0 := SetWakeupDetector(Init(), D).after;
    assert st0 == State([], [], Some(D), false);
    var st1 := Link(st0, S1).after;
    assert st1 == State([], [S1], Some(D), false);
    var st := Link(st1, S2).after;
    assert st == State([], [S1, S2], Some(D), false);
    var q := PutMany(st, [A, B]);
    PutManyEnqueues(st, [A, B]);
    assert q == State([A, B], [S1, S2], Some(D), false);
    DrainDelivers(q, 2);
    assert q.queue[..2] == [A, B];
    FramesTwo(D, [S1, S2], A, B);
    DispatchBoth(D, S1, S2, A);
    DispatchBoth(D, S1, S2, B);
  }

  lemma FramesTwo(d: Detector, sinks: seq<Sink>, a: Frame, b: Frame)
    ensures Frames(d, sinks, [a, b]) == Dispatch(d, sinks, a) + Dispatch(d, sinks, b)
  {
    assert [a, b][1..] == [b] && [b][1..] == [];
    assert Frames(d, sinks, [b]) == Dispatch(d, sinks, b) + Frames(d, sinks, []);
  }

  lemma DispatchBoth(d: Detector, s1: Sink, s2: Sink, f: Frame)
    ensures Dispatch(d, [s1, s2], f) == [Feed(d, f), Deliver(s1, f), Deliver(s2, f)]
  {
    DispatchOrder(d, [s1, s2], f);
    var ev := Dispatch(d, [s1, s2], f);
    assert [s1, s2][0] == s1 && [s1, s2][1] == s2;
    assert ev[1] == Deliver(s1, f) && ev[2] == Deliver(s2, f);
  }

  /** Same wiring; S1 is unlinked after A was handed out, so B goes to D and S2 only. */
  lemma UnlinkBetweenFrames()
    ensures
      var D, S1, S2 := Detector(0, true), Sink(1, true), Sink(2, true);
      var A, B: Frame := [1], [2];
      var st := State([A, B], [S1, S2], Some(D), false);
      var first := Step(st);
      var second := Step(Unlink(first.Next(st), S1).after);
      first.Emitted() == [Feed(D, A), Deliver(S1, A), Deliver(S2, A)] &&
      second.Emitted() == [Feed(D, B), Deliver(S2, B)]
  {
    var D, S1, S2 := Detector(0, true), Sink(1, true), Sink(2, true);
    var A, B: Frame := [1], [2];
    var st := State([A, B], [S1, S2], Some(D), false);
    DispatchBoth(D, S1, S2, A);
    assert RemoveFirst([S1, S2], S1) == [S2] by {
      assert FirstIndex([S1, S2], S1) == 0;
    }
    var st1 := Unlink(Step(st).Next(st), S1).after;
    assert st1 == State([B], [S2], Some(D), false);
    DispatchOrder(D, [S2], B);
  }
}
