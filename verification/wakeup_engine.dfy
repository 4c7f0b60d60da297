/** `WakeupEngine` as a class whose methods update its attributes in place.

    Each method is proved against the matching function of `Pipeline`: the
    engine's attributes after the call are those the function computes from
    the attributes before it. The calls the dispatch loop makes on the
    detector and on the sinks are appended to `trace`. */
module Engine {
  import opened Types
  import opened Sequences
  import Pipeline

  class WakeupEngine {
    /** `self.queue`: frames put but not yet dispatched, oldest first. */
    var queue: seq<Frame>
    /** `self.sinks`: linked sinks in dispatch order, duplicates allowed. */
    var sinks: seq<Sink>
    /** `self.wakeup_detector`, `None` until `set_wakeup_detector` succeeds. */
    var wakeupDetector: Option<Detector>
    /** `self.done`. */
    var done: bool
    /** The calls made on the detector and the sinks so far, oldest first. */
    var trace: seq<Event>

    /** The attributes as a `Pipeline.State`. */
    function State(): Pipeline.State
      reads this
    {
      Pipeline.State(queue, sinks, wakeupDetector, done)
    }

    /** The detector slot only ever holds a detector with a callable `feed_data`. */
    predicate Valid()
      reads this`wakeupDetector
    {
      wakeupDetector.Some? ==> wakeupDetector.value.hasFeedData
    }

    constructor ()
      ensures Valid()
      ensures State() == Pipeline.Init() && trace == []
    {
      queue := [];
      sinks := [];
      wakeupDetector := None;
      done := false;
      trace := [];
    }

    /** `set_wakeup_detector(detector)`. */
    method SetWakeupDetector(detector: Detector) returns (raised: Option<Error>)
      requires Valid()
      modifies this`wakeupDetector
      ensures Valid()
      ensures Pipeline.Call(State(), raised) == Pipeline.SetWakeupDetector(old(State()), detector)
    {
      if detector.hasFeedData {
        wakeupDetector := Some(detector);
        raised := None;
      } else {
        raised := Some(DetectorWithoutFeedData);
      }
    }

    /** `put(data)`. */
    method Put(data: Frame)
      modifies this`queue
      ensures State() == Pipeline.Put(old(State()), data)
    {
      queue := queue + [data];
    }

    /** `start()`, without the thread it spawns (see `Run`). */
    method Start()
      modifies this`done
      ensures State() == Pipeline.Start(old(State()))
    {
      done := false;
    }

    /** `stop()`. */
    method Stop()
      modifies this`done
      ensures State() == Pipeline.Stop(old(State()))
    {
      done := true;
    }

    /** `link(sink)`. */
    method Link(sink: Sink) returns (raised: Option<Error>)
      modifies this`sinks
      ensures Pipeline.Call(State(), raised) == Pipeline.Link(old(State()), sink)
    {
      if sink.hasPut {
        sinks := sinks + [sink];
        raised := None;
      } else {
        raised := Some(SinkWithoutPut);
      }
    }

    /** `unlink(sink)`. */
    method Unlink(sink: Sink) returns (raised: Option<Error>)
      modifies this`sinks
      ensures Pipeline.Call(State(), raised) == Pipeline.Unlink(old(State()), sink)
    {
      if sink in sinks {
        sinks := RemoveFirst(sinks, sink);
        raised := None;
      } else {
        raised := Some(SinkNotLinked);
      }
    }

    /** One iteration of the dispatch thread's `while not self.done` loop. */
    method RunStep() returns (r: Pipeline.StepResult)
      modifies this`queue, this`trace
      ensures r == Pipeline.Step(old(State()))
      ensures State() == r.Next(old(State()))
      ensures trace == old(trace) + r.Emitted()
    {
      if done {
        return Pipeline.Idle;
      }
      if queue == [] {
        return Pipeline.Waiting;
      }
      var chunk := queue[0];
      queue := queue[1..];
      if wakeupDetector.None? {
        return Pipeline.Fault(State());
      }
      var detector := wakeupDetector.value;
      trace := trace + [Feed(detector, chunk)];
      ghost var fed, rest := trace, queue;
      for i := 0 to |sinks|
        invariant queue == rest
        invariant trace == fed + Pipeline.PutAll(sinks[..i], chunk)
      {
        Pipeline.PutAllAppend(sinks[..i], [sinks[i]], chunk);
        assert sinks[..i + 1] == sinks[..i] + [sinks[i]];
        trace := trace + [Deliver(sinks[i], chunk)];
      }
      assert sinks[..|sinks|] == sinks;
      r := Pipeline.Delivered(State(), Pipeline.Dispatch(detector, sinks, chunk));
    }

    /** The dispatch thread's body, run until `done` is seen, the queue is
        empty (where the real thread would block in `get`), or the missing
        detector attribute ends the thread (`crashed`). When `done` is already
        set nothing is dequeued; without a detector the first frame is lost;
        otherwise every pending frame is handed out, in queue order, each to
        the detector and then to the sinks in list order. */
    method Run() returns (crashed: bool)
      modifies this`queue, this`trace
      ensures Pipeline.Ran(old(State()), old(trace), State(), trace, crashed)
    {
      crashed := false;
      ghost var start, handed: seq<Frame> := State(), [];
      while !done
        invariant Pipeline.Progress(start, State(), handed, old(trace), trace)
        decreases |queue|
      {
        ghost var before, t1 := State(), trace;
        var r := RunStep();
        if !r.Delivered? {
          Pipeline.ProgressEnd(start, before, handed, old(trace), trace);
          return r.Fault?;
        }
        Pipeline.ProgressStep(start, before, handed, old(trace), t1);
        handed := handed + [before.queue[0]];
      }
      Pipeline.ProgressEnd(start, State(), handed, old(trace), trace);
    }
  }
}
