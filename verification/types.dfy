/** Values shared by the wake-up pipeline and its collaborators.

    The pipeline's collaborators (the detector adapter, the sinks, the wake
    callback) are foreign objects that the pipeline only inspects for one
    capability before accepting them. Each is modelled as an identity plus a
    flag standing for that capability check. */
module Types {

  datatype Option<+T> = None | Some(value: T)

  /** One chunk of PCM audio; the pipeline never looks inside it. */
  type Frame = seq<bv8>

  /** A downstream consumer; `hasPut` stands for "has an attribute `put` that is callable". */
  datatype Sink = Sink(id: nat, hasPut: bool)

  /** A wake-word detector; `hasFeedData` stands for "has an attribute `feed_data` that is callable". */
  datatype Detector = Detector(id: nat, hasFeedData: bool)

  /** Any value handed to `set_callback` (including `None`); `isCallable` is Python's `callable(v)`. */
  datatype Value = Value(id: nat, isCallable: bool)

  /** The exceptions the core raises synchronously to its caller. */
  datatype Error =
    | DetectorWithoutFeedData   // ValueError from set_wakeup_detector
    | SinkWithoutPut            // ValueError from link
    | SinkNotLinked             // ValueError from list.remove inside unlink
    | CallbackNotCallable       // ValueError from set_callback

  /** A call the dispatch loop makes on a collaborator. */
  datatype Event =
    | Feed(detector: Detector, frame: Frame)   // detector.feed_data(frame)
    | Deliver(sink: Sink, frame: Frame)        // sink.put(frame)
}
