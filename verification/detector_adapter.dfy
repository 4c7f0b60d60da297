/** The SnowBoy detector adapter: a single-slot wake callback guarded by a
    `callable` check, and the forwarding of audio to the hotword engine. */
module DetectorAdapter {
  import opened Types

  /** The slot after a `set_callback` call and the exception it raised, if any. */
  datatype Registration = Registration(slot: Option<Value>, raised: Option<Error>)

  /** `set_callback(cb)`: a non-callable value raises and keeps the old slot;
      a callable one replaces whatever was there. */
  function Register(slot: Option<Value>, cb: Value): (r: Registration)
    ensures r.raised.Some? <==> !cb.isCallable
    ensures !cb.isCallable ==> r == Registration(slot, Some(CallbackNotCallable))
    ensures cb.isCallable ==> r.slot == Some(cb)
  {
    if cb.isCallable then Registration(Some(cb), None)
    else Registration(slot, Some(CallbackNotCallable))
  }

  /** The slot after `set_callback` is called with each of `cbs` in turn, a
      caller catching every rejection. */
  function RegisterAll(slot: Option<Value>, cbs: seq<Value>): (r: Option<Value>)
    decreases cbs
    ensures r == slot || (r.Some? && r.value in cbs && r.value.isCallable)
  {
    if cbs == [] then slot else RegisterAll(Register(slot, cbs[0]).slot, cbs[1..])
  }

  /** The last callable value of `cbs`, if there is one. */
  function LastCallable(cbs: seq<Value>): (r: Option<Value>)
    ensures r.Some? ==> r.value in cbs && r.value.isCallable
    ensures r.None? ==> forall v :: v in cbs ==> !v.isCallable
    ensures r.Some? ==>
      exists i :: 0 <= i < |cbs| && cbs[i] == r.value && forall j :: i < j < |cbs| ==> !cbs[j].isCallable
  {
    if cbs == [] then None
    else if cbs[|cbs| - 1].isCallable then Some(cbs[|cbs| - 1])
    else
      var init := cbs[..|cbs| - 1];
      var r := LastCallable(init);
      assert cbs == init + [cbs[|cbs| - 1]];
      assert forall i :: 0 <= i < |init| ==> cbs[i] == init[i];
      r
  }

  lemma {:induction false} RegisterAllSnoc(slot: Option<Value>, cbs: seq<Value>, cb: Value)
    decreases cbs
    ensures RegisterAll(slot, cbs + [cb]) == Register(RegisterAll(slot, cbs), cb).slot
  {
    if cbs == [] {
      assert cbs + [cb] == [cb];
    } else {
      assert (cbs + [cb])[0] == cbs[0];
      assert (cbs + [cb])[1..] == cbs[1..] + [cb];
      RegisterAllSnoc(Register(slot, cbs[0]).slot, cbs[1..], cb);
    }
  }

  /** Exactly one callback is registered at a time: after any sequence of
      `set_callback` calls the slot holds the last callable argument, or the
      previous callback when every argument was rejected. */
  lemma {:induction false} LastCallableWins(slot: Option<Value>, cbs: seq<Value>)
    decreases |cbs|
    ensures RegisterAll(slot, cbs) == if LastCallable(cbs).Some? then LastCallable(cbs) else slot
  {
    if cbs != [] {
      var init, last := cbs[..|cbs| - 1], cbs[|cbs| - 1];
      assert cbs == init + [last];
      RegisterAllSnoc(slot, init, last);
      LastCallableWins(slot, init);
    }
  }

  /** `SnowBoy(model)`: wraps a hotword engine built from the model file. */
  class SnowBoy {
    /** The model file handed to `HotwordDetector`. */
    const model: string
    /** The `calback` attribute: the wake callback handed to the engine on `start`. */
    var callback: Option<Value>
    /** Frames forwarded to the hotword engine by `feed_data`, oldest first. */
    var forwarded: seq<Frame>

    /** The slot never holds a value that failed the `callable` check. */
    predicate Valid()
      reads this
    {
      callback.Some? ==> callback.value.isCallable
    }

    constructor (model: string)
      ensures Valid()
      ensures this.model == model && callback == None && forwarded == []
    {
      this.model := model;
      callback := None;
      forwarded := [];
    }

    /** `feed_data(data)`: hands the frame to the hotword engine. */
    method FeedData(data: Frame)
      modifies this`forwarded
      ensures forwarded == old(forwarded) + [data]
    {
      forwarded := forwarded + [data];
    }

    /** `set_callback(cb)`. */
    method SetCallback(cb: Value) returns (raised: Option<Error>)
      requires Valid()
      modifies this`callback
      ensures Valid()
      ensures Registration(callback, raised) == Register(old(callback), cb)
      ensures raised.Some? <==> !cb.isCallable
    {
      if !cb.isCallable {
        raised := Some(CallbackNotCallable);
        return;
      }
      callback := Some(cb);
      raised := None;
    }
  }
}
