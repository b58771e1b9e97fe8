/** Callback lists of the browser code (the React client socket's listeners
    and the admin panel's event emitter). A callback is an id: a call is
    recorded, in order, with the callback and the data it received. */
module Callbacks {
  import Hub

  type Callback = nat

  datatype Invocation = Invocation(callback: Callback, data: Hub.Data)

  /** `callbacks.forEach((callback) => callback(data))`: every callback of
      the list once, in list order, with the same data. */
  function CallAll(cbs: seq<Callback>, data: Hub.Data): (r: seq<Invocation>)
    ensures |r| == |cbs|
    ensures forall i :: 0 <= i < |cbs| ==> r[i] == Invocation(cbs[i], data)
    decreases |cbs|
  {
    if cbs == [] then [] else CallAll(cbs[..|cbs| - 1], data) + [Invocation(cbs[|cbs| - 1], data)]
  }

  /** `callbacks.filter((cb) => cb !== callback)` */
  function Without(cbs: seq<Callback>, cb: Callback): (r: seq<Callback>)
    ensures forall x :: x in r <==> x in cbs && x != cb
    ensures |r| <= |cbs|
    decreases |cbs|
  {
    if cbs == [] then []
    else Without(cbs[..|cbs| - 1], cb) + (if cbs[|cbs| - 1] == cb then [] else [cbs[|cbs| - 1]])
  }

  /** The filter keeps the other callbacks in their order: filtering a
      concatenation filters each part. */
  lemma {:induction false} WithoutAppend(a: seq<Callback>, b: seq<Callback>, cb: Callback)
    ensures Without(a + b, cb) == Without(a, cb) + Without(b, cb)
    decreases |b|
  {
    if b != [] {
      var b0 := b[..|b| - 1];
      assert (a + b)[..|a + b| - 1] == a + b0;
      assert (a + b)[|a + b| - 1] == b[|b| - 1];
      WithoutAppend(a, b0, cb);
      var tail := if b[|b| - 1] == cb then [] else [b[|b| - 1]];
      assert Without(a, cb) + (Without(b0, cb) + tail) == (Without(a, cb) + Without(b0, cb)) + tail;
    } else {
      assert a + b == a;
    }
  }

  /** Filtering leaves a list without the callback unchanged. */
  lemma {:induction false} WithoutAbsent(cbs: seq<Callback>, cb: Callback)
    requires cb !in cbs
    ensures Without(cbs, cb) == cbs
    decreases |cbs|
  {
    if cbs != [] {
      WithoutAbsent(cbs[..|cbs| - 1], cb);
      assert cbs[..|cbs| - 1] + [cbs[|cbs| - 1]] == cbs;
    }
  }
}
