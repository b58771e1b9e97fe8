/** The merge reducer of `handleAgenciesUpdate` in `AgenciesView.tsx`, the
    same in the admin panel and in the React client: how a broadcast
    agencies snapshot is merged into the view's state.

    Both are objects from agency name to its message list. A snapshot
    parsed from JSON has only own properties, so the `hasOwnProperty`
    check never skips a key. */
module AgenciesView {
  import opened Wrappers
  import opened Status
  import opened JsObject

  type View = Object<seq<Message>>

  /** What reading `.messages` of `prev[agencyName]` throws when the
      agency is not in the previous state. */
  const MissingAgencyError := "TypeError: Cannot read properties of undefined (reading 'messages')"

  /** One agency of the loop: a non-empty incoming list replaces the
      entry; an empty one keeps the previous list, and throws when there is
      none. */
  function MergeOne(prev: View, acc: View, name: string, incoming: seq<Message>): (r: Result<View, string>)
    requires Keyed(acc)
    ensures r.Success? ==> Keyed(r.value)
  {
    if |incoming| > 0 then Success(Put(acc, name, incoming))
    else if name in prev.values then Success(Put(acc, name, prev.values[name]))
    else Failure(MissingAgencyError)
  }

  /** The copy of `prev` after the loop has visited `names`, in order. */
  function MergeKeys(prev: View, data: View, names: seq<string>): (r: Result<View, string>)
    requires Keyed(prev)
    requires forall n :: n in names ==> n in data.values
    ensures r.Success? ==> Keyed(r.value)
    decreases |names|
  {
    if names == [] then Success(prev)
    else
      var last := names[|names| - 1];
      match MergeKeys(prev, data, names[..|names| - 1])
      case Failure(e) => Failure(e)
      case Success(acc) => MergeOne(prev, acc, last, data.values[last])
  }

  /** The reducer: the snapshot wholesale when the view holds no agency,
      otherwise the previous state merged with every agency of the
      snapshot, in its key order. */
  function Merged(prev: View, data: View): Result<View, string>
    requires Keyed(prev) && Keyed(data)
  {
    if prev.keys == [] then Success(data) else MergeKeys(prev, data, data.keys)
  }

  /** The entry an agency of the snapshot ends with. */
  function Chosen(prev: View, data: View, name: string): seq<Message>
    requires name in data.values
    requires |data.values[name]| > 0 || name in prev.values
  {
    if |data.values[name]| > 0 then data.values[name] else prev.values[name]
  }

  /** What the loop over `names` gives: it throws exactly when one of them
      has an empty incoming list and no previous entry; otherwise each of
      them holds its incoming list when that is non-empty and its previous
      one when not, every other agency keeps its previous entry, and the
      previous agencies keep their places ahead of the new ones. */
  lemma {:induction false} MergeKeysMeaning(prev: View, data: View, names: seq<string>)
    requires Keyed(prev)
    requires forall n :: n in names ==> n in data.values
    ensures var r := MergeKeys(prev, data, names);
      (r.Failure? <==> exists n :: n in names && |data.values[n]| == 0 && n !in prev.values) &&
      (r.Success? ==>
         prev.keys <= r.value.keys &&
         (forall k :: k in r.value.values <==> k in prev.values || k in names) &&
         (forall k :: k in names ==> r.value.values[k] == Chosen(prev, data, k)) &&
         (forall k :: k in prev.values && k !in names ==> r.value.values[k] == prev.values[k]))
    decreases |names|
  {
    if names != [] {
      var init := names[..|names| - 1];
      var last := names[|names| - 1];
      MergeKeysMeaning(prev, data, init);
      assert forall n :: n in names <==> n in init || n == last;
    }
  }

  /** The reducer's two cases: an empty view takes the snapshot as it is;
      otherwise the merge keeps absent agencies unchanged, and throws
      exactly when an incoming agency with an empty list is missing from
      the previous state. */
  lemma MergedMeaning(prev: View, data: View)
    requires Keyed(prev) && Keyed(data)
    ensures prev.keys == [] ==> Merged(prev, data) == Success(data)
    ensures prev.keys != [] ==> var r := Merged(prev, data);
      (r.Failure? <==> exists n :: n in data.values && |data.values[n]| == 0 && n !in prev.values) &&
      (r.Success? ==>
         prev.keys <= r.value.keys &&
         (forall k :: k in r.value.values <==> k in prev.values || k in data.values) &&
         (forall k :: k in data.values ==> r.value.values[k] == Chosen(prev, data, k)) &&
         (forall k :: k in prev.values && k !in data.values ==> r.value.values[k] == prev.values[k]))
  {
    MergeKeysMeaning(prev, data, data.keys);
  }

  /** Once the loop throws, the rest of the keys do not matter. */
  lemma {:induction false} FailureSticks(prev: View, data: View, names: seq<string>, i: nat)
    requires Keyed(prev)
    requires forall n :: n in names ==> n in data.values
    requires i <= |names| && MergeKeys(prev, data, names[..i]).Failure?
    ensures MergeKeys(prev, data, names) == MergeKeys(prev, data, names[..i])
    decreases |names| - i
  {
    if i < |names| {
      assert names[..i + 1][..i] == names[..i];
      FailureSticks(prev, data, names, i + 1);
    } else {
      assert names[..i] == names;
    }
  }

  /** The loop over one more key merges that key into what the loop has
      built so far. */
  lemma MergeKeysStep(prev: View, data: View, names: seq<string>, i: nat, acc: View)
    requires Keyed(prev)
    requires forall n :: n in names ==> n in data.values
    requires i < |names| && MergeKeys(prev, data, names[..i]) == Success(acc)
    ensures Keyed(acc)
    ensures MergeKeys(prev, data, names[..i + 1]) == MergeOne(prev, acc, names[i], data.values[names[i]])
  {
    assert names[..i + 1][..i] == names[..i];
  }

  /** `setAgencies((prev) => …)`: the copy of `prev` filled in by the
      `for…in` loop over the snapshot's keys; the first agency that cannot
      be merged throws. */
  method Merge(prev: View, data: View) returns (r: Result<View, string>)
    requires Keyed(prev) && Keyed(data)
    ensures r == Merged(prev, data)
  {
    var updated := prev;
    if prev.keys == [] {
      return Success(data);
    }
    var names := data.keys;
    var i := 0;
    while i < |names|
      invariant i <= |names|
      invariant Keyed(updated)
      invariant MergeKeys(prev, data, names[..i]) == Success(updated)
    {
      var name := names[i];
      MergeKeysStep(prev, data, names, i, updated);
      var newMessages := data.values[name];
      if |newMessages| > 0 {
        updated := Put(updated, name, newMessages);
      } else if name in prev.values {
        updated := Put(updated, name, prev.values[name]);
      } else {
        FailureSticks(prev, data, names, i + 1);
        return Failure(MissingAgencyError);
      }
      i := i + 1;
    }
    assert names[..i] == names;
    r := Success(updated);
  }
}
