/**
 * Lists of records identified by their `id` property: the `findIndex` and
 * `filter` calls the users slices and the notification list make with a
 * callback that reads `record.id`. Reading `id` of a null or undefined
 * record throws, and so does the whole call.
 */
module Records {
  import opened JsText
  import opened JsValue

  /** `record.id === id`, for a record that can be read. */
  predicate Matches(record: Value, id: Value) {
    !Nullish(record) && StrictEquals(OptGet(record, "id"), id)
  }

  /** `list.findIndex(r => r.id === id)`: the index of the first matching
      record, -1 when none matches, or a throw when the scan reaches a null or
      undefined record first. */
  function FindIndexById(list: seq<Value>, id: Value): (r: Completion<int>)
    ensures r == Normal(-1) <==> forall k :: 0 <= k < |list| ==> !Nullish(list[k]) && !Matches(list[k], id)
    ensures r.Normal? ==> -1 <= r.value < |list|
    ensures r.Normal? && r.value >= 0 ==>
              Matches(list[r.value], id)
              && forall k :: 0 <= k < r.value ==> !Nullish(list[k]) && !Matches(list[k], id)
    ensures r.Threw? <==>
              exists k :: 0 <= k < |list| && Nullish(list[k])
                          && forall j :: 0 <= j < k ==> !Matches(list[j], id)
  {
    FindIndexThrows(list, id, 0);
    FindIndexFrom(list, id, 0)
  }

  /** The scan of `findIndex` from position `from` on. */
  function FindIndexFrom(list: seq<Value>, id: Value, from: nat): (r: Completion<int>)
    requires from <= |list|
    ensures r == Normal(-1) <==> forall k :: from <= k < |list| ==> !Nullish(list[k]) && !Matches(list[k], id)
    ensures r.Normal? ==> r.value == -1 || from <= r.value < |list|
    ensures r.Normal? && r.value >= 0 ==>
              Matches(list[r.value], id)
              && forall k :: from <= k < r.value ==> !Nullish(list[k]) && !Matches(list[k], id)
    decreases |list| - from
  {
    if from == |list| then Normal(-1)
    else if Nullish(list[from]) then Threw
    else if StrictEquals(OptGet(list[from], "id"), id) then Normal(from)
    else FindIndexFrom(list, id, from + 1)
  }

  /** Position k holds a null or undefined record and no record from `from`
      up to it matches. */
  predicate NullBeforeMatch(list: seq<Value>, id: Value, from: nat, k: int) {
    from <= k < |list| && Nullish(list[k]) && forall j :: from <= j < k ==> !Matches(list[j], id)
  }

  /** The scan throws exactly when a null or undefined record comes before
      any match. */
  lemma {:induction false} FindIndexThrows(list: seq<Value>, id: Value, from: nat)
    requires from <= |list|
    ensures FindIndexFrom(list, id, from).Threw? <==> exists k :: NullBeforeMatch(list, id, from, k)
    decreases |list| - from
  {
    if from < |list| && !Nullish(list[from]) && !StrictEquals(OptGet(list[from], "id"), id) {
      FindIndexThrows(list, id, from + 1);
      assert FindIndexFrom(list, id, from) == FindIndexFrom(list, id, from + 1);
      assert !Matches(list[from], id);
      if FindIndexFrom(list, id, from).Threw? {
        var k :| NullBeforeMatch(list, id, from + 1, k);
        assert NullBeforeMatch(list, id, from, k);
      } else {
        forall k | NullBeforeMatch(list, id, from, k)
          ensures false
        {
          assert k != from;
          assert NullBeforeMatch(list, id, from + 1, k);
        }
      }
    } else if from < |list| && Nullish(list[from]) {
      assert NullBeforeMatch(list, id, from, from);
    } else if from < |list| {
      forall k | NullBeforeMatch(list, id, from, k)
        ensures false
      {
        assert k != from;
        assert Matches(list[from], id);
      }
    }
  }

  /** `list.filter(r => r.id !== id)`, or a throw when the list holds a null or
      undefined record. */
  function FilterOutId(list: seq<Value>, id: Value): (r: Completion<seq<Value>>)
    ensures r.Threw? <==> exists k :: 0 <= k < |list| && Nullish(list[k])
  {
    if list == [] then Normal([])
    else if Nullish(list[0]) then Threw
    else
      match FilterOutId(list[1..], id)
      case Threw =>
        ghost var k :| 0 <= k < |list| - 1 && Nullish(list[1..][k]);
        assert Nullish(list[k + 1]);
        Threw
      case Normal(rest) =>
        assert forall k :: 1 <= k < |list| ==> list[k] == list[1..][k - 1];
        Normal(if Matches(list[0], id) then rest else [list[0]] + rest)
  }

  /** The number of records of the list that match id. */
  function CountMatches(list: seq<Value>, id: Value): nat {
    if list == [] then 0 else (if Matches(list[0], id) then 1 else 0) + CountMatches(list[1..], id)
  }

  /** What the filter keeps: exactly the records that do not match, in their
      order, so its length drops by the number of matches. */
  lemma {:induction false} FilterOutIdKeeps(list: seq<Value>, id: Value)
    requires FilterOutId(list, id).Normal?
    ensures var kept := FilterOutId(list, id).value;
      && IsSubsequence(kept, list)
      && (forall x :: x in kept ==> x in list && !Matches(x, id))
      && (forall x :: x in list && !Matches(x, id) ==> x in kept)
      && |kept| == |list| - CountMatches(list, id)
  {
    if list != [] {
      FilterOutIdKeeps(list[1..], id);
      var rest := FilterOutId(list[1..], id).value;
      if !Matches(list[0], id) {
        assert ([list[0]] + rest)[1..] == rest;
      }
    }
  }

  /** Filtering twice by the same id removes nothing more. */
  lemma {:induction false} FilterOutIdIdempotent(list: seq<Value>, id: Value)
    requires FilterOutId(list, id).Normal?
    ensures FilterOutId(FilterOutId(list, id).value, id) == FilterOutId(list, id)
  {
    if list != [] {
      FilterOutIdIdempotent(list[1..], id);
      var rest := FilterOutId(list[1..], id).value;
      if !Matches(list[0], id) {
        assert ([list[0]] + rest)[1..] == rest;
      }
    }
  }

  /** A list without a record of that id passes the filter unchanged. */
  lemma {:induction false} FilterOutAbsentId(list: seq<Value>, id: Value)
    requires forall k :: 0 <= k < |list| ==> !Nullish(list[k]) && !Matches(list[k], id)
    ensures FilterOutId(list, id) == Normal(list)
  {
    if list != [] {
      var tail := list[1..];
      assert forall k :: 0 <= k < |tail| ==> tail[k] == list[k + 1];
      FilterOutAbsentId(tail, id);
      assert !Nullish(list[0]) && !Matches(list[0], id);
      assert [list[0]] + tail == list;
    }
  }

  /** `list[index] = record` at the index `findIndex` gave, when it found one:
      the record replaces the first match and the list is otherwise the same;
      with no match the list is unchanged. */
  function ReplaceById(list: seq<Value>, record: Value, id: Value): (r: Completion<seq<Value>>)
    ensures r.Threw? <==> FindIndexById(list, id).Threw?
    ensures r.Normal? ==> |r.value| == |list|
    ensures r.Normal? && FindIndexById(list, id) == Normal(-1) ==> r.value == list
    ensures r.Normal? && FindIndexById(list, id).value >= 0 ==>
              var i := FindIndexById(list, id).value;
              && r.value[i] == record
              && (forall k :: 0 <= k < |list| && k != i ==> r.value[k] == list[k])
              && (forall k :: 0 <= k < i ==> !Matches(list[k], id))
  {
    match FindIndexById(list, id)
    case Threw => Threw
    case Normal(i) => if i == -1 then Normal(list) else Normal(list[i := record])
  }
}
