/**
 * The API error helpers of src/utils/errorHandler.js. The error is the
 * value axios rejects with: `response` (with `status` and `data`) when the
 * server answered, `request` when a request went out, and `message`. Each
 * helper reads `error.response` first, so a null or undefined error throws.
 */
module ErrorHandler {
  import opened JsText
  import opened JsValue

  // ---------------------------------------------------------------- handleApiError

  const NetworkMessage := "Network error. Please check your connection."
  const FallbackMessage := "An unexpected error occurred."

  /** The statuses the `switch` names, with their fixed messages. */
  const StatusMessages: map<int, string> := map[
    400 := "Invalid request. Please check your input.",
    401 := "You are not authorized. Please login again.",
    403 := "You do not have permission to perform this action.",
    404 := "The requested resource was not found.",
    409 := "This resource already exists.",
    422 := "Validation failed. Please check your input.",
    429 := "Too many requests. Please try again later.",
    500 := "Server error. Please try again later.",
    503 := "Service unavailable. Please try again later."]

  /** The `switch (status)` of `handleApiError`; its cases compare with `===`,
      so only a number matches, and every other status is quoted in the
      default message. */
  function StatusMessage(status: Value): (m: string)
    ensures status.Num? && status.n in StatusMessages ==> m == StatusMessages[status.n]
    ensures !(status.Num? && status.n in StatusMessages) ==>
      m == "An error occurred (" + ToJsString(status) + "). Please try again."
  {
    if StrictEquals(status, Num(400)) then "Invalid request. Please check your input."
    else if StrictEquals(status, Num(401)) then "You are not authorized. Please login again."
    else if StrictEquals(status, Num(403)) then "You do not have permission to perform this action."
    else if StrictEquals(status, Num(404)) then "The requested resource was not found."
    else if StrictEquals(status, Num(409)) then "This resource already exists."
    else if StrictEquals(status, Num(422)) then "Validation failed. Please check your input."
    else if StrictEquals(status, Num(429)) then "Too many requests. Please try again later."
    else if StrictEquals(status, Num(500)) then "Server error. Please try again later."
    else if StrictEquals(status, Num(503)) then "Service unavailable. Please try again later."
    else "An error occurred (" + ToJsString(status) + "). Please try again."
  }

  /** The message for a server response: its `data.message` when truthy,
      whatever the status, otherwise the status message. */
  function ResponseMessage(response: Value): (m: Value)
    ensures Truthy(OptGet(OptGet(response, "data"), "message")) ==> m == OptGet(OptGet(response, "data"), "message")
    ensures !Truthy(OptGet(OptGet(response, "data"), "message")) ==> m == Str(StatusMessage(OptGet(response, "status")))
  {
    var message := OptGet(OptGet(response, "data"), "message");
    if Truthy(message) then message else Str(StatusMessage(OptGet(response, "status")))
  }

  /** `handleApiError(error)`: a response takes precedence, then a request
      without response is a network error, then the error's own message or
      the fallback. */
  function HandleApiError(error: Value): (r: Completion<Value>)
    ensures r.Threw? <==> Nullish(error)
    ensures r.Normal? && Truthy(OptGet(error, "response")) ==> r.value == ResponseMessage(OptGet(error, "response"))
    ensures r.Normal? && !Truthy(OptGet(error, "response")) && Truthy(OptGet(error, "request")) ==>
      r.value == Str(NetworkMessage)
    ensures r.Normal? && !Truthy(OptGet(error, "response")) && !Truthy(OptGet(error, "request")) ==>
      && Truthy(r.value)
      && (Truthy(OptGet(error, "message")) ==> r.value == OptGet(error, "message"))
      && (!Truthy(OptGet(error, "message")) ==> r.value == Str(FallbackMessage))
  {
    if Nullish(error) then Threw
    else if Truthy(OptGet(error, "response")) then Normal(ResponseMessage(OptGet(error, "response")))
    else if Truthy(OptGet(error, "request")) then Normal(Str(NetworkMessage))
    else Normal(Or(OptGet(error, "message"), Str(FallbackMessage)))
  }

  /** Two errors with the same truthy response get the same message, whatever
      their request and message. */
  lemma ResponseTakesPrecedence(e1: Value, e2: Value)
    requires !Nullish(e1) && !Nullish(e2)
    requires OptGet(e1, "response") == OptGet(e2, "response") && Truthy(OptGet(e1, "response"))
    ensures HandleApiError(e1) == HandleApiError(e2)
  {
  }

  // ---------------------------------------------------------------- classification

  /** `isNetworkError(error)`: `!error.response && error.request`, which is
      `false` or the request itself rather than a boolean. */
  function IsNetworkError(error: Value): (r: Completion<Value>)
    ensures r.Threw? <==> Nullish(error)
    ensures r.Normal? ==>
      (Truthy(r.value) <==> !Truthy(OptGet(error, "response")) && Truthy(OptGet(error, "request")))
  {
    if Nullish(error) then Threw
    else if Truthy(OptGet(error, "response")) then Normal(Bool(false))
    else Normal(OptGet(error, "request"))
  }

  /** `isAuthError(error)`: `error.response?.status === 401`. */
  function IsAuthError(error: Value): (r: Completion<bool>)
    ensures r.Threw? <==> Nullish(error)
    ensures r.Normal? ==> (r.value <==> OptGet(OptGet(error, "response"), "status") == Num(401))
  {
    if Nullish(error) then Threw
    else Normal(StrictEquals(OptGet(OptGet(error, "response"), "status"), Num(401)))
  }

  /** A network error is reported with the network message. */
  lemma NetworkErrorMessage(error: Value)
    requires IsNetworkError(error).Normal? && Truthy(IsNetworkError(error).value)
    ensures HandleApiError(error) == Normal(Str(NetworkMessage))
  {
  }

  /** An auth error whose body has no message is reported as "not
      authorized", as long as the response itself is there. */
  lemma AuthErrorMessage(error: Value)
    requires IsAuthError(error) == Normal(true)
    requires !Truthy(OptGet(OptGet(OptGet(error, "response"), "data"), "message"))
    ensures HandleApiError(error) == Normal(Str(StatusMessages[401]))
  {
    var response := OptGet(error, "response");
    assert OptGet(response, "status") == Num(401);
  }

  // ---------------------------------------------------------------- extractValidationErrors

  /** `error.response?.data?.errors` */
  function ApiErrors(error: Value): Value {
    OptGet(OptGet(OptGet(error, "response"), "data"), "errors")
  }

  /** The array form: `errors[err.field] = err.message` for each entry whose
      `field` is truthy, in order; reading `field` of a null or undefined
      entry throws. */
  function ArrayFormErrors(items: seq<Value>): (r: Completion<seq<Prop>>)
    ensures r.Threw? <==> exists k :: 0 <= k < |items| && Nullish(items[k])
    decreases |items|
  {
    if items == [] then Normal([])
    else
      var init := items[..|items| - 1];
      var err := items[|items| - 1];
      match ArrayFormErrors(init)
      case Threw =>
        ghost var k :| 0 <= k < |init| && Nullish(init[k]);
        assert Nullish(items[k]);
        Threw
      case Normal(acc) =>
        assert forall k :: 0 <= k < |init| ==> init[k] == items[k];
        if Nullish(err) then Threw
        else if Truthy(OptGet(err, "field")) then
          Normal(SetProp(acc, ToJsString(OptGet(err, "field")), OptGet(err, "message")))
        else Normal(acc)
  }

  /** The message of the last entry whose field names k: a reference scan
      from the end of the array. */
  function LastFieldMessage(items: seq<Value>, k: string): Option<Value>
    decreases |items|
  {
    if items == [] then None
    else
      var err := items[|items| - 1];
      if !Nullish(err) && Truthy(OptGet(err, "field")) && ToJsString(OptGet(err, "field")) == k
      then Some(OptGet(err, "message"))
      else LastFieldMessage(items[..|items| - 1], k)
  }

  /** In the array form a later entry with the same field overwrites an
      earlier one, and only entries with a field contribute a key. */
  lemma {:induction false} ArrayFormLookup(items: seq<Value>, k: string)
    requires ArrayFormErrors(items).Normal?
    ensures Lookup(ArrayFormErrors(items).value, k) == LastFieldMessage(items, k)
    ensures DistinctKeys(ArrayFormErrors(items).value)
    decreases |items|
  {
    if items != [] {
      var init := items[..|items| - 1];
      var err := items[|items| - 1];
      ArrayFormLookup(init, k);
      var acc := ArrayFormErrors(init).value;
      if Truthy(OptGet(err, "field")) {
        LookupSetProp(acc, ToJsString(OptGet(err, "field")), OptGet(err, "message"), k);
        SetPropDistinct(acc, ToJsString(OptGet(err, "field")), OptGet(err, "message"));
      }
    }
  }

  /** `Array.isArray(v) ? v[0] : v`; the first element of an empty array is
      undefined. */
  function FirstOrSelf(v: Value): (r: Value)
    ensures v.Arr? && v.items != [] ==> r == v.items[0]
    ensures v.Arr? && v.items == [] ==> r == Undefined
    ensures !v.Arr? ==> r == v
  {
    match v
    case Arr(items) => if items == [] then Undefined else items[0]
    case _ => v
  }

  /** The object form: `errors[key]` set for each key in order. */
  function ObjectFormErrors(props: seq<Prop>): seq<Prop>
    decreases |props|
  {
    if props == [] then []
    else
      var last := props[|props| - 1];
      SetProp(ObjectFormErrors(props[..|props| - 1]), last.key, FirstOrSelf(last.val))
  }

  /** Each property with its value passed through FirstOrSelf. */
  function FirstOfEach(props: seq<Prop>): (r: seq<Prop>)
    ensures |r| == |props|
    ensures forall i :: 0 <= i < |props| ==> r[i] == Prop(props[i].key, FirstOrSelf(props[i].val))
  {
    seq(|props|, i requires 0 <= i < |props| => Prop(props[i].key, FirstOrSelf(props[i].val)))
  }

  /** In the object form the output has the input's keys, in their order, each
      mapped to the first element of an array value or to the value itself. */
  lemma {:induction false} ObjectFormShape(props: seq<Prop>)
    requires DistinctKeys(props)
    ensures ObjectFormErrors(props) == FirstOfEach(props)
    decreases |props|
  {
    if props != [] {
      var n := |props|;
      var init := props[..n - 1];
      var last := props[n - 1];
      assert DistinctKeys(init) by {
        forall i, j | 0 <= i < j < |init| ensures init[i].key != init[j].key {
          assert init[i] == props[i] && init[j] == props[j];
        }
      }
      ObjectFormShape(init);
      var mapped := FirstOfEach(init);
      var added := Prop(last.key, FirstOrSelf(last.val));
      forall i | 0 <= i < |mapped| ensures mapped[i].key != last.key {
        assert mapped[i].key == init[i].key == props[i].key;
      }
      AppendNewKey(mapped, last.key, FirstOrSelf(last.val));
      assert ObjectFormErrors(props) == SetProp(mapped, last.key, FirstOrSelf(last.val));
      FirstOfEachSnoc(props);
    }
  }

  /** FirstOfEach maps the last property after the others. */
  lemma FirstOfEachSnoc(props: seq<Prop>)
    requires props != []
    ensures FirstOfEach(props)
         == FirstOfEach(props[..|props| - 1]) + [Prop(props[|props| - 1].key, FirstOrSelf(props[|props| - 1].val))]
  {
    var whole := FirstOfEach(props);
    var parts := FirstOfEach(props[..|props| - 1]) + [Prop(props[|props| - 1].key, FirstOrSelf(props[|props| - 1].val))];
    assert |whole| == |parts|;
    forall i | 0 <= i < |whole| ensures whole[i] == parts[i] {
      if i < |props| - 1 {
        assert props[..|props| - 1][i] == props[i];
      }
    }
  }

  /** Hence the output keys are the input keys. */
  lemma ObjectFormKeys(props: seq<Prop>)
    requires DistinctKeys(props)
    ensures Keys(ObjectFormErrors(props)) == Keys(props)
  {
    ObjectFormShape(props);
  }

  /** What `extractValidationErrors(error)` returns: `{}` unless
      `response.data.errors` is truthy; the array form or the object form
      otherwise; `{}` for any other truthy value. */
  function ValidationErrors(error: Value): (r: Completion<Value>)
    ensures r.Threw? <==> Nullish(error) || (ApiErrors(error).Arr? && exists k :: 0 <= k < |ApiErrors(error).items| && Nullish(ApiErrors(error).items[k]))
    ensures r.Normal? ==> r.value.Obj?
    ensures r.Normal? && !Truthy(ApiErrors(error)) ==> r.value == Obj([])
  {
    if Nullish(error) then Threw
    else
      var apiErrors := ApiErrors(error);
      if !Truthy(apiErrors) then Normal(Obj([]))
      else
        match apiErrors
        case Arr(items) =>
          (match ArrayFormErrors(items)
           case Threw => Threw
           case Normal(errors) => Normal(Obj(errors)))
        case Obj(props) => Normal(Obj(ObjectFormErrors(props)))
        case _ => Normal(Obj([]))
  }

  /** `extractValidationErrors`: the entries of the array, or the keys of the
      object, are visited in order and each one assigns a property of the
      fresh `errors` object. */
  method ExtractValidationErrors(error: Value) returns (r: Completion<Value>)
    ensures r == ValidationErrors(error)
  {
    if Nullish(error) {
      return Threw;
    }
    var errors: seq<Prop> := [];
    var apiErrors := ApiErrors(error);
    if Truthy(apiErrors) {
      match apiErrors {
        case Arr(items) =>
          var filled := FillFromArray(items);
          if filled.Threw? {
            return Threw;
          }
          errors := filled.value;
        case Obj(props) =>
          errors := FillFromObject(props);
        case _ =>
      }
    }
    return Normal(Obj(errors));
  }

  /** `apiErrors.forEach(...)` over the array form. */
  method FillFromArray(items: seq<Value>) returns (r: Completion<seq<Prop>>)
    ensures r == ArrayFormErrors(items)
  {
    var errors: seq<Prop> := [];
    var i := 0;
    while i < |items|
      invariant 0 <= i <= |items|
      invariant ArrayFormErrors(items[..i]) == Normal(errors)
    {
      var err := items[i];
      ArrayFormPrefix(items, i);
      if Nullish(err) {
        ArrayFormThrows(items, i);
        return Threw;
      }
      if Truthy(OptGet(err, "field")) {
        errors := SetProp(errors, ToJsString(OptGet(err, "field")), OptGet(err, "message"));
      }
      i := i + 1;
    }
    assert items[..i] == items;
    return Normal(errors);
  }

  /** `Object.keys(apiErrors).forEach(...)` over the object form. */
  method FillFromObject(props: seq<Prop>) returns (errors: seq<Prop>)
    ensures errors == ObjectFormErrors(props)
  {
    errors := [];
    var i := 0;
    while i < |props|
      invariant 0 <= i <= |props|
      invariant ObjectFormErrors(props[..i]) == errors
    {
      assert props[..i + 1][..i] == props[..i];
      errors := SetProp(errors, props[i].key, FirstOrSelf(props[i].val));
      i := i + 1;
    }
    assert props[..i] == props;
  }

  /** One more readable entry extends the array form by that entry alone. */
  lemma ArrayFormPrefix(items: seq<Value>, i: int)
    requires 0 <= i < |items| && ArrayFormErrors(items[..i]).Normal?
    ensures !Nullish(items[i]) ==>
      ArrayFormErrors(items[..i + 1])
      == if Truthy(OptGet(items[i], "field"))
         then Normal(SetProp(ArrayFormErrors(items[..i]).value, ToJsString(OptGet(items[i], "field")), OptGet(items[i], "message")))
         else ArrayFormErrors(items[..i])
  {
    assert items[..i + 1][..i] == items[..i];
  }

  /** A nullish entry makes the whole array form throw. */
  lemma ArrayFormThrows(items: seq<Value>, i: int)
    requires 0 <= i < |items| && Nullish(items[i])
    ensures ArrayFormErrors(items).Threw?
  {
  }

}
