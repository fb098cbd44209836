/**
 * The users slice mounted in the store (src/pages/users/slice/usersSlice.js).
 * Its state is an object the Immer reducers change in place; each reducer
 * case is a method here that takes the action payload. When a reducer
 * throws, Immer discards the draft, so the state is left as it was and the
 * method reports `threw`.
 */
module UsersSlice {
  import opened JsValue
  import opened Records

  /** The `pagination` object of a list response; the reducer reads only
      `totalCount` (None: absent, null or undefined). */
  datatype Pagination = Pagination(totalCount: Option<int>)

  /** The body a fulfilled `fetchUsers` carries: `{list, pagination}`, either
      field possibly absent, null or undefined. */
  datatype UserPage = UserPage(list: Option<seq<Value>>, pagination: Option<Pagination>)

  /** A copy of every field of the slice state, in the source's layout. */
  datatype Snapshot = Snapshot(
    list: seq<Value>, total: int, pagination: Pagination,
    filters: seq<Prop>, currentUser: Value, isLoading: bool, error: Value)

  /** `initialState` */
  const InitialFilters: seq<Prop> :=
    [Prop("page", Num(1)), Prop("limit", Num(10)), Prop("search", Str("")), Prop("sort", Obj([]))]

  /** `action.payload?.list || []` (an array is truthy even when empty). */
  function FetchedList(payload: Option<UserPage>): seq<Value> {
    if payload.Some? && payload.value.list.Some? then payload.value.list.value else []
  }

  /** `action.payload?.pagination?.totalCount || 0` */
  function FetchedTotal(payload: Option<UserPage>): int {
    if payload.Some? && payload.value.pagination.Some?
       && payload.value.pagination.value.totalCount.Some?
    then payload.value.pagination.value.totalCount.value
    else 0
  }

  /** `action.payload?.pagination || {}` */
  function FetchedPagination(payload: Option<UserPage>): Pagination {
    if payload.Some? && payload.value.pagination.Some? then payload.value.pagination.value
    else Pagination(None)
  }

  class UsersState {
    var list: seq<Value>
    var total: int
    var pagination: Pagination
    var filters: seq<Prop>
    var currentUser: Value
    var isLoading: bool
    var error: Value

    ghost function View(): Snapshot
      reads this
    {
      Snapshot(list, total, pagination, filters, currentUser, isLoading, error)
    }

    /** The filters object keeps distinct keys, as a JavaScript object does. */
    ghost predicate Valid()
      reads this
    {
      DistinctKeys(filters)
    }

    /** `initialState` (lines 67-82). */
    constructor ()
      ensures Valid()
      ensures View() == Snapshot([], 0, Pagination(None), InitialFilters, Null, false, Null)
    {
      list, total, pagination := [], 0, Pagination(None);
      filters := InitialFilters;
      currentUser, isLoading, error := Null, false, Null;
    }

    /** `setFilters`: `state.filters = {...state.filters, ...action.payload}`. */
    method SetFilters(payload: Value)
      requires Valid()
      modifies this
      ensures Valid()
      ensures View() == old(View()).(filters := Assign(old(filters), OwnProps(payload)))
      ensures forall k :: Lookup(filters, k)
                == if LastValue(OwnProps(payload), k).Some? then LastValue(OwnProps(payload), k)
                   else Lookup(old(filters), k)
      ensures Keys(old(filters)) <= Keys(filters)
    {
      AssignDistinct(filters, OwnProps(payload));
      AssignKeepsKeyOrder(filters, OwnProps(payload));
      forall k ensures Lookup(Assign(filters, OwnProps(payload)), k)
                == if LastValue(OwnProps(payload), k).Some? then LastValue(OwnProps(payload), k)
                   else Lookup(filters, k) {
        LookupAssign(filters, OwnProps(payload), k);
      }
      filters := Assign(filters, OwnProps(payload));
    }

    /** `clearCurrentUser` */
    method ClearCurrentUser()
      modifies this
      ensures View() == old(View()).(currentUser := Null)
    {
      currentUser := Null;
    }

    /** `clearError` */
    method ClearError()
      modifies this
      ensures View() == old(View()).(error := Null)
    {
      error := Null;
    }

    /** The `pending` case of every thunk (fetchUsers, fetchUserById,
        createUser, updateUser, deleteUser): loading on, error cleared. */
    method Pending()
      modifies this
      ensures View() == old(View()).(isLoading := true, error := Null)
    {
      isLoading := true;
      error := Null;
    }

    /** The `rejected` case of every thunk: loading off, the rejection payload
        kept as the error. */
    method Rejected(payload: Value)
      modifies this
      ensures View() == old(View()).(isLoading := false, error := payload)
    {
      isLoading := false;
      error := payload;
    }

    /** `fetchUsers.fulfilled`: the list, total and pagination are replaced by
        what the payload holds, whatever the previous list was. */
    method FetchUsersFulfilled(payload: Option<UserPage>)
      modifies this
      ensures View() == old(View()).(isLoading := false, list := FetchedList(payload),
                                     total := FetchedTotal(payload),
                                     pagination := FetchedPagination(payload))
    {
      isLoading := false;
      list := FetchedList(payload);
      total := FetchedTotal(payload);
      pagination := FetchedPagination(payload);
    }

    /** `fetchUserById.fulfilled` */
    method FetchUserByIdFulfilled(payload: Value)
      modifies this
      ensures View() == old(View()).(isLoading := false, currentUser := payload)
    {
      isLoading := false;
      currentUser := payload;
    }

    /** `createUser.fulfilled`: `unshift` the new user and count it. */
    method CreateUserFulfilled(payload: Value)
      modifies this
      ensures View() == old(View()).(isLoading := false, list := [payload] + old(list),
                                     total := old(total) + 1)
    {
      isLoading := false;
      list := [payload] + list;
      total := total + 1;
    }

    /** `updateUser.fulfilled`: the first user whose id is the payload's id is
        replaced; the current user is replaced when its id is the payload's.
        Reading `action.payload.id` throws on a null or undefined payload, and
        reading `user.id` throws on a null user met before the match. */
    method UpdateUserFulfilled(payload: Value) returns (threw: bool)
      modifies this
      ensures threw <==> Nullish(payload) || FindIndexById(old(list), OptGet(payload, "id")).Threw?
      ensures threw ==> View() == old(View())
      ensures !threw ==>
        View() == old(View()).(
          isLoading := false,
          list := ReplaceById(old(list), payload, OptGet(payload, "id")).value,
          currentUser := if StrictEquals(OptGet(old(currentUser), "id"), OptGet(payload, "id"))
                         then payload else old(currentUser))
    {
      match Get(payload, "id")
      case Threw =>
        threw := true;
      case Normal(id) =>
        match ReplaceById(list, payload, id)
        case Threw =>
          threw := true;
        case Normal(updated) =>
          threw := false;
          isLoading := false;
          list := updated;
          if StrictEquals(OptGet(currentUser, "id"), id) {
            currentUser := payload;
          }
    }

    /** `deleteUser.fulfilled`: every user with that id is filtered out and the
        total drops by one, whether or not such a user was listed. */
    method DeleteUserFulfilled(payload: Value) returns (threw: bool)
      modifies this
      ensures threw <==> exists k :: 0 <= k < |old(list)| && Nullish(old(list)[k])
      ensures threw ==> View() == old(View())
      ensures !threw ==>
        View() == old(View()).(isLoading := false, list := FilterOutId(old(list), payload).value,
                               total := old(total) - 1)
    {
      match FilterOutId(list, payload)
      case Threw =>
        threw := true;
      case Normal(kept) =>
        threw := false;
        isLoading := false;
        list := kept;
        total := total - 1;
    }
  }

  /** Deleting the same user twice: the second success finds nothing to remove
      and still lowers the total, so an initial state goes to -2. */
  method DeleteTwiceFromInitial(id: Value) returns (total: int)
    ensures total == -2
  {
    var s := new UsersState();
    var t1 := s.DeleteUserFulfilled(id);
    var t2 := s.DeleteUserFulfilled(id);
    total := s.total;
  }

  /** Updating an id absent from the list leaves the list alone and, with a
      current user of another id, the current user too. */
  method UpdateAbsentScenario() returns (unchangedList: bool, current: Value)
    ensures unchangedList && current == Obj([Prop("id", Num(1))])
  {
    var s := new UsersState();
    s.CreateUserFulfilled(Obj([Prop("id", Num(1))]));
    s.FetchUserByIdFulfilled(Obj([Prop("id", Num(1))]));
    var before := s.list;
    var threw := s.UpdateUserFulfilled(Obj([Prop("id", Num(2)), Prop("name", Str("x"))]));
    unchangedList := !threw && s.list == before;
    current := s.currentUser;
  }

  /** An update payload without an id, with no current user set: both sides of
      `state.currentUser?.id === action.payload.id` are undefined, so the
      payload becomes the current user. */
  method UpdateWithoutIdScenario() returns (current: Value)
    ensures current == Obj([Prop("name", Str("x"))])
  {
    var s := new UsersState();
    var threw := s.UpdateUserFulfilled(Obj([Prop("name", Str("x"))]));
    current := s.currentUser;
  }

  /** A list response of two users with a server count of 42: the list is the
      two users and the total 42, not the list length. */
  method FetchScenario(a: Value, b: Value) returns (list: seq<Value>, total: int)
    ensures list == [a, b] && total == 42
  {
    var s := new UsersState();
    s.Pending();
    s.FetchUsersFulfilled(Some(UserPage(Some([a, b]), Some(Pagination(Some(42))))));
    list, total := s.list, s.total;
  }

  /** A create followed by a fetch: the optimistic count is replaced by the
      server's. */
  method CreateThenFetchScenario(u: Value, serverTotal: int) returns (total: int)
    ensures total == serverTotal
  {
    var s := new UsersState();
    s.CreateUserFulfilled(u);
    s.FetchUsersFulfilled(Some(UserPage(None, Some(Pagination(Some(serverTotal))))));
    total := s.total;
  }
}
