/**
 * The older users slice (src/store/slices/usersSlice.js), still used by the
 * user form dialog. Same reducer pattern as the mounted slice, with a flat
 * state: the list is `users`, and `page`, `limit` and `searchQuery` sit
 * beside it. A reducer that throws leaves the state as it was.
 */
module LegacyUsersSlice {
  import opened JsValue
  import opened Records

  /** The body a fulfilled `fetchUsers` carries: `{users, data, total, page}`,
      every field possibly absent, null or undefined (None). */
  datatype LegacyUserPage = LegacyUserPage(
    users: Option<seq<Value>>, data: Option<seq<Value>>, total: Option<int>, page: Option<int>)

  datatype Snapshot = Snapshot(
    users: seq<Value>, currentUser: Value, total: int, page: int, limit: int,
    isLoading: bool, error: Value, searchQuery: string)

  /** The parameter pattern `{ page = 1, limit = 10, search = '' }` of the
      `fetchUsers` thunk, giving the query object it sends. A default replaces
      only an undefined property (null is kept), and destructuring a null or
      undefined argument throws, so the thunk rejects. */
  function FetchUsersQuery(arg: Value): (r: Completion<Value>)
    ensures r.Threw? <==> Nullish(arg)
    ensures r.Normal? ==> r.value.Obj? && Keys(r.value.props) == ["page", "limit", "search"]
    ensures r.Normal? ==>
      && OptGet(r.value, "page") == (if OptGet(arg, "page").Undefined? then Num(1) else OptGet(arg, "page"))
      && OptGet(r.value, "limit") == (if OptGet(arg, "limit").Undefined? then Num(10) else OptGet(arg, "limit"))
      && OptGet(r.value, "search") == (if OptGet(arg, "search").Undefined? then Str("") else OptGet(arg, "search"))
  {
    if Nullish(arg) then Threw
    else
      var page := OptGet(arg, "page");
      var limit := OptGet(arg, "limit");
      var search := OptGet(arg, "search");
      var query := [
        Prop("page", if page.Undefined? then Num(1) else page),
        Prop("limit", if limit.Undefined? then Num(10) else limit),
        Prop("search", if search.Undefined? then Str("") else search)];
      assert query[1..][1..] == query[2..];
      assert Lookup(query, "limit") == Lookup(query[1..], "limit") == Some(query[1].val);
      assert Lookup(query, "search") == Lookup(query[1..], "search") == Lookup(query[2..], "search")
          == Some(query[2].val);
      Normal(Obj(query))
  }

  /** With no properties given, the query is page 1, limit 10, empty search. */
  lemma FetchUsersQueryDefaults()
    ensures FetchUsersQuery(Obj([])) == Normal(Obj([Prop("page", Num(1)), Prop("limit", Num(10)), Prop("search", Str(""))]))
  {
  }

  /** `action.payload.users || action.payload.data || []` */
  function FetchedUsers(p: LegacyUserPage): seq<Value> {
    if p.users.Some? then p.users.value else if p.data.Some? then p.data.value else []
  }

  /** `action.payload.total || 0` */
  function FetchedTotal(p: LegacyUserPage): int {
    if p.total.Some? then p.total.value else 0
  }

  /** `action.payload.page || 1`: a page of 0 is falsy and becomes 1. */
  function FetchedPage(p: LegacyUserPage): (page: int)
    ensures page != 0
    ensures p.page.Some? && p.page.value != 0 ==> page == p.page.value
    ensures !(p.page.Some? && p.page.value != 0) ==> page == 1
  {
    if p.page.Some? && p.page.value != 0 then p.page.value else 1
  }

  class LegacyUsersState {
    var users: seq<Value>
    var currentUser: Value
    var total: int
    var page: int
    var limit: int
    var isLoading: bool
    var error: Value
    var searchQuery: string

    ghost function View(): Snapshot
      reads this
    {
      Snapshot(users, currentUser, total, page, limit, isLoading, error, searchQuery)
    }

    /** `initialState` */
    constructor ()
      ensures View() == Snapshot([], Null, 0, 1, 10, false, Null, "")
    {
      users, currentUser, total, page, limit := [], Null, 0, 1, 10;
      isLoading, error, searchQuery := false, Null, "";
    }

    /** `setSearchQuery` */
    method SetSearchQuery(payload: string)
      modifies this
      ensures View() == old(View()).(searchQuery := payload)
    {
      searchQuery := payload;
    }

    /** `setPage` */
    method SetPage(payload: int)
      modifies this
      ensures View() == old(View()).(page := payload)
    {
      page := payload;
    }

    /** `setLimit` */
    method SetLimit(payload: int)
      modifies this
      ensures View() == old(View()).(limit := payload)
    {
      limit := payload;
    }

    /** `clearCurrentUser` */
    method ClearCurrentUser()
      modifies this
      ensures View() == old(View()).(currentUser := Null)
    {
      currentUser := Null;
    }

    /** `clearError` */
    method ClearError()
      modifies this
      ensures View() == old(View()).(error := Null)
    {
      error := Null;
    }

    /** The `pending` case of every thunk. */
    method Pending()
      modifies this
      ensures View() == old(View()).(isLoading := true, error := Null)
    {
      isLoading := true;
      error := Null;
    }

    /** The `rejected` case of every thunk. */
    method Rejected(payload: Value)
      modifies this
      ensures View() == old(View()).(isLoading := false, error := payload)
    {
      isLoading := false;
      error := payload;
    }

    /** `fetchUsers.fulfilled`. Reading `action.payload.users` throws on a null
        or undefined payload (None). */
    method FetchUsersFulfilled(payload: Option<LegacyUserPage>) returns (threw: bool)
      modifies this
      ensures threw <==> payload.None?
      ensures threw ==> View() == old(View())
      ensures !threw ==>
        View() == old(View()).(isLoading := false, users := FetchedUsers(payload.value),
                               total := FetchedTotal(payload.value), page := FetchedPage(payload.value))
    {
      match payload
      case None =>
        threw := true;
      case Some(p) =>
        threw := false;
        isLoading := false;
        users := FetchedUsers(p);
        total := FetchedTotal(p);
        page := FetchedPage(p);
    }

    /** `fetchUserById.fulfilled` */
    method FetchUserByIdFulfilled(payload: Value)
      modifies this
      ensures View() == old(View()).(isLoading := false, currentUser := payload)
    {
      isLoading := false;
      currentUser := payload;
    }

    /** `createUser.fulfilled` */
    method CreateUserFulfilled(payload: Value)
      modifies this
      ensures View() == old(View()).(isLoading := false, users := [payload] + old(users),
                                     total := old(total) + 1)
    {
      isLoading := false;
      users := [payload] + users;
      total := total + 1;
    }

    /** `updateUser.fulfilled`: as in the mounted slice. */
    method UpdateUserFulfilled(payload: Value) returns (threw: bool)
      modifies this
      ensures threw <==> Nullish(payload) || FindIndexById(old(users), OptGet(payload, "id")).Threw?
      ensures threw ==> View() == old(View())
      ensures !threw ==>
        View() == old(View()).(
          isLoading := false,
          users := ReplaceById(old(users), payload, OptGet(payload, "id")).value,
          currentUser := if StrictEquals(OptGet(old(currentUser), "id"), OptGet(payload, "id"))
                         then payload else old(currentUser))
    {
      match Get(payload, "id")
      case Threw =>
        threw := true;
      case Normal(id) =>
        match ReplaceById(users, payload, id)
        case Threw =>
          threw := true;
        case Normal(updated) =>
          threw := false;
          isLoading := false;
          users := updated;
          if StrictEquals(OptGet(currentUser, "id"), id) {
            currentUser := payload;
          }
    }

    /** `deleteUser.fulfilled`: filter out the id, total down by one. */
    method DeleteUserFulfilled(payload: Value) returns (threw: bool)
      modifies this
      ensures threw <==> exists k :: 0 <= k < |old(users)| && Nullish(old(users)[k])
      ensures threw ==> View() == old(View())
      ensures !threw ==>
        View() == old(View()).(isLoading := false, users := FilterOutId(old(users), payload).value,
                               total := old(total) - 1)
    {
      match FilterOutId(users, payload)
      case Threw =>
        threw := true;
      case Normal(kept) =>
        threw := false;
        isLoading := false;
        users := kept;
        total := total - 1;
    }
  }

  /** `users` wins over `data` even when it is an empty array, and a page of 0
      in the response resets the page to 1. */
  method FetchScenario(d: seq<Value>) returns (users: seq<Value>, page: int)
    ensures users == [] && page == 1
  {
    var s := new LegacyUsersState();
    s.SetPage(3);
    var threw := s.FetchUsersFulfilled(Some(LegacyUserPage(Some([]), Some(d), Some(5), Some(0))));
    users, page := s.users, s.page;
  }
}
