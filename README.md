# Admin dashboard core, modelled in Dafny

This project models the state logic of a React/Redux admin dashboard and proves properties of that model. It covers four parts.

- **Users resource slices.** There are two: the mounted one in `src/pages/users/slice/usersSlice.js` and the older `src/store/slices/usersSlice.js`. Each holds a user list, a total counter, paging or filter fields, a current user, a loading flag and an error. The Immer reducers change that state in place.
- **UI feedback slice** (`src/store/slices/uiSlice.js`). It holds a sidebar flag, a notification list, one snackbar slot and one confirm-dialog slot.
- **Pure utilities:**
  - the query-string serializer and text helpers (`src/utils/helpers.js`);
  - the field and password validators (`src/utils/validators.js`);
  - API error classification and validation-error extraction (`src/utils/errorHandler.js`).
- **Session check of the JWT auth provider** (`src/auth/context/jwt/auth-provider.jsx`). It covers what `checkUserSession` stores, the derived status, and the user object the context exposes.

The JavaScript semantics the source relies on are written out in two modules:

- **`JsText`**: white space as `\s` and `trim` see it; `split` on one character; `join`; ASCII `toUpperCase`.
- **`JsValue`** has:
  - a `Value` datatype for JSON-like values, where objects are ordered property lists and functions are opaque references;
  - truthiness, `||`, `??`, `===` and `typeof … === 'object'`;
  - property reads, where `?.` yields undefined and `.` throws on null or undefined;
  - property writes and object spread;
  - `String(...)` conversion.

A `Completion` is either a normal value or `Threw`. It models the TypeErrors the source can raise by reading a property of null or undefined. Under Immer a reducer that throws leaves the state as it was. Every reducer method that can throw therefore returns `threw` and then leaves the state unchanged.

The modules follow the program:

| file | module | models |
|---|---|---|
| js_text.dfy | JsText | string built-ins |
| js_value.dfy | JsValue | values, operators, properties |
| records.dfy | Records | `findIndex`/`filter` by `id` shared by the slices |
| users_slice.dfy | UsersSlice | `src/pages/users/slice/usersSlice.js` |
| legacy_users_slice.dfy | LegacyUsersSlice | `src/store/slices/usersSlice.js` |
| ui_slice.dfy | UiSlice | `src/store/slices/uiSlice.js` |
| helpers.dfy | Helpers | `src/utils/helpers.js` |
| validators.dfy | Validators | `src/utils/validators.js` |
| error_handler.dfy | ErrorHandler | `src/utils/errorHandler.js` |
| auth_provider.dfy | AuthProvider | `src/auth/context/jwt/auth-provider.jsx` |

Each slice is a class whose fields are the slice state, and each reducer case is a method that takes the action payload. A ghost `View()` snapshot lets every method state its whole new state as "the old state with these fields changed". `toQueryParams` and `extractValidationErrors` fill an array or object in `forEach` loops. Each is a method with those loops, proved equal to a recursive specification function, and the properties are proved about that function. `validatePassword` pushes onto its error array in a fixed sequence of `if` statements, without a loop; its method does the same and is proved equal to the function `FailedRules`.

Three behaviours of the code are worth stating outright:

- **`total` is not clamped at 0.** Every successful delete decrements it, so deleting an absent id twice from the initial state gives -2 (`UsersSlice.DeleteTwiceFromInitial`).
- **There is no status enum.** The slices keep an `isLoading` flag and an `error` value, and those are modelled.
- **Ids need not be unique.** No reducer enforces uniqueness: create prepends without checking, and update replaces only the first match.

## Model

| member | source | states |
|---|---|---|
| UsersSlice.UsersState.constructor | src/pages/users/slice/usersSlice.js:67-82 | initial state: empty list, total 0, empty pagination, filters page 1, limit 10, search '', sort {}, no current user, not loading, no error |
| UsersSlice.UsersState.SetFilters | src/pages/users/slice/usersSlice.js:88-90 | filters become the old filters overridden by the payload's keys; a key absent from the payload keeps its old value, no old key is lost, keys stay distinct, and nothing outside filters changes |
| UsersSlice.UsersState.ClearCurrentUser | src/pages/users/slice/usersSlice.js:91-93 | only currentUser becomes null (so a second call changes nothing) |
| UsersSlice.UsersState.ClearError | src/pages/users/slice/usersSlice.js:94-96 | only error becomes null |
| UsersSlice.UsersState.Pending | src/pages/users/slice/usersSlice.js:101-104 | every pending case sets loading, clears the error, and leaves list, total, pagination, filters and currentUser unchanged |
| UsersSlice.UsersState.Rejected | src/pages/users/slice/usersSlice.js:111-114 | every rejected case clears loading and stores the payload as the error, nothing else changes |
| UsersSlice.UsersState.FetchUsersFulfilled | src/pages/users/slice/usersSlice.js:105-110 | the list becomes payload.list or [], total becomes pagination.totalCount or 0, pagination becomes payload.pagination or {}; none depends on the previous list |
| UsersSlice.UsersState.FetchUserByIdFulfilled | src/pages/users/slice/usersSlice.js:120-123 | currentUser becomes the payload, loading off |
| UsersSlice.UsersState.CreateUserFulfilled | src/pages/users/slice/usersSlice.js:133-137 | the list becomes [payload] + old list and total grows by exactly 1 |
| UsersSlice.UsersState.UpdateUserFulfilled | src/pages/users/slice/usersSlice.js:147-156 | throws exactly on a nullish payload or a nullish user met before the first match; otherwise the list is the old one with the first user of that id replaced (unchanged when none), and currentUser is replaced exactly when its id is === the payload's |
| UsersSlice.UsersState.DeleteUserFulfilled | src/pages/users/slice/usersSlice.js:166-170 | throws exactly when the list holds a nullish user; otherwise every user with that id is filtered out and total drops by 1 even when the id was absent |
| UsersSlice.DeleteTwiceFromInitial | src/pages/users/slice/usersSlice.js:166-170 | two successful deletes from the initial state leave total at -2 |
| UsersSlice.UpdateAbsentScenario | src/pages/users/slice/usersSlice.js:147-156 | an update with an id absent from the list leaves the list and a current user of another id unchanged |
| UsersSlice.UpdateWithoutIdScenario | src/pages/users/slice/usersSlice.js:153-155 | with no current user, a payload without id becomes the current user (undefined === undefined) |
| UsersSlice.FetchScenario | src/pages/users/slice/usersSlice.js:105-110 | a response of two users with totalCount 42 gives that list and total 42, not the list length |
| UsersSlice.CreateThenFetchScenario | src/pages/users/slice/usersSlice.js:105-137 | after a create, a fetch replaces the optimistic total with the server's count |
| Records.FindIndexById | src/pages/users/slice/usersSlice.js:149 | `findIndex` by id: -1 iff every user is readable and none matches; otherwise the first match, with none before it; throws iff a nullish user comes before any match |
| Records.FindIndexFrom | src/pages/users/slice/usersSlice.js:149 | the scan from a position on: -1 iff every later user is readable and none matches; otherwise the first match at or after it |
| Records.FindIndexThrows | src/pages/users/slice/usersSlice.js:149 | the scan throws iff a nullish user comes before any match |
| Records.FilterOutId | src/pages/users/slice/usersSlice.js:168 | `filter` by id throws iff the list holds a nullish record |
| Records.FilterOutIdKeeps | src/pages/users/slice/usersSlice.js:168 | the filtered list is an ordered subsequence holding exactly the non-matching records, its length the old one minus the number of matches |
| Records.FilterOutIdIdempotent | src/pages/users/slice/usersSlice.js:168 | filtering twice by the same id equals filtering once |
| Records.FilterOutAbsentId | src/pages/users/slice/usersSlice.js:168 | a list with no record of that id is returned unchanged |
| Records.ReplaceById | src/pages/users/slice/usersSlice.js:149-152 | length kept; with no match the list is unchanged, otherwise only the first matching index holds the new record |
| LegacyUsersSlice.FetchUsersQuery | src/store/slices/usersSlice.js:8 | the query object has keys page, limit, search; each is the argument's property or 1, 10, '' when undefined (null kept); a nullish argument throws |
| LegacyUsersSlice.FetchUsersQueryDefaults | src/store/slices/usersSlice.js:8 | an empty argument gives page 1, limit 10, search '' |
| LegacyUsersSlice.FetchedPage | src/store/slices/usersSlice.js:108 | `payload.page \|\| 1`: a present non-zero page is kept; a missing or 0 page gives 1; so the page is never 0 |
| LegacyUsersSlice.LegacyUsersState.constructor | src/store/slices/usersSlice.js:66-75 | initial state: no users, no current user, total 0, page 1, limit 10, not loading, no error, empty search |
| LegacyUsersSlice.LegacyUsersState.SetSearchQuery | src/store/slices/usersSlice.js:81-83 | only searchQuery changes |
| LegacyUsersSlice.LegacyUsersState.SetPage | src/store/slices/usersSlice.js:84-86 | only page changes |
| LegacyUsersSlice.LegacyUsersState.SetLimit | src/store/slices/usersSlice.js:87-89 | only limit changes |
| LegacyUsersSlice.LegacyUsersState.ClearCurrentUser | src/store/slices/usersSlice.js:90-92 | only currentUser becomes null |
| LegacyUsersSlice.LegacyUsersState.ClearError | src/store/slices/usersSlice.js:93-95 | only error becomes null |
| LegacyUsersSlice.LegacyUsersState.Pending | src/store/slices/usersSlice.js:100-103 | loading on, error cleared, nothing else changes |
| LegacyUsersSlice.LegacyUsersState.Rejected | src/store/slices/usersSlice.js:110-113 | loading off, payload stored as the error, nothing else changes |
| LegacyUsersSlice.LegacyUsersState.FetchUsersFulfilled | src/store/slices/usersSlice.js:104-109 | throws iff the payload is nullish; otherwise users become payload.users, else payload.data, else []; total payload.total or 0; page payload.page or 1 |
| LegacyUsersSlice.LegacyUsersState.FetchUserByIdFulfilled | src/store/slices/usersSlice.js:119-122 | currentUser becomes the payload, loading off |
| LegacyUsersSlice.LegacyUsersState.CreateUserFulfilled | src/store/slices/usersSlice.js:132-136 | the payload is prepended and total grows by 1 |
| LegacyUsersSlice.LegacyUsersState.UpdateUserFulfilled | src/store/slices/usersSlice.js:146-155 | the first user with the payload's id is replaced in place, the list is unchanged when none; currentUser refreshed only on an id match; throw cases as in the mounted slice |
| LegacyUsersSlice.LegacyUsersState.DeleteUserFulfilled | src/store/slices/usersSlice.js:165-169 | users of that id filtered out, total decremented unconditionally |
| LegacyUsersSlice.FetchScenario | src/store/slices/usersSlice.js:104-109 | an empty `users` array wins over `data`, and a page of 0 becomes 1 |
| UiSlice.SnackbarFor | src/store/slices/uiSlice.js:32-38 | throws iff the payload is nullish; otherwise open, the payload's message, and a severity that is the payload's when truthy and 'info' otherwise |
| UiSlice.ConfirmDialogFor | src/store/slices/uiSlice.js:42-52 | throws iff the payload is nullish; otherwise open with the payload's title, message and onConfirm; confirmText, cancelText and confirmColor are the payload's when truthy and 'Confirm', 'Cancel', 'error' otherwise |
| UiSlice.NewNotification | src/store/slices/uiSlice.js:57-60 | an object whose first key is id; id is the payload's own id when it has one, else the clock reading; every other key reads the payload's value |
| UiSlice.UiState.constructor | src/store/slices/uiSlice.js:3-20 | sidebar open, no notifications, closed snackbar '' / 'info', closed dialog with null onConfirm and texts 'Confirm', 'Cancel', 'error' |
| UiSlice.UiState.ToggleSidebar | src/store/slices/uiSlice.js:26-28 | only sidebarOpen is negated |
| UiSlice.UiState.SetSidebarOpen | src/store/slices/uiSlice.js:29-31 | only sidebarOpen is assigned |
| UiSlice.UiState.ShowSnackbar | src/store/slices/uiSlice.js:32-38 | the whole snackbar slot is overwritten with SnackbarFor(payload), nothing else changes; a nullish payload throws and changes nothing |
| UiSlice.UiState.HideSnackbar | src/store/slices/uiSlice.js:39-41 | only snackbar.open becomes false; message and severity stay |
| UiSlice.UiState.ShowConfirmDialog | src/store/slices/uiSlice.js:42-52 | the whole dialog slot is overwritten with ConfirmDialogFor(payload), nothing else changes; a nullish payload throws and changes nothing |
| UiSlice.UiState.HideConfirmDialog | src/store/slices/uiSlice.js:53-55 | only confirmDialog.open becomes false; every other dialog field stays |
| UiSlice.UiState.AddNotification | src/store/slices/uiSlice.js:56-61 | exactly one entry appended at the end, the existing entries unchanged, nothing else changes |
| UiSlice.UiState.RemoveNotification | src/store/slices/uiSlice.js:62-64 | the filter never throws on the list (every entry is an object) and the list becomes the entries without that id, in order |
| UiSlice.UiState.ClearNotifications | src/store/slices/uiSlice.js:65-67 | the list becomes empty, nothing else changes |
| UiSlice.ToggleAndHideTwice | src/store/slices/uiSlice.js:26-41 | toggling twice restores the sidebar; hiding the snackbar twice equals hiding it once |
| UiSlice.LastSnackbarWins | src/store/slices/uiSlice.js:32-41 | of two shown snackbars the second wins, and hiding keeps its message and severity |
| Helpers.ReadOptions | src/utils/helpers.js:158 | destructuring null throws; skipNull holds iff undefined or truthy; bracket format iff arrayFormat is undefined or 'bracket'; no options means both defaults |
| Helpers.EntryParts | src/utils/helpers.js:164-192 | one entry's parts: none for a skipped nullish value or an empty array under skipNull; for an object or null, exactly encode(key)=encode(JSON text of the value); for a primitive, exactly encode(key)=encode(String(value)); for an array, one `key=item` or `key[]=item` part per kept item |
| Helpers.QueryString | src/utils/helpers.js:157-195 | null options throw; a falsy or non-object argument gives '' |
| Helpers.ToQueryParams | src/utils/helpers.js:157-195 | the entry loop builds exactly the specification QueryString: each entry's parts pushed in entry order, joined by '&' |
| Helpers.PushEntryParts | src/utils/helpers.js:164-192 | the per-entry callback appends exactly that entry's parts, item by item for an array, to the parts so far |
| Helpers.QueryPartsPrefix | src/utils/helpers.js:164-192 | visiting one more entry extends the parts by that entry's parts |
| Helpers.QueryStringOfObject | src/utils/helpers.js:157-195 | for an object and readable options, the query string is its parts joined by '&' |
| Helpers.QueryPartsAppend | src/utils/helpers.js:164-192 | the parts of a concatenation of entries are the concatenation of their parts (entry order is output order) |
| Helpers.QueryPartsCons | src/utils/helpers.js:164-192 | the first entry's parts come first |
| Helpers.ItemPartsAppend | src/utils/helpers.js:174-180 | array item parts are emitted in item order |
| Helpers.ItemPartsAll | src/utils/helpers.js:174-180 | with no item skipped, there is one part per item, part i being the encoded key, '=' and the encoded item i |
| Helpers.ItemPartsCount | src/utils/helpers.js:174-180 | under skipNull, the number of item parts is the number of non-nullish items |
| Helpers.PrimitiveEntry | src/utils/helpers.js:190-191 | a kept primitive gives the single part encode(key) '=' encode(String(value)) |
| Helpers.ObjectEntry | src/utils/helpers.js:185-188 | an object or null value (not an array, not skipped) gives the single part encode(key) '=' encode(JSON text of the value) |
| Helpers.DocExampleParts | src/utils/helpers.js:153-155 | the documented example yields the parts name=John, age=30, tags[]=a, tags[]=b |
| Helpers.DocExample | src/utils/helpers.js:153-155 | the documented example, with an identity encoder, gives "name=John&age=30&tags[]=a&tags[]=b" |
| Helpers.NullSkippedParts | src/utils/helpers.js:166-168 | a null-valued entry contributes no part |
| Helpers.NullSkippedExample | src/utils/helpers.js:164-194 | {page:1, tags:['a','b'], x:null} gives "page=1&tags[]=a&tags[]=b" |
| Helpers.RepeatFormatParts | src/utils/helpers.js:174-180 | repeat format without skipNull emits `tags=a` and `tags=null` |
| Helpers.RepeatOptions | src/utils/helpers.js:158 | {skipNull:false, arrayFormat:'repeat'} reads as no skipping, repeat format |
| Helpers.RepeatFormatExample | src/utils/helpers.js:157-195 | {tags:['a', null]} with those options gives "tags=a&tags=null" |
| Helpers.TruncateText | src/utils/helpers.js:61-65 | '' for empty text; the text itself when it fits; otherwise the first maxLength characters (0 for a negative bound) followed by "...", of length maxLength + 3 |
| Helpers.TruncateTextIdempotent | src/utils/helpers.js:61-65 | truncating a truncated text again changes nothing, with the same bound |
| Helpers.GetInitials | src/utils/helpers.js:72-79 | at most two characters |
| Helpers.GetInitialsShape | src/utils/helpers.js:72-79 | '' for a blank name; one word gives its upper-cased first character; with a space, the upper-cased first character and the character after the last space |
| Helpers.GetInitialsSpaced | src/utils/helpers.js:72-79 | with a space in the trimmed name: two characters, the upper-cased first character and the upper-cased character after the last space |
| Helpers.IsEmpty | src/utils/helpers.js:132-137 | true iff null, undefined, an array of length 0 or an object with no keys; false for strings, numbers, booleans and functions |
| Validators.IsValidEmail | src/utils/validators.js:6-9 | true iff the text is a non-empty run without white space or '@', '@', such a run, '.', and another such run (the regular expression as an existential over the two split points) |
| Validators.EmailDecides | src/utils/validators.js:7 | splitting at the first '@' decides the regular expression |
| Validators.EmailSound | src/utils/validators.js:7 | a successful split at the first '@' matches the expression |
| Validators.EmailComplete | src/utils/validators.js:7 | every match of the expression passes the split at the first '@' |
| Validators.DigitsOnly | src/utils/validators.js:18 | `replace(/\D/g, '')` gives only digits, a subsequence of the text (order kept), holding every digit of the text; never longer than the text |
| Validators.DigitsOnlyChar | src/utils/validators.js:18 | one character: a digit is kept, anything else dropped |
| Validators.DigitsOnlyAppend | src/utils/validators.js:18 | the digits of a concatenation are the digits of each piece, in order; with DigitsOnlyChar this fixes the result for every text |
| Validators.DigitsOnlyOfDigits | src/utils/validators.js:18 | a text of digits is left unchanged |
| Validators.IsValidPhone | src/utils/validators.js:16-19 | true iff every character is a digit, white space, '-', '(' or ')' and there are at least 10 digits; a valid phone has at least 10 characters |
| Validators.TenDigitsValid | src/utils/validators.js:16-19 | any run of ten or more digits is a valid phone |
| Validators.FailedRules | src/utils/validators.js:53-71 | the messages of the failed rules form a subsequence of the rule messages in their fixed order, so each rule contributes at most one message and rule order is kept; at most n messages |
| Validators.RuleMessagesDistinct | src/utils/validators.js:53-71 | the five rule messages are pairwise distinct |
| Validators.FailedRulesListed | src/utils/validators.js:53-71 | a rule's message is listed iff that rule fails |
| Validators.ValidatePassword | src/utils/validators.js:41-85 | empty: invalid, weak, exactly ['Password is required']; otherwise errors are the failed-rule messages in order (at most 5), valid iff none, strong iff valid with length ≥ 12, medium iff valid with length 10–11, weak otherwise |
| Validators.PasswordValidity | src/utils/validators.js:53-73 | a non-empty password has no errors iff it passes all five rules |
| Validators.NineCharacterPassword | src/utils/validators.js:41-85 | "Abcdefg1!" is valid but weak |
| Validators.ValidateRequired | src/utils/validators.js:93-98 | a message `<field> is required` iff the value is null, undefined or ''; null for every truthy value |
| Validators.ValidateMinLength | src/utils/validators.js:107-112 | a message iff the value is non-empty and shorter than the minimum, whose text holds the minimum |
| Validators.ValidateMaxLength | src/utils/validators.js:121-126 | a message iff the value is non-empty and longer than the maximum, whose text holds the maximum |
| Validators.LengthBounds | src/utils/validators.js:107-126 | both checks pass iff the value is empty or its length lies within the bounds |
| ErrorHandler.StatusMessage | src/utils/errorHandler.js:15-36 | each of 400/401/403/404/409/422/429/500/503 maps to its fixed text; any other status to the text naming the status |
| ErrorHandler.ResponseMessage | src/utils/errorHandler.js:9-36 | a truthy data.message wins; otherwise the status message |
| ErrorHandler.HandleApiError | src/utils/errorHandler.js:6-46 | throws iff the error is nullish; with a response, the response message; with only a request, the network message; with neither, error.message when truthy and 'An unexpected error occurred.' otherwise |
| ErrorHandler.ResponseTakesPrecedence | src/utils/errorHandler.js:7-37 | two errors with the same present response get the same message whatever else they hold |
| ErrorHandler.IsNetworkError | src/utils/errorHandler.js:76 | throws iff the error is nullish; otherwise the result (not always a boolean) is truthy iff there is no response and there is a request |
| ErrorHandler.IsAuthError | src/utils/errorHandler.js:83 | true iff response.status is 401 |
| ErrorHandler.NetworkErrorMessage | src/utils/errorHandler.js:76 | a network error is always given the network message |
| ErrorHandler.AuthErrorMessage | src/utils/errorHandler.js:83 | an auth error without a server message is given the 401 text |
| ErrorHandler.ArrayFormErrors | src/utils/errorHandler.js:96-101 | the array form throws iff an entry is nullish |
| ErrorHandler.ArrayFormLookup | src/utils/errorHandler.js:96-101 | each field maps to the message of its last entry with a truthy field; keys are distinct |
| ErrorHandler.FirstOrSelf | src/utils/errorHandler.js:104-106 | an array gives its first element (undefined when empty), any other value itself |
| ErrorHandler.FirstOfEach | src/utils/errorHandler.js:103-107 | same keys in the same order, each value its FirstOrSelf |
| ErrorHandler.ObjectFormShape | src/utils/errorHandler.js:102-108 | the object form maps every key, in order, to its first element or its value |
| ErrorHandler.ObjectFormKeys | src/utils/errorHandler.js:102-108 | the output keys equal the input keys |
| ErrorHandler.ValidationErrors | src/utils/errorHandler.js:90-112 | throws iff the error is nullish or the array form holds a nullish entry; always an object; {} when response.data.errors is falsy |
| ErrorHandler.ExtractValidationErrors | src/utils/errorHandler.js:90-112 | the function builds exactly ValidationErrors |
| ErrorHandler.FillFromArray | src/utils/errorHandler.js:97-101 | the array `forEach` builds exactly the array form, throwing at the first nullish entry |
| ErrorHandler.FillFromObject | src/utils/errorHandler.js:103-107 | the `Object.keys` loop builds exactly the object form |
| ErrorHandler.ArrayFormPrefix | src/utils/errorHandler.js:97-101 | one more readable entry sets its field to its message when the field is truthy and changes nothing otherwise |
| ErrorHandler.ArrayFormThrows | src/utils/errorHandler.js:97-101 | a nullish entry anywhere makes the array form throw |
| AuthProvider.FetchedUser | src/auth/context/jwt/auth-provider.jsx:31 | the destructured user, {} only when it is undefined |
| AuthProvider.SessionUser | src/auth/context/jwt/auth-provider.jsx:22-45 | null without a token or after a rejected request; truthy iff a token exists and success is truthy, and then an object with accessToken true whose other keys read the fetched user's values |
| AuthProvider.StatusOf | src/auth/context/jwt/auth-provider.jsx:54-56 | loading iff loading; authenticated iff not loading and the user is truthy; unauthenticated otherwise |
| AuthProvider.ExposedUser | src/auth/context/jwt/auth-provider.jsx:60 | null iff the user is falsy; otherwise an object whose role is the stored role unless nullish, and 'admin' then, and whose every other key reads the stored user's value (the spread copy) |
| AuthProvider.Context | src/auth/context/jwt/auth-provider.jsx:58-67 | exactly one of loading, authenticated, unauthenticated holds; the user is the exposed projection |
| AuthProvider.SessionState.constructor | src/auth/context/jwt/auth-provider.jsx:20 | user null and loading, so the status is loading |
| AuthProvider.SessionState.CheckUserSession | src/auth/context/jwt/auth-provider.jsx:22-45 | on every path loading ends false and the user is SessionUser |
| AuthProvider.SessionStatus | src/auth/context/jwt/auth-provider.jsx:22-56 | after a check the status is never loading, and authenticated iff a token exists, the request resolved and success is truthy |
| AuthProvider.NoTokenIgnoresRequest | src/auth/context/jwt/auth-provider.jsx:24-40 | without a token the request outcome does not matter: the user is null |
| AuthProvider.SignedInSession | src/auth/context/jwt/auth-provider.jsx:26-34 | a successful response for a user with only a name stores a truthy user without a role |
| AuthProvider.SignedInScenario | src/auth/context/jwt/auth-provider.jsx:31-60 | a successful check of a user without a role is authenticated and exposes role 'admin' |

## Left out

- The async thunk bodies (`createAsyncThunk`, the `usersApi` calls, `rejectWithValue(...)`): they are network I/O. The reducers take the fulfilled or rejected payload as a parameter, applied in settlement order.
- Settlement races between in-flight fetches: a concurrency matter outside the reducers.
- UsersSlice.FetchUsersFulfilled: the payload is typed as an optional `{list, pagination: {totalCount}}` envelope, so a non-array truthy `list` or a non-number `totalCount` is not modelled. The stored `pagination` keeps only `totalCount`; the source stores the whole `payload.pagination` object with any other keys it has.
- LegacyUsersSlice.LegacyUsersState.FetchUsersFulfilled: the same typed envelope `{users, data, total, page}`, with `|| 0` and `|| 1` modelled on integers.
- LegacyUsersSlice.LegacyUsersState.SetSearchQuery, LegacyUsersSlice.LegacyUsersState.SetPage, LegacyUsersSlice.LegacyUsersState.SetLimit, UiSlice.UiState.SetSidebarOpen: the payload is typed as a string, an integer, an integer and a boolean. The source stores whatever `action.payload` is, and other payload types are not modelled.
- Numbers are integers: NaN, Infinity, fractions and `-0` are not modelled.
- Arrays and objects compare unequal under `===`, as separately parsed values do. Aliasing between state entries is not modelled.
- JavaScript string lengths are UTF-16 code units. The model counts one character per unit.
- Helpers.GetInitials: `toUpperCase` is modelled for ASCII letters only, and the at-most-two-characters bound rests on that: in JavaScript some characters upper-case to two (`'ß'.toUpperCase()` is "SS"), so there the result can be longer.
- `Object.entries`/`Object.keys` put integer-like keys first in JavaScript. The model keeps insertion order for every key.
- Prototype properties and `__proto__` are not modelled.
- `String(...)` of a function is written as a fixed text rather than its source code.
- Helpers.ToQueryParams: `encodeURIComponent` and `JSON.stringify` are parameters, so their own throws (a lone surrogate, a cyclic object) are not modelled.
- Non-string arguments to `truncateText`, `getInitials`, the e-mail, phone and length validators and `validatePassword` are not modelled; they take strings.
- ErrorHandler.ObjectFormShape, ErrorHandler.ObjectFormKeys: proved for objects with distinct keys, which every JavaScript object has.
- AuthProvider.SessionState.CheckUserSession: `setSession`, `sessionStorage`, the axios call and `console.error` are effects. The stored token and the request's outcome are parameters. A throw inside `setSession` is folded into the rejected outcome.
- The helpers `formatDate`, `formatCurrency`, `formatNumber`, `getRandomColor`, `debounce`, `sleep` and `deepClone`: locale, randomness, timers and a JSON round trip.
- `isValidUrl`: relies on the browser's URL parser.
- `logError` and `createError`: console output and a trivial constructor.
- Invoking the `onConfirm` callback: it happens in a component. The slice stores the callback as an opaque value.
- `Date.now()` in `addNotification`: a parameter.
- React components, hooks, and the HTTP services and endpoints: views and effects.
- The schema files: library configuration.
