# PulseFit front-end core, modelled in Dafny

PulseFit is a React front-end for booking fitness classes. This project models
its logic layer:

- the shared HTTP client (`src/redux/axiosConfig.js`): a request hook that
  attaches the stored access token, and a response hook that answers a 401 by
  calling the refresh endpoint once and replaying the request;
- the auth slice (`src/redux/authSlice.js`): the state derived from storage at
  start-up, the login and register thunks, the logout action and the
  pending/fulfilled/rejected reducers;
- the validators, change handlers and submit guards of the registration form
  (`src/Pages/Register.jsx`, with an identical copy in
  `src/components/Register.jsx`), the login form (`src/Pages/Login.jsx`), the
  class create/edit form (`src/components/classFrom.jsx`) and the booking form
  (`src/components/BookingForm.jsx`);
- the class list as the home page (`src/Pages/Home.jsx`) and the class-card
  page (`src/components/ClassCard.jsx`) show it: the availability badge, the
  colour, icon and difficulty tables, the summary figures and the book button.

Modules, one per file:

- `Js` (`js.dfy`): the JavaScript behaviour the code relies on: truthiness,
  `trim` and its whitespace set, UTF-16 `length`, `join`, `filter`, and
  table lookup with `||` fallback.
- `WebStorage` (`web_storage.dfy`): `localStorage` as a class over a map, with
  the application's keys.
- `ServerError` (`server_error.dfy`): the JSON body of a failed response, and
  how handlers read `error` from it and flatten it.
- `Forms` (`forms.dfy`): the error maps every form keeps, and the
  blocked-or-sent outcome of a submit.
- `AxiosConfig`, `AuthSlice`, `RegisterForm`, `LoginForm`, `ClassForm`,
  `BookingForm`, `ClassList`: one per core source file, as listed above.

State that the source changes in place is modelled with classes:
`WebStorage.LocalStorage`, `AuthSlice.AuthStore` (the reducer's state) and
`AxiosConfig.SessionClient`. Each class's methods are proved against a pure
function of the old state (`AfterSend`/`AfterError`, `InitialState`,
`LoginThunk`), and the properties are proved about those functions.
Validators are methods that build the error map step by step, as the source
does. Each is proved to record, for every field, exactly the message of that
field's check function. Every check function states when it fails and with
which message.

The code is modelled as written where it is surprising:

- `login.fulfilled` sets `state.token` from `payload.token`, but stores
  `payload.access` in storage.
- The register thunk posts only username, email and password, so the form's
  phone number and role never reach the server.
- The login form's password is not trimmed.
- The class form's required inputs are not trimmed.
- A booking error whose `non_field_errors` is a single string makes `join`
  throw, so no message is shown.
- A truthy `error` that is an array is passed on as the array: it becomes the
  auth state's error, and the forms draw its items with nothing between them.

## Model

| member | source | states |
|---|---|---|
| Js.BlankIffAllWhitespace | src/Pages/Register.jsx:27 | `!s.trim()` holds exactly when every character of `s` is JavaScript whitespace |
| Js.TrimmedHasVisibleEnds | src/Pages/Register.jsx:27 | trimming never lengthens a string, and a non-empty trimmed string starts and ends with a visible character |
| Js.TrimStartDropsWhitespacePrefix | src/Pages/Register.jsx:27 | trimming the start drops exactly a whitespace prefix and stops at the first visible character |
| Js.TrimEndDropsWhitespaceSuffix | src/Pages/Register.jsx:27 | trimming the end drops exactly a whitespace suffix and stops at the last visible character |
| Js.Utf16Length | src/Pages/Register.jsx:33 | `length` counts UTF-16 code units: at least one and at most two per character |
| Js.JoinEmptyIff | src/components/classFrom.jsx:96-100 | with the ", " separator, `join` gives "" exactly for no elements or one empty element, which is when the `\|\|` fallback applies |
| Js.JoinContains | src/components/classFrom.jsx:99 | every element of a joined array appears in the joined text at a position the lemma returns |
| Js.Filter | src/components/BookingForm.jsx:32 | `filter` keeps exactly the elements that pass, and nothing else |
| Js.FilterAppend | src/components/BookingForm.jsx:32 | `filter` keeps order: filtering a concatenation concatenates the filtered parts |
| Js.FilterAllPass | src/components/BookingForm.jsx:32 | filtering gives the list back unchanged exactly when every element passes |
| Js.LookupOr | src/components/ClassCard.jsx:72-79 | `table[key] \|\| fallback`: the table's entry when the key is in it with a non-empty value, the fallback otherwise |
| WebStorage.Get | src/redux/authSlice.js:6 | `getItem` gives the stored value exactly when the key is present, and null otherwise |
| WebStorage.AccessToken | src/redux/axiosConfig.js:16-17 | the token the request hook uses exists exactly when a non-empty access token is stored |
| WebStorage.LocalStorage.GetItem | src/redux/axiosConfig.js:16 | reading storage agrees with `Get` on the current contents |
| WebStorage.LocalStorage.SetItem | src/redux/authSlice.js:76-79 | `setItem` overwrites one key and leaves every other key as it was |
| WebStorage.LocalStorage.RemoveItem | src/redux/authSlice.js:56-58 | `removeItem` drops one key and leaves every other key as it was |
| ServerError.Field | src/redux/authSlice.js:27 | `data.key` is present exactly when an entry has the key, and its value is that of an entry with the key |
| ServerError.ErrorField | src/redux/authSlice.js:27 | `response?.data?.error` is used exactly when the body exists and its `error` is truthy, and then it is that value as it came, a string or an array of strings |
| ServerError.ErrorOr | src/redux/authSlice.js:27 | `error \|\| fallback`: the server's truthy `error` value unchanged, and otherwise the fallback string |
| ServerError.FlatValuesContains | src/components/classFrom.jsx:97-98 | every message of every property of the body survives `Object.values(...).flat()` |
| Forms.Record | src/Pages/Login.jsx:25-26 | a failed check puts its message under its own field only; a passing check leaves the map as it was |
| Forms.EmptyIffNoMessages | src/Pages/Login.jsx:39 | `Object.keys(errors).length > 0` holds exactly when some field has a message |
| Forms.ClearError | src/Pages/Login.jsx:33 | `{ ...errors, [name]: "" }` blanks the changed field's entry and keeps every other entry |
| Forms.Required | src/components/classFrom.jsx:59-66 | `if (!value)` fails exactly on the empty string, so untrimmed spaces pass; also the login password, the registration role and the booking class (Login.jsx:26, Register.jsx:31, BookingForm.jsx:60) |
| Forms.NotBlank | src/Pages/Login.jsx:25 | `if (!value.trim())` fails exactly when every character is whitespace; also the registration username and phone number (Register.jsx:27, 30) |
| Forms.AtLeastOne | src/components/classFrom.jsx:63-64 | `if (!n \|\| n < 1)` fails exactly when the number is missing or below 1; also the booking's slot count (BookingForm.jsx:61) |
| AxiosConfig.Issue | src/redux/axiosConfig.js:6-12 | a request from the shared instance carries the JSON content type and is not yet marked as retried |
| AxiosConfig.Decorated | src/redux/axiosConfig.js:14-21 | with a non-empty token stored, `Authorization` becomes `Bearer <token>` and all other headers stay; without one the request is untouched |
| AxiosConfig.Replay | src/redux/axiosConfig.js:37-49 | the replayed request is marked as retried, carries `Bearer <new token>`, and keeps its method, its URL and every other header unchanged |
| AxiosConfig.ReplayDecoratedUnchanged | src/redux/axiosConfig.js:16-19 | the request hook leaves a replayed request as it is, since it already carries the stored token |
| AxiosConfig.AfterSend | src/redux/axiosConfig.js:14-62 | a request through both hooks resolves only with a 2xx reply, only ever navigates to /login, and appends at most one refresh call to the log, none for a marked request |
| AxiosConfig.AfterError | src/redux/axiosConfig.js:30-61 | the error hook resolves only with a 2xx reply to the replay, only ever navigates to /login, and appends at most one refresh call, none for a marked request |
| AxiosConfig.SuccessPassesThrough | src/redux/axiosConfig.js:29 | a 2xx reply resolves unchanged, with no change to storage or location and no refresh |
| AxiosConfig.OtherFailuresRejectedAsIs | src/redux/axiosConfig.js:36-60 | a failure other than a 401, or a 401 on a request already marked, is rejected with its own error and changes nothing |
| AxiosConfig.MarkedRequestNeverRefreshes | src/redux/axiosConfig.js:37-38 | a request already marked never calls the refresh endpoint and never changes storage |
| AxiosConfig.RefreshOnlyOnUnauthorized | src/redux/axiosConfig.js:37-50 | an unmarked request answered with 401 makes exactly one refresh call, carrying the stored refresh token, after marking; every other request, the replay included, makes none |
| AxiosConfig.RefreshSuccessReplaysOnce | src/redux/axiosConfig.js:40-50 | after a 401 and a successful refresh, exactly one refresh call with the stored refresh token is logged, only the access token changes in storage, and the outcome is the replay's own outcome |
| AxiosConfig.RefreshFailureEndsSession | src/redux/axiosConfig.js:51-57 | after a 401 and a failed refresh, exactly one refresh call is logged, the three session keys are removed, the page goes to /login, the refresh error is the rejection, and later requests carry no token |
| AxiosConfig.SessionClient.constructor | src/redux/axiosConfig.js:6-12 | the client shares the given storage, has not navigated and has made no refresh call |
| AxiosConfig.SessionClient.Send | src/redux/axiosConfig.js:14-62 | sending changes storage, location and the refresh log exactly as `AfterSend` says, with at most one refresh per unmarked request |
| AxiosConfig.SessionClient.OnResponseError | src/redux/axiosConfig.js:28-62 | the error hook's effect on storage, location and the refresh log, and its outcome, are those of `AfterError` |
| AuthSlice.LoginThunk | src/redux/authSlice.js:20-30 | the login thunk is fulfilled with the response data exactly when the call succeeds, and otherwise rejected with the server's truthy `error` value or "Failed to login" |
| AuthSlice.RegisterRequestBody | src/redux/authSlice.js:34-40 | the register thunk posts the argument's username, email and password |
| AuthSlice.RegisterBodyIgnoresProfile | src/redux/authSlice.js:34-40 | the posted body is the same whatever profile the argument carries |
| AuthSlice.RegisterThunk | src/redux/authSlice.js:32-46 | the register thunk is fulfilled with the response data exactly when the call succeeds, and otherwise rejected with the server's truthy `error` value or "Failed to register" |
| AuthSlice.StoredUser | src/redux/authSlice.js:5-13 | the initial user is the parsed stored user, or null when none is stored, the stored text is empty, or parsing throws |
| AuthSlice.InitialState | src/redux/authSlice.js:4-18 | at start-up the session is authenticated exactly when a non-empty access token is stored, the token is that value, and nothing is loading or in error |
| AuthSlice.AuthStore.constructor | src/redux/authSlice.js:4-18 | the store starts in `InitialState` of storage, so its flag agrees with storage |
| AuthSlice.AuthStore.Logout | src/redux/authSlice.js:52-60 | logout clears user, token and the flag, removes the three session keys, stores "false" for the flag, and leaves the flag agreeing with storage |
| AuthSlice.AuthStore.Pending | src/redux/authSlice.js:65-68 | pending sets loading, drops the error and changes nothing else |
| AuthSlice.AuthStore.LoginFulfilled | src/redux/authSlice.js:69-80 | fulfilled login takes user and token from the payload, marks the session, and writes the four storage keys; the flag agrees with storage unless the access token is "" |
| AuthSlice.AuthStore.Reject | src/redux/authSlice.js:81-84 | a rejection ends loading, records the rejection value (a string or the server's array) as the error, and changes nothing else |
| AuthSlice.AuthStore.RegisterFulfilled | src/redux/authSlice.js:89-91 | fulfilled registration only ends loading; it does not log in |
| AuthSlice.AuthStore.Login | src/redux/authSlice.js:64-84 | dispatching login gives the thunk's result, with the state and storage of the fulfilled or rejected case; a rejection leaves storage untouched |
| AuthSlice.AuthStore.Register | src/redux/authSlice.js:85-95 | dispatching register gives the thunk's result, and the new state is that of the fulfilled or rejected case |
| RegisterForm.HandleChange | src/Pages/Register.jsx:38-42 | the named field takes the new value, every other field keeps its value, and only that field's error is cleared (same code in src/components/Register.jsx) |
| RegisterForm.IsEmail | src/Pages/Register.jsx:29 | the email test accepts exactly the strings matching `^[^\s@]+@[^\s@]+\.[^\s@]+$` |
| RegisterForm.EmailError | src/Pages/Register.jsx:28-29 | the email fails with "required" when blank, otherwise with "invalid" exactly when it does not match the pattern |
| RegisterForm.PasswordError | src/Pages/Register.jsx:32-33 | the password fails with "required" when empty, otherwise exactly when it has fewer than 6 UTF-16 units |
| RegisterForm.ConfirmError | src/Pages/Register.jsx:34 | the confirmation fails exactly when it differs from the password, even when both are empty |
| RegisterForm.AcceptableIffNoFieldError | src/Pages/Register.jsx:25-36 | the form passes every check exactly when it meets all six requirements together |
| RegisterForm.ValidateForm | src/Pages/Register.jsx:25-36 | every field holds exactly its own check's message, and passing fields hold none (same code in src/components/Register.jsx:26-37) |
| RegisterForm.Payload | src/Pages/Register.jsx:52-61 | the register argument carries the form's username, email and password, with phone number and role as the profile |
| RegisterForm.PayloadIgnoresConfirmation | src/Pages/Register.jsx:52-61 | the confirmation field never reaches the register argument |
| RegisterForm.SentBodyFromForm | src/Pages/Register.jsx:52-61 | what the register thunk posts for this form is its username, email and password, whatever the phone number and role |
| RegisterForm.HandleSubmit | src/Pages/Register.jsx:44-62 | the form is sent exactly when it is acceptable, as `Payload`; otherwise exactly the validator's non-empty error map is shown, each field with its own check's message (same code in src/components/Register.jsx:45-63) |
| LoginForm.HandleChange | src/Pages/Login.jsx:30-34 | the named field takes the new value, the other keeps its value, and only that field's error is cleared |
| LoginForm.ValidateForm | src/Pages/Login.jsx:23-28 | each field holds exactly its own check's message, and passing fields hold none |
| LoginForm.HandleSubmit | src/Pages/Login.jsx:36-43 | the login thunk is dispatched exactly when the username has a visible character and the password is non-empty, with the form unchanged as its argument; otherwise the two fields show exactly their checks' messages |
| ClassForm.HandleChange | src/components/classFrom.jsx:51-55 | the named input takes the new value, every other input keeps its value, and only that input's error is cleared |
| ClassForm.DateError | src/components/classFrom.jsx:60-61 | the date fails with "required" when empty, otherwise with "in the past" exactly when it is before now |
| ClassForm.ValidateForm | src/components/classFrom.jsx:57-68 | every input holds exactly its own check's message, and the save-failure banner is never set |
| ClassForm.AcceptableIffNoFieldError | src/components/classFrom.jsx:57-68 | the form passes every check exactly when all inputs are filled, the date is not in the past and both numbers are at least 1 |
| ClassForm.SaveTarget | src/components/classFrom.jsx:85-89 | the request is a PUT exactly when a class was passed in or the route has an id, to the passed id if truthy and the route's otherwise; anything else is a POST to /classes/ |
| ClassForm.SaveErrorMessage | src/components/classFrom.jsx:95-100 | the banner value is the server's truthy `error` as it came, else all flattened messages joined by ", " when that is not empty, else "Failed to save class" |
| ClassForm.FallbackIffNothingToShow | src/components/classFrom.jsx:95-100 | without `error`, the fallback shows exactly when there are no messages, one empty message, or the messages spell the fallback |
| ClassForm.EveryFieldMessageShown | src/components/classFrom.jsx:96-99 | without `error`, every non-empty message for any field appears in the banner |
| ClassForm.AfterSaveFailure | src/components/classFrom.jsx:101 | a failed save sets the banner to the text the page draws for that value, and keeps every input's error |
| ClassForm.HandleSubmit | src/components/classFrom.jsx:70-89 | the save goes out exactly when the form is acceptable, as `SaveTarget` chooses; otherwise a non-empty map is shown in which each input holds exactly its check's message and no banner is set |
| BookingForm.InitialForm | src/components/BookingForm.jsx:14-17 | the form starts with one place and the class passed by the previous page if truthy, else none |
| BookingForm.AvailableClasses | src/components/BookingForm.jsx:32 | the offered classes are exactly the fetched ones with a free place |
| BookingForm.AvailableKeepsOrder | src/components/BookingForm.jsx:32 | offering keeps the fetched order |
| BookingForm.AvailableIdempotent | src/components/BookingForm.jsx:32 | offering the offered classes again changes nothing |
| BookingForm.Find | src/components/BookingForm.jsx:35 | `find` gives the first class with the id, and nothing exactly when no class has it |
| BookingForm.AfterFetch | src/components/BookingForm.jsx:27-46 | after the fetch the offered classes are kept; a passed class is selected if offered and reported unavailable otherwise |
| BookingForm.PreselectedIffBookable | src/components/BookingForm.jsx:32-38 | a passed class is preselected exactly when the fetched list holds it with a free place |
| BookingForm.OnSelect | src/components/BookingForm.jsx:134-138 | choosing a class sets its id, clears only the class error, and shows the first class with that id |
| BookingForm.OnSlotsChange | src/components/BookingForm.jsx:174 | changing the count changes only the count and clears no error |
| BookingForm.ValidateForm | src/components/BookingForm.jsx:58-63 | the class and count hold exactly their checks' messages, and the banner is never set |
| BookingForm.HandleSubmit | src/components/BookingForm.jsx:65-77 | the booking is posted exactly when a class is chosen and the count is at least 1, with that class and count; otherwise the class and count keys hold exactly their checks' messages and no banner is set |
| BookingForm.BookingErrorMessage | src/components/BookingForm.jsx:84-86 | the message value is the server's truthy `error` as it came, else the `non_field_errors` array joined by ", " if not empty, else "Failed to create booking"; a single-string `non_field_errors` throws and shows none |
| BookingForm.EveryNonFieldErrorShown | src/components/BookingForm.jsx:85 | without `error`, every non-empty non-field message appears in the shown message |
| BookingForm.AfterBookingFailure | src/components/BookingForm.jsx:92 | a refused booking sets the banner to the text the page draws for the message, when one came out, and keeps the field errors |
| ClassList.AvailabilityStatus | src/Pages/Home.jsx:56-61 | for non-zero capacity, Full exactly at 0 free places and Low exactly below 30%; with zero capacity, the Infinity/NaN comparisons of the source |
| ClassList.AvailabilityMonotonic | src/Pages/Home.jsx:56-61 | with a positive capacity, more free places never give a worse badge |
| ClassList.AvailabilityThresholds | src/components/ClassCard.jsx:65-70 | with a positive capacity, Full means none free, Low means under 30% free, Available means at least 30%, and a class with every place free is Available |
| ClassList.HomeBadgeFor | src/Pages/Home.jsx:57-60 | each availability has its own label: Full, Low or Available |
| ClassList.CardBadgeFor | src/components/ClassCard.jsx:66-69 | the class card labels each availability with the same word as the home page |
| ClassList.HomeDifficultyColor | src/Pages/Home.jsx:63-70 | Beginner, Intermediate and Advanced get their colours from the table, and anything else gets gray |
| ClassList.CardDifficultyColor | src/components/ClassCard.jsx:90-97 | Beginner, Intermediate and Advanced get their colours from the table, and anything else gets gray |
| ClassList.ClassColor | src/components/ClassCard.jsx:72-79 | YOGA, ZUMBA and HIIT get their gradients from the table, and any other name gets gray |
| ClassList.ClassIcon | src/components/ClassCard.jsx:81-88 | YOGA, ZUMBA and HIIT get their emoji from the table, and any other name gets the weight lifter |
| ClassList.OnlyExactKeysStyled | src/components/ClassCard.jsx:72-97 | a class name or a level gets its own style exactly when it is spelled as a table key, so "yoga" or "beginner" fall to the default |
| ClassList.SumAvailable | src/Pages/Home.jsx:111 | with no negative counts, the free-places total is at least every single class's free places |
| ClassList.SumAvailableAppend | src/Pages/Home.jsx:111 | the free-places total is additive over any split of the class list |
| ClassList.SumAvailableBounds | src/components/ClassCard.jsx:126 | with counts between 0 and capacity, the free-places total lies between 0 and the total capacity |
| ClassList.Instructors | src/Pages/Home.jsx:118 | the instructor set holds exactly the instructors of the listed classes |
| ClassList.InstructorCount | src/Pages/Home.jsx:118 | there are never more instructors than classes, and a non-empty list has at least one |
| ClassList.SingleInstructor | src/Pages/Home.jsx:118 | one instructor teaching every class is counted once |
| ClassList.ThisWeek | src/Pages/Home.jsx:125-130 | "This Week" keeps exactly the classes from now to a week from now, both ends included |
| ClassList.HomeStats | src/Pages/Home.jsx:101-130 | the four figures are the class count, the free-places total, the instructor count and the coming-week count, which never exceeds the class count |
| ClassList.BookButtonFor | src/Pages/Home.jsx:252-261 | the book button is disabled, and reads "Full", exactly when no place is free |
| ClassList.FullBadgeIffBookDisabled | src/components/ClassCard.jsx:245-255 | for a non-zero capacity, the Full badge and the disabled button always agree |
| ClassList.BookNowPreselects | src/Pages/Home.jsx:252-258 | Book Now on a class with a free place opens the booking form on that class, which is preselected when the fetched list holds it |

## Left out

- Concurrency: several requests failing with 401 at the same time each call the refresh endpoint. The model sends one request at a time, so "exactly one refresh on a 401" is per request.
- The refresh endpoint's reply is a new token or a failure. A successful reply with no `access` field, which the source would store as "undefined", is not modelled.
- `JSON.parse` and `JSON.stringify` of the stored user are parameters of the model.
- A login reply without `user` is not modelled. The source would set the state's user to undefined and store the text "undefined" (src/redux/authSlice.js:72,78); the model's `user` is always a JSON value.
- Toasts, `navigate` after a submit, `console` logging, the forms' own loading and submitting flags, and all rendering are left out, because they do not affect the modelled state. The response hook's redirect to /login is kept as the client's location.
- The request hook's error branch only passes the error on. It is not modelled.
- The instance's base URL and credentials flag are left out.
- The class form's `fetchClass` only loads a class for editing: it reformats the date and fills the form. It is I/O and is not modelled.
- The list pages fetch the classes; this I/O is not modelled and the lists are parameters. A failed fetch is only logged to the console on the home page (src/Pages/Home.jsx:25-26) and shows a toast on the class card list and the booking page (src/components/ClassCard.jsx:30-35, src/components/BookingForm.jsx:48-53).
- Dates are instants in milliseconds, and "now" is a parameter.
- The class form's conversion of the date to ISO text before saving is not modelled. The payload is the form itself.
- An unparsable date, which JavaScript compares as NaN so that it passes the "in the past" check, is not modelled.
- Numeric inputs are `Option<int>`. Fractional values and NaN from `Number(...)` are not modelled.
- ClassList.AvailabilityStatus: the ratio `available / total` is compared exactly, not in floating point. This can differ from the source only at the 30% boundary for capacities near 2^50.
- ClassList.SumAvailableAppend: the sum is unbounded, whereas JavaScript loses integer precision beyond 2^53.
- ClassList.ThisWeek: uses one "now" for the whole list, whereas the source reads the clock once per class.
- The colour and icon tables are plain maps. A prototype key such as "constructor" would find an inherited value in the source's object literal; the model ignores this.
- Class ids are their decimal text, as `toString()` produces it. An id of 0, which is falsy in `state?.classId`, is not distinguished.
- ServerError.ErrorField: an `error` value that is a number, null or a nested object is not modelled; a body value is a string or an array of strings.
- ClassForm.SaveErrorMessage: a response body that is not a JSON object, such as an HTML error page, is not modelled. For it the class form would show the page's characters joined by ", "; the auth thunks and the booking form fall back to their fixed messages.
- ClassForm.AfterSaveFailure: the banner holds the text the page draws, an array's items with nothing between them, not the array itself. Two arrays that draw the same text, such as ["ab"] and ["a", "b"], are not told apart there. BookingForm.AfterBookingFailure does the same.
- ServerError.Field: a body with the same key twice is not excluded. `Field` takes the first entry, whereas `JSON.parse` keeps the last.
- Header.jsx removes only the two tokens from storage itself and never dispatches the slice's `logout`, which nothing in the source dispatches; Header.jsx is not part of this model.
- The booking page's "class not available" toast is modelled as a flag in `BookingForm.AfterFetch`.
