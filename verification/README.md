# Users service of serverless-playground, in Dafny

This project models `user/users.js`, the user service of a small serverless
HTTP API. Users are stored in one DynamoDB table, keyed by `userId`. It covers
three parts:

- `validateDateOfBirth` and `User.fullValidate`, the validation of a user
  (modules `Users`, `Dates`, `JsValues`);
- `UserService`, which lists, reads, creates, replaces, partially updates and
  deletes users (module `UserService`, over the table of module `Storage`);
- `UserHandler.setupRoutes`, which maps each HTTP route to a service call and
  the call's `[status, payload]` pair, or the fault it throws, to a JSON
  response (module `Routes`).

Request fields are JavaScript values, so a `User` holds `JsValue`s: a string,
`undefined`, or another value that is truthy or falsy.

The table is a class `Table`:

- `items` maps each key to its record, a map from attribute names to values.
- `sent` logs every write command sent, so contracts can say when storage is or
  is not called.
- `Table.Valid` is its invariant: every record is stored under the value of its
  own `userId` attribute. Every operation keeps it.

A storage call can fault or report a status. That is a parameter of each
operation (`fault`, or an `Answer`).

The partial update is kept as a structured request: `SET` assignments, the name
aliases and the value placeholders. `Storage.WellFormed` states when the engine
accepts such a request:

- every alias and placeholder resolves;
- no placeholder or alias goes unused;
- no attribute is assigned twice;
- the key attribute is never assigned.

`Storage.Apply` gives the meaning of an accepted request.

Module `Results` holds the `Option` and `Result` types.

## Model

| member | source | states |
|---|---|---|
| JsValues.TrimStart | user/users.js:44 | the result is a suffix of the input; everything cut off is whitespace; the result does not start with whitespace |
| JsValues.TrimEnd | user/users.js:44 | the result is a prefix of the input; everything cut off is whitespace; the result does not end with whitespace |
| JsValues.Trim | user/users.js:44 | the result has no whitespace at either end |
| JsValues.TrimIsSlice | user/users.js:44 | the trimmed string is a contiguous slice of the input, with only whitespace around it |
| JsValues.TrimEmptyIff | user/users.js:44 | `trim()` gives the empty string exactly when every character is whitespace |
| Dates.DigitValue | user/users.js:16 | a digit's value is below ten |
| Dates.DaysInMonth | user/users.js:16 | every month has 28 to 31 days; February has 29 exactly in a leap year |
| Dates.YearOf | user/users.js:16 | the year read from `yyyy/MM/dd` is at most 9999 |
| Dates.MonthOf | user/users.js:16 | the month read from `yyyy/MM/dd` is at most 99 |
| Dates.DayOf | user/users.js:16 | the day read from `yyyy/MM/dd` is at most 99 |
| Dates.Pad2 | user/users.js:16 | two digits whose value is the number |
| Dates.Pad4 | user/users.js:16 | four digits whose value is the number |
| Dates.FormatDate | user/users.js:16 | a formatted date has the `yyyy/MM/dd` shape and reads back as the same year, month and day; it is accepted exactly when the date exists |
| Dates.ParseThenFormat | user/users.js:16 | every `yyyy/MM/dd`-shaped string is the formatting of the fields read from it (round trip) |
| Dates.CalendarDateExamples | user/users.test.js:6 | the tests' dates: 1990/01/01 (line 6) is accepted and 1990-01-01 (lines 173-181) refused; edge cases beyond the tests: 2000/02/29 accepted, 1900/02/29 and 1990/13/01 refused |
| Users.ValidateDateOfBirth | user/users.js:13-26 | empty exactly for a string that is a calendar date; "Invalid dateOfBirth" exactly for a non-string; the format message exactly for any other string |
| Users.FullValidate | user/users.js:35-49 | each message exactly when its check is the first to fail, in source order: the four type checks, then the blank `userId`, then the date; empty exactly when all pass; never "Invalid dateOfBirth" |
| Users.FullValidateExamples | user/users.test.js:58-71 | the valid test user passes; an empty `userId` is required; a dashed date is refused |
| Storage.ApplyEffect | user/users.js:152-160 | an accepted `SET` request adds exactly its targets to the record, gives each target its placeholder's value and keeps every other attribute |
| Storage.KeyKept | user/users.js:152-160 | an accepted update never changes the key attribute of a record |
| Storage.Table.Put | user/users.js:91-104 | logs the put; stores the item under its key unless the write faults; keeps `Valid` |
| Storage.Table.Update | user/users.js:152-163 | logs the update. A fault or a refused request changes nothing. A status other than 200 changes nothing. Status 200 stores and returns the merged record. Keeps `Valid` |
| Storage.Table.Delete | user/users.js:171-181 | logs the delete; removes the key and returns the old record, if any; keeps `Valid` |
| UserService.ItemOf | user/users.js:91-101 | the record written for a validated user holds exactly its four attributes, and reading it back gives the same user |
| UserService.DistinctCount | user/users.js:56-69 | a scan listing each key once lists as many keys as entries |
| UserService.Listed | user/users.js:63-68 | the scanned users are as many as the records; every record's user is among them; each of them is some record's user |
| UserService.PlaceholderOf | user/users.js:133-145 | a field's placeholder is `:` followed by its attribute name |
| UserService.Included | user/users.js:131-146 | a field is set exactly when its value is truthy; fields come in source order, each once |
| UserService.AddField | user/users.js:131-146 | pushing one more field appends its fragment and adds its placeholder's value |
| UserService.PlanUpdate | user/users.js:126-150 | refusals in source order: a falsy `userId`; a truthy date that is no string ("Invalid dateOfBirth") or not a calendar date; no truthy field. Otherwise an update is planned, keyed by the `userId` |
| UserService.BuildUpdate | user/users.js:126-150 | the imperative builder yields exactly the planned update or refusal |
| UserService.IncludedAttributesOf | user/users.js:131-146 | the update sets `name`, `email`, `dateOfBirth` exactly when truthy and never sets `userId` |
| UserService.PlanWellFormed | user/users.js:152-160 | every planned update is one the engine accepts, and it targets exactly the truthy fields' attributes |
| UserService.PatchedRecord | user/users.js:152-168 | after a planned update, the record gains exactly the truthy fields' attributes with their values; every other attribute, the key among them, is kept |
| UserService.AppliedRequestKeeps | user/users.js:152-168 | the update for a field list adds exactly those fields' attributes and keeps every other attribute |
| UserService.AppliedRequestSets | user/users.js:152-168 | the update for a field list gives each field's attribute that field's value |
| UserService.FieldFragment | user/users.js:131-146 | each pushed field contributes a fragment that targets its attribute and carries its value |
| UserService.RequestTargets | user/users.js:131-146 | the fragments pushed target exactly the fields' attributes |
| UserService.FullPatchExample | user/users.test.js:111-138 | a user with every field set gives the key, the three placeholders and `SET #name = :name, email = :email, dateOfBirth = :dateOfBirth` |
| UserService.NamePatchExample | user/users.test.js:139-163 | a user with only a name gives `SET #name = :name` with only `:name` |
| UserService.PatchRejectionExamples | user/users.test.js:164-191 | these are refused with their messages: an empty id; a dashed date; no field; a date that is no string |
| UserService.BlankUserIdDivergence | user/users.js:127-129 | a whitespace-only `userId` is refused by full validation but passes the `patch` guard |
| UserService.Service.GetAll | user/users.js:56-70 | throws exactly on a storage fault; otherwise status 200 with one user per record, each record's user among them |
| UserService.Service.Get | user/users.js:71-85 | answers exactly when storage does not fault and the key is stored; then status 200 with the user whose id is the key |
| UserService.Service.Save | user/users.js:86-125 | a failed validation answers 400 with its message and sends nothing; otherwise the full record is put, and a fault throws |
| UserService.Service.Post | user/users.js:86-105 | as `Save`, confirming "User created successfully" and storing the user under its id |
| UserService.Service.Put | user/users.js:106-125 | as `Save`, confirming "User updated successfully" and storing the user under its id |
| UserService.Service.Patch | user/users.js:126-169 | a refused plan answers 400 and sends nothing. Otherwise the planned update is sent: a fault throws; a status other than 200 answers that status with "Could not update user"; 200 answers the stored record, patched as `PatchedRecord` states |
| UserService.Service.Delete | user/users.js:170-182 | logs the delete, removes the key and answers 200 with the old record, or nothing when absent; a fault throws |
| UserService.Service.PostThenGet | user/users.js:71-105 | a valid user that is posted is read back unchanged |
| UserService.Service.DeleteThenGet | user/users.js:71-85 | after a delete, reading the same id throws |
| UserService.Service.PatchThenGet | user/users.js:126-169 | after a successful patch of a stored user, each truthy field reads back as patched and each other field as before |
| Routes.FaultMessage | user/users.js:191-283 | a route's fault message is "Could not update user" exactly for PUT and PATCH |
| Routes.Respond | user/users.js:191-283 | a JSON body exactly when the service answered 200, with status 200 exactly then; another answer keeps its status and is wrapped as `{ error }`; a fault answers 500 with the route's message |
| Routes.PatchStorageErrorLooksLikeFault | user/users.js:238-253 | on PATCH, storage status 500 and a thrown fault give the same response |
| Routes.BodyUser | user/users.js:207-208 | POST takes the `userId` from the body, so "`userId` must be a string" answers it exactly when the body's `userId` is missing or no string |
| Routes.PathUserIgnoresBodyId | user/users.js:239-241 | a `userId` in a PATCH or PUT body has no effect, so "must be a string" never answers them |
| Routes.Handler.List | user/users.js:191-203 | GET /users answers 500 "Could not retrieve users" on a fault; otherwise 200 with as many users as records, every record's user among them |
| Routes.Handler.Create | user/users.js:205-219 | POST /users answers 400 with the message and stores nothing, or 500 on a fault, or 200 with the confirmation after storing the user |
| Routes.Handler.Replace | user/users.js:221-236 | PUT answers 400 with the message and stores nothing, or 500 on a fault, or 200 with the confirmation after storing the user under the path id |
| Routes.Handler.Update | user/users.js:238-253 | PATCH answers 400 with the refusal; on a fault, 500 "Could not update user"; on another storage status, that status with the same message; on 200, 200 with the stored record. Only the path id's record changes |
| Routes.Handler.Read | user/users.js:255-267 | GET /users/:userId answers 200 with the stored user, or 500 "Could not retrieve user" when absent or on a fault |
| Routes.Handler.Remove | user/users.js:269-283 | DELETE answers 200 with the old record and removes it, or 500 "Could not delete user" on a fault |
| Routes.RespondAsWritten | user/users.js:193 | as written, every route answers status 500 with an error body |
| Routes.AsWrittenNeverSucceeds | user/users.js:191-203 | as written, no route gives the 200 answer it would give with its service bound |

## Left out

- The date parser of the luxon library is not part of this model. `Dates.IsCalendarDate` states what it accepts:
  - exactly four, two and two digits, separated by `/`;
  - a year from 0 to 9999, a month from 1 to 12, and a day that exists in that month of the proleptic Gregorian calendar.

  A value that is no string makes the parser throw, as `undefined` does; this is assumed.
- A date string containing characters the parser may fold, such as full-width digits, is treated as refused.
- Strings are sequences of Unicode scalar values, not UTF-16 code units. The whitespace `trim` removes lies entirely in the Basic Multilingual Plane.
- Promises, `await`, logging (`console.log`, `console.error`) and the Express wiring are not modelled. A service call is one step that either returns or throws (`Thrown`).
- The Express application of user/handler.js is not part of this model. That covers its JSON body parser, the serverless adapter and its 404 fallback.
- A storage fault and a storage status are chosen by the caller. A faulting call, or one reporting a status other than 200, is assumed to leave the table unchanged.
- Reads (`ScanCommand`, `GetCommand`) are not logged in `Table.sent`. Only writes are.
- UserService.Service.PostThenGet, DeleteThenGet, PatchThenGet: reads are modelled as strongly consistent. `get` and `getAll` send no `ConsistentRead`, so DynamoDB may answer them before it has applied a preceding write. These round trips hold only for a consistent read.
- UserService.Service.GetAll: `getAll` reads only the first Scan page (at most 1 MB of data) and never follows `LastEvaluatedKey`. The model reads every record, so its count `|users| == |table.items|` assumes the whole table fits in one page. The scan order is a parameter.
- `USERS_TABLE` and the table name of each command: there is only one table.
- `ReturnValues` is not a field of the model. It is fixed by the operations: `ALL_NEW` for the update and `ALL_OLD` for the delete.
- UserService.Service.Get: `get` on an absent key reads a field of `undefined` and throws. The model answers `Thrown` instead of a typed error.
- UserService.Service.Patch: when storage reports a status other than 200, the payload is the bare string "Could not update user" as the code returns it. The unit test at user/users.test.js:192-202 expects `{ msg: … }`; the model follows the code.
- The handler tests in user/users.test.js:229-554 call route methods (`userHandler.getAll(req, res)`) that `UserHandler` does not have. They are not modelled.
- A request body that is absent, or that is not a JSON object, is not modelled. Bodies are maps from field names to values.

## Findings

| source | as written | input that shows it | evidently intended | confidence | as-written member | corrected member |
|---|---|---|---|---|---|---|
| user/users.js:193 | every route closure calls a free identifier `userService`. users.js does not bind it, and the caller's variable of that name is local to user/handler.js. The lookup throws inside each `try`, so every route answers 500 with its fault message | any request, e.g. GET /users on a table holding one user | call the service the handler was built with (`this.userService`), answering `Respond` of its outcome | high, not executed | Routes.AsWrittenNeverSucceeds | Routes.Handler |
