# GongZuo web backend: request handling and session lifecycle, in Dafny

This project models the request-level logic of the GongZuo time-tracking backend in Dafny. The backend is written in Rust with axum and sqlx. A *gongzuo* is a tracked time entry: it has an owner, a content (a kind code and a label), a start and an optional end. The model covers:

- the session gate every entry handler runs first (`get_user_by_session_token!`),
- login, which reuses the user's session token or creates and stores a new one,
- logout, which clears the session token of the user the token belongs to,
- registration, which only an admin may do and only for a username not yet taken,
- the start, end, edit, delete, list and get-by-id handlers for entries,
- the listing of users without the admins,
- the conversion of joined rows to their JST view, and the per-user query as a filter plus an inner join.

The relational store is an in-memory class `Store.Db`. It holds three tables as sequences: `users`, `gongzuo` (entries) and `contents`. Ids are serial. Its invariant `Valid()` says that ids are keys and lie below their counters. Each handler is a method over that class. Each handler's postcondition gives the response and the new state of every table for each branch of the handler's guard chain. There is one exception. Where start, end or edit resolve an entry's content, the contents table is stated only as either unchanged or extended by one row carrying that content, so that a store reusing an existing row is covered too. Only one store query, `gongzuos_by_user_id`, has its code in the source. The others are given assumed definitions, listed under "## Left out".

Inputs that come from outside the program are parameters:
- `now` is the clock (`Utc::now()`).
- `freshToken` is the random UUID of `create_session_token`.
- `derived` is the outcome of `password::derive`, which draws a random salt.
- `verify` is the PBKDF2 check of `password::verify_with_salt`.
- `check` stands in for the business rules that `update_gongzuo` and `delete_gongzuo` apply before they write (the overlap guard, the ownership check). `check` is an arbitrary function of the entry table and the request. On `Fail(message)` the entry table is left as it was; on `Pass` the write happens. An update resolves its content before `check` runs, so even a refused update may leave one new contents row behind.

Time is whole seconds. A `NaiveDateTime` is an `int` read as a UTC wall clock. A `DateTime<FixedOffset>` is the instant together with the offset it is shown at. JST is 9 × 3600 = 32400 seconds east.

Some behaviours of the code that the model keeps as they are:
- `users` (the user listing) has no session check (web_backend/src/handlers/users.rs:9). `all_ongzuos` and `gongzuo_by_id` return entries of every owner to any valid session (web_backend/src/handlers/gongzuo.rs:59-68, 271-294). No admin flag restricts either listing.
- `logout` takes its token from the JSON body, not from the session query. So an empty token is not refused up front; it is looked up like any other.
- The only store rejections the handlers see are `Err(message)` strings, answered as 400 with that message (web_backend/src/handlers/gongzuo.rs:162-175, 215-225, 250-260).
- `end_gongzuo` looks the entry up and checks "already ended" before any ownership check. So it answers "not found" or "already ended" for entries of other users too.

## Model

| member | source | states |
|---|---|---|
| Timezone.FromNaiveUtc | web_backend/src/util/timezone.rs:4 | the naive value read as a UTC instant: shown at offset zero, with that value as its wall-clock reading |
| Timezone.EastOpt | web_backend/src/util/timezone.rs:5 | an offset exists exactly when it lies strictly within one day of UTC, and then it is the given number of seconds east |
| Timezone.JstOffsetExists | web_backend/src/util/timezone.rs:5-6 | `east_opt(9 * 3600)` yields the 32400-second offset, so the `unwrap` never fails |
| Timezone.WithTimezone | web_backend/src/util/timezone.rs:6 | changing the display offset keeps the instant and takes the new offset |
| Timezone.ToUtc | web_backend/src/handlers/gongzuo.rs:152 | the UTC reading of a date-time is its wall-clock reading minus its offset, and denotes the same instant |
| Timezone.IntoJst | web_backend/src/util/timezone.rs:3-7 | the result is shown at exactly 32400 seconds east, denotes the same instant as the UTC input, and its wall-clock reading is the input plus 32400 seconds |
| Timezone.IntoJstRoundTrip | web_backend/src/util/timezone.rs:3-7 | reading the JST value back in UTC gives the input |
| Timezone.JstLocalRoundTrip | web_backend/src/util/timezone.rs:6 | subtracting the offset from the JST wall-clock reading gives the UTC input |
| Timezone.IntoJstInjective | web_backend/src/util/timezone.rs:3-7 | distinct UTC readings give distinct JST values, and equal ones equal values |
| GongzuoDb.FromRaw | web_backend/src/db/gongzuo.rs:27-49 | the conversion keeps id, content id, kind and text; the start is the same instant shown in JST; the end is absent exactly when it was, and otherwise is the same instant shown in JST |
| GongzuoDb.ToRaw | web_backend/src/handlers/gongzuo.rs:152 | reading a view shown in JST back in UTC and converting it again gives the same view |
| GongzuoDb.FromRawRoundTrip | web_backend/src/db/gongzuo.rs:38-39 | converting a raw row and reading it back in UTC gives the raw row |
| GongzuoDb.FromRawInjective | web_backend/src/db/gongzuo.rs:27-49 | two raw rows with the same converted view are equal |
| GongzuoDb.Joined | web_backend/src/db/gongzuo.rs:73-79 | the selected columns give back the contents row, and together with the owner they give back the entry it was joined with |
| GongzuoDb.JoinEntry | web_backend/src/db/gongzuo.rs:82-85 | the rows joined for one entry are exactly that entry paired with each contents row whose id is its content id |
| GongzuoDb.Join | web_backend/src/db/gongzuo.rs:80-85 | a row is in the inner join exactly when it pairs some entry with a contents row whose id is that entry's content id |
| GongzuoDb.OwnedBy | web_backend/src/db/gongzuo.rs:86-87 | keeps exactly the entries whose owner is the given user |
| GongzuoDb.GongzuosByUserId | web_backend/src/db/gongzuo.rs:69-95 | every returned row pairs an entry of that user with its contents row, and every such pair is returned |
| GongzuoDb.ByUserIdContentFromContents | web_backend/src/db/gongzuo.rs:73-85 | each returned row's content id, kind and text are exactly those of a row of the contents table |
| GongzuoDb.ByUserIdRowFromEntry | web_backend/src/db/gongzuo.rs:73-87 | each returned row's id, content id and times are those of an entry owned by the requested user |
| GongzuoDb.ByUserIdDropsDangling | web_backend/src/db/gongzuo.rs:82-85 | an entry with no matching contents row yields no returned row (inner join) |
| GongzuoDb.FirstWithId | web_backend/src/handlers/gongzuo.rs:278-281 | the row found has the requested id and comes from the input; none is found exactly when no row has that id |
| GongzuoDb.GongzuoByGongzuoId | web_backend/src/handlers/gongzuo.rs:122-126 | the lookup by id returns a joined row with that id, and returns none exactly when the join has no row with that id |
| UserDb.UserByUsername | web_backend/src/handlers/login.rs:25 | the user found is in the table and has the name; none is found exactly when no user has it |
| UserDb.UserBySessionToken | web_backend/src/handlers/gongzuo.rs:48-55 | the user found is in the table and holds the token; none is found exactly when no user holds it |
| UserDb.WithSessionToken | web_backend/src/handlers/login.rs:44-46 | a token write keeps the table's length, changes only the session token of the rows with the given id, and leaves every other row as it was |
| UserDb.WithSessionTokenKeepsUnique | web_backend/src/handlers/logout.rs:34 | a token write keeps user ids a key |
| UserDb.StoredTokenResolves | web_backend/src/handlers/login.rs:43-48 | after a token is stored on a user who is in the table, the session lookup by that token succeeds |
| UserDb.RemovedTokenNoLongerResolvesToUser | web_backend/src/handlers/logout.rs:34 | after a user's token is removed, no token lookup returns that user |
| Store.ReplaceEntry | web_backend/src/handlers/gongzuo.rs:215-218 | an update keeps the table's length, every row's id and owner, and every row with another id; the row with the id takes the new content id and the payload's start and end |
| Store.RemoveEntry | web_backend/src/handlers/gongzuo.rs:250-253 | a delete keeps exactly the entries whose id differs |
| Store.RemoveEntryKeepsUnique | web_backend/src/handlers/gongzuo.rs:250-253 | deleting rows keeps entry ids a key |
| Store.Db.constructor | web_backend/src/db.rs:13-16 | a store seeded with users with unique ids satisfies the invariant and has no entries and no contents |
| Store.Db.ResolveContent | web_backend/src/handlers/gongzuo.rs:97-100 | the returned id names a contents row with the given kind and text; contents are either unchanged or gain exactly that row at the end |
| Store.Db.CreateGongzuo | web_backend/src/handlers/gongzuo.rs:97-100 | exactly one entry is appended, with a fresh id, for the given user and times, naming a contents row with the payload's kind and text; the contents table is as it was or gains one row carrying that kind and text |
| Store.Db.UpdateGongzuo | web_backend/src/handlers/gongzuo.rs:162-165 | the outcome is the store rule's verdict on the request; users are unchanged, and the contents table is as it was or gains one row carrying the payload's kind and text; on `Fail` the entries are unchanged; on `Pass` the row takes the payload's times and content and keeps its owner |
| Store.Db.DeleteGongzuo | web_backend/src/handlers/gongzuo.rs:250-253 | the outcome is the store rule's verdict; on `Fail` nothing changes; on `Pass` exactly the rows with that id are removed |
| Store.Db.UpdateSessionToken | web_backend/src/handlers/login.rs:44-46 | the user table becomes the old one with that id's token set; entries and contents are unchanged |
| Store.Db.RemoveSessionToken | web_backend/src/handlers/logout.rs:34 | the user table becomes the old one with that id's token cleared; entries and contents are unchanged |
| Store.Db.RegisterUser | web_backend/src/handlers/register.rs:57-60 | exactly one user is appended, with a fresh id and the given name, hash and salt, no session and no admin flag |
| StoreViews.CreatedEntryIsFound | web_backend/src/handlers/gongzuo.rs:97-100 | after a create, the lookup by the new id finds the created times, kind and text |
| StoreViews.UpdatedEntryIsFound | web_backend/src/handlers/gongzuo.rs:162-165 | after a passing update of an existing id, the lookup by that id finds the payload's times, kind and text |
| StoreViews.DeletedEntryIsGone | web_backend/src/handlers/gongzuo.rs:250-253 | after a delete, the lookup by that id finds nothing |
| GongzuoHandlers.SessionTokenInvalidError | web_backend/src/handlers/gongzuo.rs:32-39 | the refusal every gated handler gives: 401 with the message "Invalid session token" |
| GongzuoHandlers.ParseSessionQuery | web_backend/src/handlers/gongzuo.rs:15-30 | the token is absent exactly when the query has none or an empty one; otherwise it is the query's value; the result is never an empty token, and every handler takes only such queries |
| GongzuoHandlers.SessionUser | web_backend/src/handlers/gongzuo.rs:41-57 | no token means no user; a user returned is in the table and holds the query's token; no user returned with a token means no one holds it |
| GongzuoHandlers.AbsentOrEmptyTokenRejected | web_backend/src/handlers/gongzuo.rs:19-20 | an absent or empty session parameter never passes the gate |
| GongzuoHandlers.ConvertAll | web_backend/src/handlers/gongzuo.rs:66 | the list has one converted row per raw row, in order, and holds exactly the conversions of the raw rows |
| GongzuoHandlers.AllGongzuos | web_backend/src/handlers/gongzuo.rs:59-68 | an invalid session gives 401; a valid one gives 200 with a list holding exactly the converted rows of the join of all entries, not filtered by owner |
| GongzuoHandlers.AllGongzuosListsEveryOwner | web_backend/src/handlers/gongzuo.rs:63-66 | any user's entry that has a contents row appears, converted, in the listing |
| GongzuoHandlers.StartGongzuo | web_backend/src/handlers/gongzuo.rs:76-106 | an invalid session gives 401 and changes nothing; otherwise 201 with the id of exactly one new entry for the caller, started at `now`, not ended, with the requested kind and text |
| GongzuoHandlers.EndPayload | web_backend/src/handlers/gongzuo.rs:144-160 | the update payload keeps the entry's start, kind and text and sets the end to `now` |
| GongzuoHandlers.EndGongzuo | web_backend/src/handlers/gongzuo.rs:113-182 | 401 on an invalid session, 400 on an unknown id, 400 when already ended, each changing nothing; otherwise the update is sent under the caller's id; a store `Fail(msg)` gives 400 with `msg`, entries and users unchanged, contents as they were or with one row carrying the payload's kind and text added; `Pass` gives 200 and the entry ended at `now` |
| GongzuoHandlers.EditToPayload | web_backend/src/handlers/gongzuo.rs:200-213 | the store payload carries every field of the edit but its id, unchanged |
| GongzuoHandlers.EditGongzuo | web_backend/src/handlers/gongzuo.rs:193-234 | 401 on an invalid session with no change; otherwise the payload and caller id go to the update unchanged; `Fail(msg)` gives 400 with `msg`, entries and users unchanged, contents as they were or with one row carrying the payload's kind and text added; `Pass` gives 200 and the entry rewritten |
| GongzuoHandlers.DeleteGongzuo | web_backend/src/handlers/gongzuo.rs:241-269 | 401 on an invalid session with no change; otherwise the id and caller id go to the delete; `Fail(msg)` gives 400 with `msg` and no change; `Pass` gives 200 and the rows with that id removed |
| GongzuoHandlers.GongzuoById | web_backend/src/handlers/gongzuo.rs:271-294 | 401 on an invalid session; 400 "not found" for an unknown id; otherwise 200 with the converted row, whoever owns it |
| LoginHandler.Login | web_backend/src/handlers/login.rs:19-67 | unknown user gives 500 and no change; unreadable credential gives 500 and no change; wrong password gives 401 and no change; right password reuses an existing token without writing, or stores `freshToken` on that user only; a 200 always returns the token the user now holds |
| LogoutHandler.Logout | web_backend/src/handlers/logout.rs:15-42 | an unresolved token gives 401 and no change; otherwise 200 "Logout successful" and only the resolved user's token is cleared |
| RegisterHandler.Register | web_backend/src/handlers/register.rs:28-66 | 401 on an invalid session, then 401 for a non-admin whatever the name, then 400 if the name exists, then 500 if deriving fails, each changing nothing; else 201 with exactly one appended user of that name, the derived credential, no session and no admin flag |
| UsersHandler.NonAdmins | web_backend/src/handlers/users.rs:14-17 | every user returned is a non-admin from the table, every non-admin of the table is returned, and the result is no longer than the table |
| UsersHandler.Users | web_backend/src/handlers/users.rs:9-19 | the response is 200 and lists exactly the non-admin users of the store's user table, as the filter over that table |
| UsersHandler.NonAdminsKeepsOrder | web_backend/src/handlers/users.rs:14-17 | the listing is a subsequence of the table: relative order is kept |
| UsersHandler.NonAdminsAppend | web_backend/src/handlers/users.rs:14-17 | filtering a concatenation is the concatenation of the filtered parts |
| UsersHandler.RegisteredUserListed | web_backend/src/handlers/users.rs:14-17 | appending a non-admin user to the table, as a registration does, appends exactly that user to the listing |
| Scenarios.StartThenEnd | web_backend/src/handlers/gongzuo.rs:76-182 | starting at `t0` and ending at `t1`, with the store letting the update through, leaves an entry the lookup by id finds with start `t0`, end `t1` and the given kind and text |
| Scenarios.LoginThenUseToken | web_backend/src/handlers/login.rs:39-58 | the non-empty token a successful login returns passes the session gate |
| Scenarios.LogoutThenUseToken | web_backend/src/handlers/logout.rs:21-41 | after logout the token no longer resolves to the user who logged out |

## Left out

- Password hashing and checking (web_backend/src/password.rs: PBKDF2-HMAC-SHA256 and hex through `ring`) is cryptography over a library. It enters as the parameters `verify` and `derived`.
- Session token generation (web_backend/src/session.rs: UUID v4) is randomness. It enters as `freshToken`. Tokens are not assumed to be unique across users, so the models look up the first holder.
- Server start-up, configuration, routing and CORS (web_backend/src/main.rs, web_backend/src/router/root.rs, web_backend/src/router/gongzuo.rs) and the connection pool (web_backend/src/db.rs) are plumbing.
- The `me` handler the router names is not part of this model: its code is not in web_backend/src/handlers/users.rs.
- Failures of the database transport (every `.await?` on the store) are not modelled: the in-memory store does not fail. The errors that handlers raise themselves are modelled as 500 responses with a `Cause`, as web_backend/src/error.rs turns them into 500s. These are: unknown user at login, undecodable stored credential, and failure of the random source.
- Only `gongzuos_by_user_id` (web_backend/src/db/gongzuo.rs:69-95) has its query in the source. For every other store operation the handlers call, the model assumes a definition. The lemmas in `StoreViews`, `GongzuoHandlers.AllGongzuosListsEveryOwner` and the `Scenarios` methods hold for these definitions:
  - `all_gongzuos` is the inner join of all entries with their contents rows (`GongzuoDb.Join`).
  - `gongzuo_by_gongzuo_id` is the first joined row with the id, in table order (`GongzuoDb.GongzuoByGongzuoId`).
  - `ensure_session_token` is the first user holding the token in table order (`UserDb.UserBySessionToken`). `get_user_by_username` is the first user with the name (`UserDb.UserByUsername`). `users()` is the whole user table in table order.
  - `create_gongzuo` and `register_user` append a row with the next serial id (`Store.Db.CreateGongzuo`, `Store.Db.RegisterUser`).
  - `update_session_token` and `remove_session_token` are an UPDATE of the rows with that id (`UserDb.WithSessionToken`).
- Store.Db.UpdateGongzuo: the overlap guard and the ownership check inside `update_gongzuo` are the parameter `check`; only its two outcomes are stated. The transaction is not modelled: a refused update keeps the entry table, and the contract allows the contents table to have gained one row carrying the payload's kind and text.
- Store.Db.DeleteGongzuo: the ownership check inside `delete_gongzuo` is likewise the parameter `check`. A refused delete is taken to leave every table as it was, that is, to roll back completely.
- Store.Db.ResolveContent: the body always appends a fresh contents row. The contract states only that the returned id names a matching row and that contents are either unchanged or gain exactly that row, so it holds as well for a store that reuses an existing row. Whether the store reuses rows is not modelled.
- Store.Db.RegisterUser: the created user gets no admin flag and is stamped with `now`. These stand in for the table defaults `register_user` relies on; the parameter `now` is the clock.
- `User::from` (raw user row to response user) is not part of this model. Listings and registration return user records as stored.
- The `ContentKind` enum is not in the files modelled. Kinds are carried as their integer code throughout, as `GongzuoRaw` and `Gongzuo` store them.
- Ids are unbounded integers, so the 32-bit width of `i32` ids and serial counters is not modelled.
- Timestamps are whole seconds with no range limit. Sub-second precision and chrono's date range are not modelled.
- The store queries, including those whose code is not in the source, return rows in whatever order the database gives; `gongzuos_by_user_id` has no `ORDER BY`. The model fixes table order whatever order those queries return: `GongzuoByGongzuoId` returns the first match in table order, and `UsersHandler.Users` lists users in table order. The listings of `GongzuoDb.GongzuosByUserId` and `GongzuoHandlers.AllGongzuos` are stated as membership only.
- `async`/`await`, JSON and serde encoding, and HTTP types are left out. Statuses are an enum and bodies a datatype.
- Concurrent requests are not modelled: each handler runs as one atomic step. In the source, `register` checks that the name is free (web_backend/src/handlers/register.rs:44) and inserts in a separate store call (register.rs:57-60), and `login` reads the user's token (web_backend/src/handlers/login.rs:25) and writes a new one in a separate call (login.rs:44-46). Another request can run between the two. "Exactly one user of that name" and "the token handed out is the one the user now holds" hold only when nothing interleaves.
