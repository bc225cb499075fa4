# Pranora Production events site — a Dafny model

This project models the core of the Pranora Production events website: the
server's in-memory store of events and team members, the database-backed
store's "not initialized" guard, the start-up seeding of demonstration data,
the three read-only GET routes, the serverless entry point with its error
middleware, the shared API contract (paths and declared response shapes),
the client's event data hooks, and the logic of the events, home and contact
pages. Every component is a module of pure functions over immutable data; the
properties are stated as contracts and lemmas and proved by Dafny.

Modules and what they stand for:

- `Wrappers` — `Option` and `Result`, used for "undefined" and for thrown errors.
- `Text` — decimal rendering (`toString`), `Number`-style integer reading,
  `substring(0, n)` and first-occurrence `replace`.
- `InsertionMap` — a JavaScript `Map`: entries in insertion order, `set` on an
  existing key replaces in place.
- `Json` — decoded JSON values and property lookup.
- `Exceptions` — thrown values: `Error` instances (with optional `status` /
  `statusCode`) and other values.
- `Schema` — the event and team-member rows, their insert shapes, the JSON
  bodies the server sends and how a client reads them back.
- `MemStorage` — the in-memory store: two maps plus two id counters.
- `Storage` — the storage interface over two backends: the in-memory store, or
  a database with no connection (every call throws "Database not initialized").
- `Seed` — the seeding routine with its sentinel check.
- `Contract` — the API table and the response-shape check.
- `Routes` — routing, the three handlers, and registration with caught seeding errors.
- `ApiHandler` — the serverless handler and the error middleware.
- `EventHooks` — the client's events-list and event-by-id query functions, URLs and cache keys.
- `EventsPage`, `HomePage`, `ContactPage` — page logic.

The record response schemas of the contract are predicate-free custom
schemas, which accept any value unchanged, so a malformed record is not
rejected by the client hooks; only a list body that is not an array fails
(`Contract.Parse`, `EventHooks.EventQuery`, `EventHooks.EventsQuery`).

## Model

| member | source | states |
|---|---|---|
| InsertionMap.Get | server/storage.ts:38-40 | a key finds a value exactly when some entry has that key, and the value found is stored under it |
| InsertionMap.Set | server/storage.ts:45 | after `set`, the key maps to the new value, every other key keeps its value, a new key is appended at the end and an existing key keeps its position |
| MemStorage.New | server/storage.ts:27-32 | a new store has no events, no team members, both counters at 1, and satisfies the store invariant |
| MemStorage.CreateEvent | server/storage.ts:42-47 | the created event is the draft plus the current counter as id, the counter advances by one, the event is found by its id, every other id finds what it found before, the team side is untouched, and the event list grows by exactly the new event at the end |
| MemStorage.CreateTeamMember | server/storage.ts:53-58 | the same guarantees for team members, with the event side untouched |
| MemStorage.GetEventAgreesWithList | server/storage.ts:34-40 | in a valid store, looking up an id succeeds exactly when some listed event has that id and returns that event; ids below 1 or at or above the counter find nothing |
| MemStorage.RunAppends | server/storage.ts:42-58 | any sequence of creates appends the drafts, numbered consecutively from the counters, to the two lists in call order, advances each counter by its number of creates, and keeps the store valid |
| MemStorage.RunKeepsEarlier | server/storage.ts:42-47 | creates never change what an already-issued id finds |
| MemStorage.RunFromNew | server/storage.ts:27-47 | on a new store, the k-th created event has id k and is what looking up k returns; other ids find nothing |
| Storage.PerformAll | server/storage.ts:73-88 | awaiting creates one after another on the in-memory backend performs them all; on a database without connection the first create throws "Database not initialized" |
| Schema.EventWithId | Event-Horizon/shared/schema.ts:25-30 | a row built from an insert shape carries the given id and, with the id removed, gives back the insert shape |
| Schema.InsertShapeIsRowWithoutId | Event-Horizon/shared/schema.ts:25-33 | adding an id and removing it are inverse in both directions, for events and for team members |
| Schema.EventRoundTrip | server/routes.ts:16-22 | reading the JSON body sent for an event back into a record gives the same event, extras included |
| Schema.TeamMemberRoundTrip | server/routes.ts:24-27 | reading the JSON body sent for a team member back gives the same member |
| Seed.SeedDatabase | server/routes.ts:41-140 | seeding succeeds on the in-memory backend and throws "Database not initialized" on a database without connection, at the first listing |
| Seed.SeedAppends | server/routes.ts:52-136 | without the sentinel title present, seeding appends exactly the four listed events and then the three listed team members, in order, numbered on from the counters |
| Seed.SeedSkips | server/routes.ts:52 | with the sentinel title present, seeding changes nothing |
| Seed.SeedEmpty | server/routes.ts:53-136 | seeding an empty store whose counters are at 1 (such as a new one) lists exactly the seed events numbered from 1 and the seed team numbered from 1 |
| Seed.SeedEventsFromOne | server/routes.ts:53-111 | the seed events numbered from 1 are events 1 to 4 with the listed titles, in order |
| Seed.SeedTeamFromOne | server/routes.ts:113-136 | the seed team numbered from 1 is members 1 to 3 with the listed names, in order |
| Seed.SeedIdempotent | server/routes.ts:52 | seeding a second time changes nothing, because the first seeded event carries the sentinel title |
| Seed.SeedPreserves | server/routes.ts:109-136 | seeding never removes or alters a record: old lists are prefixes of new ones and every stored id finds the same event |
| Contract.ResponseShape | Event-Horizon/shared/routes.ts:23-50 | an endpoint declares a shape for a status exactly when its response table lists that status, and the shape returned is the one listed |
| Contract.Parse | Event-Horizon/shared/routes.ts:29-36 | a predicate-free custom schema returns its input unchanged; an array schema refuses non-arrays; an object schema refuses non-objects |
| Contract.ParseItems | Event-Horizon/shared/routes.ts:29 | an array parses exactly when every element parses, element by element, keeping the length |
| Contract.ParseFields | Event-Horizon/shared/routes.ts:7-18 | an object parses exactly when every declared field is a string or, if optional, absent; the result holds only declared fields, each with the input's string value, and every present declared field |
| Contract.ParseArrayOfCustom | Event-Horizon/shared/routes.ts:29 | the list schemas accept every JSON array unchanged and refuse everything else |
| Contract.ParseMessageBody | Event-Horizon/shared/routes.ts:12-14 | the not-found schema accepts exactly the objects whose `message` is a string, and returns just that message |
| Contract.MessageBodyConforms | Event-Horizon/shared/routes.ts:7-18 | a `{ message }` body satisfies the validation, not-found and internal error schemas unchanged |
| Contract.DeclaredResponses | Event-Horizon/shared/routes.ts:23-50 | list events and list team declare 200 with an array, get event declares 200 with a record and 404 with the not-found shape |
| Routes.Match | server/routes.ts:11-27 | a request reaches the list-events or list-team handler exactly when it is a GET or HEAD of that path, and reaches the get handler exactly when it is a GET or HEAD of `/api/events/` followed by one non-empty segment without `/`, which the handler receives |
| Routes.EndpointOf | server/routes.ts:11-24 | each route is registered under its own endpoint's path and verb: list events under `/api/events`, get event under `/api/events/:id`, list team under `/api/team`, all GET |
| Routes.EventsBody | server/routes.ts:11-14 | the list body is an array with one element per event, each reading back as that event |
| Routes.GetEventHandler | server/routes.ts:16-22 | on the in-memory store the answer is 200 exactly when `Number` reads the segment as an integer id that finds an event, and then the body reads back as that event; otherwise 404 with "Event not found"; without a database connection it throws "Database not initialized" |
| Routes.Serve | server/routes.ts:11-27 | a request is handled exactly when a route matches it; on the in-memory store every handled request succeeds, and without a database connection every handled request throws "Database not initialized" |
| Routes.RegisterRoutes | server/routes.ts:32-38 | registration always completes: the in-memory backend is seeded, and a seeding error on a database without connection is caught and leaves the backend as it was |
| Routes.EventUrlMatches | server/routes.ts:16-17 | the path a client builds from an integer id routes to the get handler with that id's decimal text |
| Routes.GetByIdAfterCreates | server/routes.ts:16-22 | after creates on a new store, GET of id k answers 200 with the k-th created event when 1 <= k <= the number created, and 404 with "Event not found" otherwise |
| Routes.ServeEventUrl | server/routes.ts:16-22 | on any store, fetching the path of an integer id answers 200 with the stored event under that id, or 404 with "Event not found" when there is none |
| Routes.LeadingZeroIgnored | server/routes.ts:17 | a leading zero in the segment is ignored by `Number`, so `/api/events/007` gets the same answer as `/api/events/7` |
| Routes.NonIntegerIdNotFound | server/routes.ts:17-20 | a path segment that is not an optional `-` followed by digits never finds an event and answers 404 (the further spellings `Number` reads are listed under Left out) |
| Routes.ServeUninitialized | server/routes.ts:11-27 | on a database without connection, every routed request throws "Database not initialized" |
| Routes.ResponsesConform | server/routes.ts:11-27 | on the in-memory backend every routed request answers with a status its endpoint declares and a body that satisfies the declared shape |
| Routes.ListRoutes | server/routes.ts:11-27 | on the in-memory store both list routes answer 200 with the stored records, in store order |
| Routes.FreshDeploymentLists | server/routes.ts:32-36 | a freshly started in-memory deployment lists four events and three team members |
| Routes.RegisterWithoutDatabase | server/routes.ts:32-36 | without a database connection registration still completes, and every route then throws |
| ApiHandler.ErrorStatus | api/index.ts:23 | the error status is never zero (zero is falsy and falls through) |
| ApiHandler.ErrorStatusChoice | api/index.ts:23 | for an error or any other thrown object, the status is the first truthy of its `status` and `statusCode` properties, else 500; it is 500 exactly when no truthy status other than 500 is present |
| ApiHandler.ErrorMessage | api/index.ts:24 | the error message is never empty |
| ApiHandler.ErrorMessageChoice | api/index.ts:24 | a non-empty `message` property is kept, whether the thrown value is an error or another object; an empty or absent message, or a thrown primitive, gets "Internal Server Error" |
| ApiHandler.ErrorResponseConforms | api/index.ts:22-26 | the JSON body the error middleware builds for any thrown value is `{ message }` with the chosen message and satisfies the internal-error schema |
| ApiHandler.ErrorHandler | api/index.ts:22-26 | the middleware's JSON answer is sent exactly when the chosen status lies in 100–999 and may carry a body, with that status and the `{ message }` body; an informational status, 204 or 304 is sent with that status and no body; any other truthy status makes setting the status throw, and the framework's final handler answers 500 with its own page; a value without a truthy status is always answered with 500 |
| ApiHandler.Initialize | api/index.ts:19 | the initialization promise resolves whatever seeding does: to the unchanged backend when seeding throws, and to the seeded backend otherwise |
| ApiHandler.Handle | api/index.ts:28-40 | a failed initialization answers every request with the initialization-failure response; otherwise a request gets no route exactly when none matches, the handler's response on the in-memory store, and on a database without connection the error middleware's 500 response or no answer |
| ApiHandler.InitializedNeverFailsInit | api/index.ts:28-40 | after initialization every request goes to the application, and the initialization-failure response is never sent |
| ApiHandler.InitFailureAnswersAll | api/index.ts:32-38 | if initialization threw, every request gets the same 500 response with message "Internal Server Error during initialization" and, as details, the error's message for an `Error` and the value's string rendering otherwise |
| ApiHandler.UninitializedDatabaseRequests | api/index.ts:22-31 | without a database connection a routed request gets 500 "Database not initialized" when handler rejections reach the error middleware, and no answer otherwise |
| EventHooks.EventsFailure | client/src/hooks/use-events.ts:10-13 | the events error message starts with "Failed to fetch events: ", the status and the status text, and ends with the body's first 100 characters (all of a shorter body) |
| EventHooks.EventsFailureShowsStatus | client/src/hooks/use-events.ts:12 | the HTTP status can always be read back out of the events error message |
| EventHooks.EventsQuery | client/src/hooks/use-events.ts:5-17 | a non-2xx status fails with the events error message; a 2xx status with an array body returns the body unchanged, with a non-JSON body fails with a syntax error, and with any other JSON value fails as "expected array" |
| EventHooks.EventQuery | client/src/hooks/use-events.ts:20-32 | the result is `null` exactly for status 404 or a 2xx `null` body, which the hook cannot tell apart; any other non-2xx status fails with "Failed to fetch event"; a 2xx status returns the decoded body unchanged, or fails with a syntax error when the body is not JSON |
| EventHooks.EventUrl | client/src/hooks/use-events.ts:25 | replacing `:id` in the contract path gives `/api/events/` followed by the id's decimal text |
| EventHooks.EventUrlInjective | client/src/hooks/use-events.ts:25 | distinct ids request distinct URLs |
| EventHooks.UseQuery | client/src/hooks/use-events.ts:7 | a cached key returns its cached result without change; a new key stores and returns the fetched result; other entries are kept |
| EventHooks.RemountReusesResult | client/src/hooks/use-events.ts:22 | a second mount with the same key gets the first mount's result whatever a new fetch would return |
| EventHooks.KeysDistinct | client/src/hooks/use-events.ts:7-22 | two event keys are equal exactly when their ids are, and no event key equals the list key |
| EventHooks.EventFetchAfterCreates | client/src/hooks/use-events.ts:20-32 | against a server populated by creates on a new store, the event hook yields the k-th created event's body for a created id and `null` for any other id |
| EventHooks.EventsFetchListsStore | client/src/hooks/use-events.ts:5-17 | against any in-memory store, the events hook returns a list whose items read back as the stored events, in store order |
| EventsPage.Dedup | client/src/pages/Events.tsx:11 | the categories appear once each, exactly the categories present |
| EventsPage.DedupExtends | client/src/pages/Events.tsx:11 | more events never reorder or drop the category buttons already offered |
| EventsPage.DedupDistinct | client/src/pages/Events.tsx:11 | distinct categories come out in their original order |
| EventsPage.Categories | client/src/pages/Events.tsx:11 | "All" comes first, followed by each category present exactly once; before data arrives only "All" is offered |
| EventsPage.InCategory | client/src/pages/Events.tsx:15 | every listed event has the chosen category |
| EventsPage.InCategoryMembers | client/src/pages/Events.tsx:15 | an event is listed exactly when it is stored with the chosen category |
| EventsPage.InCategoryKeepsAll | client/src/pages/Events.tsx:15 | nothing is filtered out exactly when every event has the chosen category |
| EventsPage.InCategoryOrdered | client/src/pages/Events.tsx:15 | filtering distributes over concatenation, so list order is kept |
| EventsPage.Filtered | client/src/pages/Events.tsx:13-15 | "All" shows the events unchanged; another filter shows exactly the events of that category; before data arrives nothing is shown |
| EventsPage.OfferedIffNonEmpty | client/src/pages/Events.tsx:11-15 | once loaded, a category other than "All" is offered exactly when choosing it lists an event, so an offered button never leads to "No events found in this category." |
| EventsPage.AllShowsNoEventsIffEmpty | client/src/pages/Events.tsx:17-94 | under "All", once loaded, the no-events message shows exactly when the query is not in error and there are no events; in error the page shows the error view instead, even with data kept from an earlier fetch |
| EventsPage.NoMessageWithoutData | client/src/pages/Events.tsx:17-94 | before data arrives, while loading, or when the query is in error, the no-events message never shows |
| HomePage.Featured | client/src/pages/Home.tsx:51 | the featured events are the first min(3, n) events, and none before data arrives |
| HomePage.StatValue | client/src/pages/Home.tsx:284 | the counter target is undefined (NaN) exactly when the display string has no digit, and otherwise the value of its digits read in order (so "0500+" gives 500) |
| HomePage.SplitPartitions | client/src/pages/Home.tsx:284-285 | the digits and the suffix together are a rearrangement of the display string |
| HomePage.DigitsOfAppend | client/src/pages/Home.tsx:284-285 | both parts distribute over concatenation |
| HomePage.StatRoundTrip | client/src/pages/Home.tsx:284-285 | a number followed by a digit-free suffix splits back into that number and that suffix |
| HomePage.StatsDisplay | client/src/pages/Home.tsx:270-285 | the four counters show 500 "+", 250 "+", 100 "+" and 15 with no suffix |
| ContactPage.Validate | client/src/pages/Contact.tsx:8-14 | the errors are exactly the failing fields, each with its message |
| ContactPage.ValidIffNoErrors | client/src/pages/Contact.tsx:8-14 | the form is valid exactly when it has no errors |
| ContactPage.Submit | client/src/pages/Contact.tsx:24-33 | a submit sends exactly when the form is valid, then shows the "Message Sent!" toast with its description and duration and clears the form; otherwise it reports exactly the validation errors and keeps the values |
| ContactPage.DateIrrelevant | client/src/pages/Contact.tsx:12 | the optional date never changes validation |
| ContactPage.ResubmitAfterSendRejected | client/src/pages/Contact.tsx:32 | after a send the cleared form is rejected with the name, event-type and message errors |
| ContactPage.EventTypeOptions | client/src/pages/Contact.tsx:150-154 | the placeholder option fails the event-type check and each real option passes |
| Text.ParseIntegerIntToString | server/routes.ts:17 | reading back an integer's decimal text gives the integer |
| Text.ReplaceFirst | client/src/hooks/use-events.ts:25 | a pattern that does not occur leaves the string unchanged; otherwise only its first occurrence is replaced |
| Text.Prefix | client/src/hooks/use-events.ts:12 | `substring(0, n)` is a prefix of at most n characters, and all of the string when it is shorter |

## Left out

- The database backend beyond its connection guard: the SQL queries, ordering by date and database-assigned ids are not modelled, because they run in the database.
- Choosing the backend from the `DATABASE_URL` environment variable: the backend is a parameter.
- `DatabaseStorage` with a working connection, and `db` itself: the database module is not part of this model.
- Logging (`console.log`, `console.error`), timers, animations, the `CountUp` component and all page markup: they do not affect the data.
- The express JSON and URL-encoded body parsers: no GET handler reads the body, but a request (a GET included) that carries a malformed JSON or URL-encoded body is rejected by the parser with a 400 error that goes to the error middleware before any route runs; requests are modelled without bodies.
- Routes.Match: paths are matched exactly; the web framework's case-insensitive matching, optional trailing slash, query strings and percent-decoding of the parameter are not modelled. A HEAD request runs the GET handler; the HTTP layer then sends the status and headers without the body, which the model does not separate.
- Text.ParseInteger: `Number` also accepts surrounding whitespace, a leading `+`, hexadecimal (`0x`), binary (`0b`), octal (`0o`), exponent and fractional spellings, in either letter case; such segments are treated as no integer, so the model answers 404 where the source may find an event.
- Routes.GetEventHandler: because of the `Number` spellings listed under Text.ParseInteger, a segment such as `0b1`, `0o1`, `0x1` or `1e0` finds event 1 in the source, while the model answers 404.
- Routes.NonIntegerIdNotFound: the segments it covers are those `ParseInteger` rejects, which include the binary, octal, hexadecimal, exponent and fractional spellings that `Number` reads as integers; for those the source may answer 200.
- ApiHandler.Handle: whether a rejected async route handler reaches the error middleware depends on the framework's major version, which is not visible here, so it is a parameter; Express's default handling of unrouted requests is reduced to `NoRoute`.
- Schema.EventToJson: properties are emitted in column order, then `categoryId`, `gallery` and `id`; for the first seeded event the source literal puts `categoryId` before `category`, so its body text orders keys differently (no client reads by position).
- Seed data: titles, dates, locations, categories, `categoryId`, names and roles are kept; descriptions, biographies and image URLs are replaced by empty strings, and each gallery by three empty strings, since they are only displayed.
- The clean-up branch for old image hosts in the seed routine has an empty body and is omitted.
- Numbers are unbounded integers: JavaScript's double-precision limits on ids and statuses beyond 2^53, and non-numeric `status` properties on thrown values, are not modelled.
- ApiHandler.ErrorHandler: the final handler's page is represented by its status alone; its HTML body, and the `Invalid status code` error behind it, are not modelled. A body-less status (1xx, 204, 304) is modelled as sent with no body; how the HTTP layer treats an informational status used as a final one beyond that is not modelled.
- Thrown `null` or `undefined` (property access on them would itself throw) is not modelled; every thrown value is an `Error` or a value with a string rendering.
- ApiHandler.ErrorMessageChoice: a `message` property that is not a string (a number, say) on a thrown non-error object is not modelled; such a value would be sent as is.
- Contract.Parse: zod collects every issue and builds error objects with paths and texts; the model reports the first issue only.
- EventHooks.EventsQuery: the network, `fetch` and JSON text decoding are inputs (the response's status, status text, body text and decoded body).
- EventHooks.UseQuery: the query library's loading states, retries, stale-time refetching and refetch on remount or window focus are not modelled; a cached key is assumed to be reused without a new fetch, which holds only while its entry is fresh.
- Text.Prefix: `substring(0, 100)` counts UTF-16 code units, while the model counts characters (Unicode scalar values); for a body with characters outside the Basic Multilingual Plane (60 emoji, say) the source quotes fewer characters (50) than the model (60).
- The `varchar(50)` width of the `category` column is enforced only by the database, which is not part of this model; the in-memory store accepts any category.
- The pages read records as the declared record type; a body that is a valid JSON array of other values reaches the page unchecked in the source, and that case is not modelled.
- ContactPage.Check: string lengths count Unicode characters rather than UTF-16 code units, and the e-mail syntax check is a parameter rather than zod's regular expression.
- The contact form's toast rendering and `console.log(data)`: only the toast's title, description and duration are kept.
- The team hook and the About page, which only display team members: the team route and its body are modelled on the server side.
