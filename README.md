# Social kanban: the card table and its routes

A model of the Express/SQLite server of a social-media kanban board (`server/index.js`).
The server keeps two tables: `cards`, keyed by `id`, with one row per content item
(platform, workflow status, title, description, type, date, priority and two
timestamps), and `platforms`, a reference list seeded with seven rows when the table is
empty. Most routes run one or two SQL statements; the statistics route runs five. The
model treats each route as one atomic step over the tables:

- `Schema` (schema.dfy): the rows, the `cards` table as a map from primary key to row,
  the primary-key facts (`WellKeyed`, `DistinctPlatformIds`), and the timestamp order
  (`Chronological`).
- `Http` (http.dfy): the reply of a route, `Created` (201), `Ok` (200), `NotFound` (404)
  or `ServerError` (500), as sections 15.3.2, 15.3.1, 15.5.5 and 15.6.1 of RFC 9110 define them.
- `CardOps` (cards.dfy): the request bodies, JavaScript `||` defaults, SQL `COALESCE`,
  and each write route as a pure step from the table before to a reply and the table after.
- `Queries` (queries.dfy): the three listings, ordered by `created_at DESC`, and row counting.
- `Stats` (stats.dfy): the statistics route. Its two `GROUP BY` breakdowns are lists of
  `{key, count}` rows.
- `Platforms` (platforms.dfy): the seed rows and the enabled-platform listing.
- `Server` (server.dfy): the class `Kanban`. It holds both tables as fields, and its methods
  seed, create, update, move and delete in place. Each write method is proved equal to
  its `CardOps` step. `BoardScenario` is a verified client that runs a short scenario.

Request-body fields are `Option<string>`. `None` stands for an absent key, `undefined` or
JSON `null`. `CURRENT_TIMESTAMP` is a natural-number clock reading `now` passed in by the
caller. `Date.now().toString()` is the parameter `generatedId`.

Three behaviours of the code worth noting:

- Create accepts an empty `title`. The column is only `NOT NULL`, so only a missing
  title fails.
- Create reports every failure as the same 500 reply. There is no separate validation error.
- `updated_at >= created_at` holds only while the clock does not run backwards. The model
  proves it under that condition (`ClockNotBehind`) and does not assume it.

## Model

| member | source | states |
|---|---|---|
| `Http.Reply.StatusCode` | server/index.js:96-123 | 201 exactly for a creation, 200 exactly for the other successes, 404 for a missing card, 500 for a failure |
| `CardOps.NewRow` | server/index.js:108-116 | the inserted row keeps platform, status and title. An absent or empty description, type, date or priority becomes `''`, `'post'`, NULL or `'medium'`, and a non-empty one is kept. `created_at == updated_at == now` |
| `CardOps.CreateStep` | server/index.js:106-123 | 500 exactly when the chosen id (the body's id if truthy, else the generated one) is taken, or platform, status or title is missing; the table is then unchanged. Otherwise exactly one row is added under that id, every other row is unchanged, and an immediate get returns the new row with its defaults. The key and timestamp invariants are kept, and a clock not behind the table stays not behind it |
| `CardOps.Get` | server/index.js:93-103 | 404 exactly when the id is not in the table; otherwise 200 with the row stored under that id, whose `id` is the one asked for |
| `CardOps.ApplyPatch` | server/index.js:130-141 | each column given a value, including `''`, is overwritten. Each column given null or absent keeps its value. `id` and `created_at` never change, and `updated_at` becomes `now` |
| `CardOps.UpdateStep` | server/index.js:126-154 | 404 with the table unchanged exactly when the id is absent. Otherwise the row under the id is replaced by the patched row and returned, and no other row changes. `updated_at` does not decrease when the clock is not behind |
| `CardOps.MoveStep` | server/index.js:157-177 | 404 exactly when the id is absent. 500 exactly when the id is present and platform or status is missing. In both cases the table is unchanged. Otherwise only platform, status and `updated_at` of that row change, and no other row changes. A clock not behind the table stays not behind it |
| `CardOps.DeleteStep` | server/index.js:180-192 | 404 with the table unchanged exactly when the id is absent. Otherwise exactly that key is removed, the other rows are kept, and a later get of the id is 404 |
| `CardOps.MoveIsNarrowUpdate` | server/index.js:130-167 | a successful move leaves the same table as an update whose body names only platform and status |
| `CardOps.PatchIdempotent` | server/index.js:130-141 | applying the same update body twice equals applying it once at the later time |
| `Queries.NewestExists` | server/index.js:65 | every non-empty table has a row that no other row is newer than, so `ORDER BY created_at DESC` has a first row |
| `Queries.Listing` | server/index.js:65 | the listing holds every row of the table, each once and nothing else, in non-increasing `created_at` order |
| `Queries.ListingWhere` | server/index.js:75 | listing the rows that pass a filter lists the table filtered by it |
| `Queries.ListAll` | server/index.js:63-70 | GET /api/cards returns a permutation of the table, newest first |
| `Queries.ListByPlatform` | server/index.js:73-80 | returns exactly the cards whose platform equals the argument, each once, newest first |
| `Queries.ListByStatus` | server/index.js:83-90 | returns exactly the cards whose status equals the argument, each once, newest first |
| `Queries.CountRowsPositions` | server/index.js:207-211 | `COUNT(*)` over a result list is the number of its positions whose row passes the filter |
| `Queries.ListingCount` | server/index.js:207-211 | counting the rows of the listing that pass a filter gives the number of keys in the table that pass it |
| `Stats.Bump` | server/index.js:210-211 | counting one more row adds one to that key's group (creating it at 1 if needed) and leaves the other groups alone. The keys stay distinct and the counts sum one higher |
| `Stats.GroupBy` | server/index.js:210-211 | `GROUP BY` has distinct keys and no empty group. Each key's count is the number of rows with that value, and the counts sum to the number of rows |
| `Stats.Compute` | server/index.js:205-217 | `total` is the table size. `scheduled` and `published` count the rows with those statuses, and `scheduled + published <= total`. The byPlatform counts sum to `total`, and so do the byStatus counts. The groups are well formed, and each value's group count equals the number of cards with that value |
| `Stats.BreakdownMatchesCards` | server/index.js:210-211 | every group count is at least 1, counts the cards with its key, and its key is carried by some card. Every card's value has a group |
| `Platforms.Inserted` | server/index.js:37-47 | a seeded row keeps the given id, name, icon and color, and `enabled` takes its default, 1 |
| `Platforms.Seeded` | server/index.js:48-57 | seeding gives exactly seven rows with ids x, instagram, youtube, tiktok, substack-ai, substack-rtl and medium, in that order. All are enabled and the ids are distinct |
| `Platforms.Enabled` | server/index.js:195-202 | GET /api/platforms lists only rows of the table with `enabled = 1`, and every such row. It keeps the ids distinct, so no row is listed twice. When all rows are enabled it lists the whole table |
| `Platforms.EnabledAppend` | server/index.js:197 | the listing keeps table order: filtering a concatenation gives the filtered parts in order |
| `Platforms.SeededAllEnabled` | server/index.js:37-57 | right after seeding, the platform listing is the whole seeded table |
| `Server.Kanban.Open` | server/index.js:15-42 | opening the database keeps the rows already stored. `CREATE TABLE IF NOT EXISTS` changes nothing |
| `Server.Kanban.SeedPlatforms` | server/index.js:44-58 | an empty platforms table becomes the seven seeded rows. A non-empty one and the cards table are untouched |
| `Server.Kanban.Create` | server/index.js:106-123 | the in-place insert gives the reply and table of `CardOps.CreateStep` and keeps both primary keys |
| `Server.Kanban.Update` | server/index.js:126-154 | the in-place update gives the reply and table of `CardOps.UpdateStep` |
| `Server.Kanban.Move` | server/index.js:157-177 | the in-place move gives the reply and table of `CardOps.MoveStep` |
| `Server.Kanban.Delete` | server/index.js:180-192 | the in-place delete gives the reply and table of `CardOps.DeleteStep` |

## Left out

- Express wiring, CORS, the JSON body parser, static files and the `/` route
  (server/index.js:9-12, 219-222): HTTP plumbing with no effect on the tables.
- `app.listen` and the SIGINT handler that closes the database (server/index.js:224-233):
  process lifecycle.
- The SQLite engine, the database file path and the `better-sqlite3` binding: the tables
  are an in-memory map and a sequence, and SQL semantics are the specification.
  Storage failures other than constraint violations (I/O errors) are not modelled. The
  read-only routes therefore never answer 500; only the get route can answer 404.
- Wall-clock values and the one-second granularity of `CURRENT_TIMESTAMP`: time is a
  natural-number parameter. `Date.now()` is replaced by the `generatedId` parameter. The
  model does not capture that this id is the millisecond clock, so two creates in the same
  millisecond collide.
- Non-string JSON values in request bodies (numbers, booleans, objects): fields are
  absent, null or strings. SQLite's dynamic typing of such values is not modelled.
- Response bodies and `err.message` texts: a failure is the opaque `ServerError`.
- Queries.Listing: rows with equal `created_at` are listed in some order the model
  chooses; SQL leaves that order open. The listings are ghost functions for that reason.
- Stats.GroupBy: the groups appear in the order their key first occurs when the listing
  is read from its last row back to its first.
  SQL leaves the order of `GROUP BY` rows open. The result is the same set of
  `{key, count}` rows.
- The statistics route's five separate queries and the update-then-reselect of the
  update and create routes are each modelled as one atomic step. The server is
  single-threaded.
- NULL in the `description`, `type` or `priority` columns of rows written by other
  programs: the routes never store NULL there, so those columns are plain strings.
