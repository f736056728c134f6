# Quest store model

A Dafny model of the quest service in `src/main.rs`: four HTTP handlers over
two SQL tables. `quests` holds quest records (`id`, `artist`, `poem`, an
optional `next` successor id) keyed by id; `images` holds image rows
(`id` assigned by storage, `quest_id`, opaque `data` bytes). The handlers:

- **read quest** looks a quest up by id and replies with the bare record, or
  with `{success: false, message: "quest not found"}`;
- **read images** replies with the quest's images, `ORDER BY id ASC`;
- **create** refuses a duplicate id (`"quest already exists"`), otherwise
  inserts the quest row and then one image row per payload, in payload order,
  and replies `"created successfully"`;
- **update** overwrites `artist`, `poem` and `next` of the row with the given
  id and replies by the affected-row count: `"updated successfully"` or
  `"no quest with that id found"`.

Files:

- `entities.dfy` (module `Entities`): `Quest`, `Image`, `Message`,
  `CreateQuest`, the three-case `Reply` body, and the five message constants
  with the source's exact strings.
- `tables.dfy` (module `Tables`): the two tables as a value `Db` (the
  `quests` map, the `images` sequence in insertion order, and the next
  storage-assigned image id), the store invariant `Valid`, the `WHERE
  quest_id = …` filter `ImagesOf`, the `ORDER BY id ASC` sort `SortById`, and
  `NewImages`, the rows a create inserts.
- `handlers.dfy` (module `Handlers`): each handler as a function from the
  store before the request to the reply (reads) or to the new store and the
  reply (`Create`, `Update`).
- `properties.dfy` (module `HandlerProperties`): the guarantees, as lemmas.
- `store.dfy` (module `QuestStore`): class `Store` holding the two tables as
  fields. `CreateQuest` and `UpdateQuest` update those fields statement by
  statement, as the handlers issue their SQL: a guarded quest insert, then a
  loop that appends one image row per payload. Each method is proved to leave
  exactly the state, and give exactly the reply, of the matching function in
  `Handlers`. `Walkthrough` is a client that creates, reads, re-creates and
  updates a quest.

Storage assigns image ids from a counter that starts at 1 and goes up by one
per insert; no operation deletes rows. Under the store invariant the image
ids increase along the table, so ordering a gallery by id gives its
insertion order (`ReadImagesInInsertionOrder`). This is the ordering the
read-images handler depends on.

## Model

| member | source | states |
|---|---|---|
| `Tables.ImagesOf` | src/main.rs:82-86 | the rows kept are exactly the image rows whose `quest_id` is the argument |
| `Tables.SortById` | src/main.rs:84 | `ORDER BY id ASC`: the result is ordered by id and is a permutation of the input |
| `Tables.SortByIdOfAscending` | src/main.rs:84 | on rows already in id order the ordering returns them unchanged |
| `Tables.ImagesOfKeepsAscending` | src/main.rs:82-86 | filtering by quest keeps ids strictly increasing |
| `Tables.ImagesOfConcat` | src/main.rs:82-86 | the filter distributes over appending rows |
| `Handlers.ReadQuest` | src/main.rs:57-74 | a hit replies with the stored record; a miss replies with the "quest not found" message |
| `Handlers.ReadImages` | src/main.rs:82-92 | always a gallery, never a message; holds exactly the quest's images, in ascending id order |
| `HandlerProperties.RowsMatchingCountsRows` | src/main.rs:153-163 | in a valid store the update's affected-row count is the number of `quests` rows whose `id` column equals the given id |
| `Tables.NewImages` | src/main.rs:128-137 | the rows a create inserts all belong to its quest, have ids in order from the next id to be assigned, and are strictly increasing |
| `HandlerProperties.NewImagesGallery` | src/main.rs:128-137 | the inserted rows all belong to the new quest and carry the payloads in payload order |
| `Handlers.Create` | src/main.rs:102-145 | a message reply that succeeds exactly when the id is fresh; the quest keys gain the id; every old quest row and the old image table are kept as a prefix; a refused create changes nothing |
| `Handlers.Update` | src/main.rs:153-181 | a message reply that succeeds exactly when the id is stored; the image table, the id counter, the key set, every row's id and every other row are unchanged; a miss changes nothing |
| `HandlerProperties.ReadImagesInInsertionOrder` | src/main.rs:82-92 | in a valid store the gallery is the quest's rows in insertion order, ids strictly increasing |
| `HandlerProperties.CreateDuplicate` | src/main.rs:102-115 | a create for a stored id replies "quest already exists" and leaves both tables unchanged |
| `HandlerProperties.CreateFresh` | src/main.rs:117-145 | a fresh create adds the quest as supplied, appends one image per payload in payload order, tagged with the quest id, in a valid store with ids above every existing id, and replies "created successfully" |
| `HandlerProperties.CreatePreservesValid` | src/main.rs:117-137 | create keeps the store invariant: increasing image ids, every image's quest stored |
| `HandlerProperties.CreateThenReadImages` | src/main.rs:128-137 | after a fresh create the new quest's gallery is its payloads, in the order supplied |
| `HandlerProperties.CreateThenReadQuest` | src/main.rs:117-126 | after a fresh create reading the quest yields the supplied record |
| `HandlerProperties.CreateKeepsOthers` | src/main.rs:117-137 | in any store, a create changes no other quest and no other quest's gallery |
| `HandlerProperties.CreateTwice` | src/main.rs:102-145 | a second create with the same id replies "quest already exists" and leaves the store as the first left it |
| `HandlerProperties.UpdateHit` | src/main.rs:153-172 | an update of a stored quest overwrites artist, poem and next only; the id, other quests and the image table are unchanged; replies "updated successfully" |
| `HandlerProperties.UpdateMiss` | src/main.rs:163-181 | an update of an absent id replies "no quest with that id found" and changes nothing |
| `HandlerProperties.UpdatePreservesValid` | src/main.rs:153-163 | update keeps the store invariant |
| `HandlerProperties.UpdateThenRead` | src/main.rs:153-163 | after an update reading the quest yields the new record; every gallery reads as before |
| `HandlerProperties.DanglingNextOnCreate` | src/main.rs:117-126 | a create whose `next` names no stored quest succeeds, on any store, and stores `next` as given |
| `HandlerProperties.DanglingNextOnUpdate` | src/main.rs:153-172 | an update whose `next` names no stored quest succeeds and stores `next` as given |
| `QuestStore.Store.CreateQuest` | src/main.rs:102-145 | the in-place create leaves the state and gives the reply of `Create`; a duplicate changes nothing; keeps the invariant |
| `QuestStore.Store.UpdateQuest` | src/main.rs:153-181 | the in-place update leaves the state and gives the reply of `Update`; the image table and the quest's id are untouched; keeps the invariant |

## Left out

- HTTP routing, query and body extraction and JSON serialisation (src/main.rs:52-56, 64-73, 90-92, 194-201): transport and library code. The `Questname` query shape (src/main.rs:7-10) is modelled as the `id` argument of the read functions.
- The two static HTML routes (src/main.rs:184-192): they read files from disk.
- The connection pool, the `with_data!` macro and `src/db.rs`: sqlx plumbing with no logic of its own.
- Storage failures and their panics. The read-quest handler also folds a storage error into "quest not found" (src/main.rs:58-61); storage here never fails, so that path does not appear.
- Exhaustion of the 64-bit image id space: image ids are unbounded integers. Running out of ids is a storage failure.
- The creation of the tables: the source assumes the database exists. The model starts from two empty tables, with image ids from 1.
- Concurrency: async handlers sharing the pool, and the race between the duplicate check and the insert (src/main.rs:102-126). The model is sequential, so each create runs without interruption. A create that fails partway through its image loop is also not modelled.
- Transactions with rollback, base64 image encoding and distinct HTTP status codes are improvements the source does not have. They are not modelled.
