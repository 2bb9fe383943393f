# Order store and FAQ loader of the customer-support exercises

This project models the two pieces of sequential logic in the pydantic-ai
customer-support exercises:

- **The order store** (`excercise/tools/orders_management.py`): one SQLite table
  `orders` with the primary key `order_id` and the columns `username`, `item`,
  `quantity` and `status`. `initialize_db` creates the table if it is missing.
  `create_order` inserts a row with status "Utworzone" under the first 8
  characters of a fresh UUID. `get_order_status` reads the status of the row
  matching both `order_id` and `username`. `cancel_order` sets that row's status
  to "Anulowane". `initialize_db` returns nothing; the other three functions
  return a Polish sentence.
- **The FAQ loader** (`samples/qdrant_load.py`): it makes sure the Qdrant
  collection `customer-service-robot-support` exists (384-dimensional vectors,
  cosine distance). Then, only if the collection holds no points, it turns each
  dataset item into a point and upserts the points in batches of at most 100,
  every one full except the last. A point has the item's position as its id,
  an embedding of `description + "\n" + dialogue` as its vector, and a payload
  with the original id, description and dialogue.

Files:

- `text.dfy` (module `Text`): the substring predicate `Contains`, used to state
  what the messages mention. It also renders an `int` the way Python's `str`
  does, with a parser that inverts it.
- `orders.dfy` (module `Orders`): the table as a `map` from `order_id` to the
  rest of the row. It has the `INSERT`, `SELECT` and `UPDATE` statements as
  functions, the four messages, and lemmas about all of these. The class
  `OrderDb` holds `tableExists` and `rows` and has one method per Python
  function. `Walkthrough` is a client that checks the contracts compose
  across create, status and cancel.
- `qdrant_load.dfy` (module `QdrantLoad`): items, points, the batching
  function `Chunks`, and `UpsertAll` (what the store does with an upsert). It
  includes lemmas on batch sizes, order and the points stored. The class
  `VectorStore` holds the collections and a log of upsert calls.
  `EnsureCollection`, `LoadDataset` and `UpsertInBatches` are the script's three
  steps, and `Run` is the whole script.

How the environment is modelled:

- The UUID is a parameter: the 36-character text of `uuid.uuid4()`.
- The embedding model is a function parameter `encode: string -> Vector`.
- The database file is the `OrderDb` object. Its constructor is a file without
  the table; `Open` is a file whose table already holds rows.
- The Qdrant server is the `VectorStore` object. The dataset's train split is a
  sequence of `Item`.
- The dataset `id` field is modelled as an `int`. The loader only copies it into
  the payload.

What the code does, and the model with it:

- The statuses written are "Utworzone" and "Anulowane".
- `create_order` can raise. If the 8-character prefix is already a key,
  `sqlite3` raises `IntegrityError`. If the quantity does not fit SQLite's
  64-bit INTEGER, binding it raises `OverflowError`. The table is then
  unchanged.
- No storage error is caught.
- Nothing serialises concurrent access.

## Model

| member | source | states |
|---|---|---|
| `Orders.OrderDb.InitializeDb` | excercise/tools/orders_management.py:7-20 | afterwards the table exists and the rows are exactly the old rows, so calling it on an existing table is idempotent |
| `Orders.Insert` | excercise/tools/orders_management.py:29-35 | an out-of-range quantity raises OverflowError and a taken key raises IntegrityError; otherwise exactly one row is added under the new key, holding the given row, and every old row keeps its value |
| `Orders.OrderDb.CreateOrder` | excercise/tools/orders_management.py:23-38 | the id is the 8-character prefix of the UUID text; it succeeds exactly when that id is absent and the quantity fits; on success the table gains one row (user, item, quantity, "Utworzone") and the reply is the creation message; on an exception the rows are unchanged; well-formed tables stay well formed |
| `Orders.CreatedMessage` | excercise/tools/orders_management.py:37 | the creation message contains the order id, the item and the decimal text of the quantity, and is not a not-found message |
| `Orders.MatchingKeys` | excercise/tools/orders_management.py:46 | the rows matching `order_id = ? AND username = ?` are the one row owned by that user under that key, or none, so the match count is 1 or 0 |
| `Orders.SelectStatus` | excercise/tools/orders_management.py:45-47 | a row is fetched exactly when the user owns that order id, and the value fetched is that row's status |
| `Orders.OrderDb.GetOrderStatus` | excercise/tools/orders_management.py:41-53 | the rows do not change; if the user owns the order the reply is the status message with that row's status, otherwise it is the not-found message for the id and user |
| `Orders.StatusMessage` | excercise/tools/orders_management.py:51 | the status message contains the order id and the status, and is not a not-found message |
| `Orders.NotFoundMessage` | excercise/tools/orders_management.py:53 | the not-found message contains the order id and the user name, and is recognisable as not-found by its prefix |
| `Orders.NotFoundStartsWithN` | excercise/tools/orders_management.py:53 | helper for the not-found prefix test: a message whose first letter is not 'N' is never taken for a not-found message |
| `Orders.UpdateStatus` | excercise/tools/orders_management.py:61 | the UPDATE keeps the set of keys; if the user owns the id, exactly that row gets the new status; every other row, and the user, item and quantity of every row, stay as they were; with no owned row the table is unchanged |
| `Orders.OrderDb.CancelOrder` | excercise/tools/orders_management.py:56-68 | the new rows are the UPDATE of the old ones; if the user owned the order, only its status becomes "Anulowane" and the reply is the cancellation message with the reason; otherwise the rows are unchanged and the reply is the not-found message; the reason is never stored |
| `Orders.CancelledMessage` | excercise/tools/orders_management.py:68 | the cancellation message contains the order id and the reason, and is neither a not-found message nor equal to any status message, so a caller can tell the three replies apart |
| `Orders.GetStatusAfterCreate` | excercise/tools/orders_management.py:26-35 | after a successful insert, a status query by the owner returns "Utworzone", and a query under any other user name finds nothing |
| `Orders.GetStatusAfterCancel` | excercise/tools/orders_management.py:61 | after the cancel UPDATE, the owner's status query returns "Anulowane"; if nothing matched, the query still finds nothing |
| `Orders.CancelTwice` | excercise/tools/orders_management.py:61-68 | a second cancel of the same order leaves the table as the first left it and still matches the same number of rows, so it reports success again |
| `Orders.WellFormedPreserved` | excercise/tools/orders_management.py:26-27 | inserting a created order under an 8-character id, and the cancel UPDATE, keep every key 8 characters long and every status "Utworzone" or "Anulowane" |
| `Text.NatToDecimal` | excercise/tools/orders_management.py:37 | a natural number's text is a non-empty string of digits with no leading zero, and it starts with '0' only for zero |
| `Text.IntToString` | excercise/tools/orders_management.py:37 | an integer's text is non-empty, starts with '-' exactly for negative numbers, and is digits apart from that sign |
| `Text.DecimalRoundTrip` | excercise/tools/orders_management.py:37 | reading the digits of a natural number back gives that number |
| `Text.IntToStringRoundTrip` | excercise/tools/orders_management.py:37 | parsing the text of any integer gives that integer back |
| `Text.IntToStringInjective` | excercise/tools/orders_management.py:37 | different quantities get different texts in the creation message |
| `QdrantLoad.Points` | samples/qdrant_load.py:57-78 | there is one point per dataset item |
| `QdrantLoad.PointsIdentity` | samples/qdrant_load.py:59-75 | point i has id i, so ids are pairwise distinct whatever the dataset ids are; its payload holds the item's id, description and dialogue; its vector is the embedding of description, line break, dialogue |
| `QdrantLoad.FlattenChunks` | samples/qdrant_load.py:57-97 | concatenating the batches in order gives back every point exactly once, in dataset order |
| `QdrantLoad.ChunkSizes` | samples/qdrant_load.py:81-97 | no batch is empty or larger than 100, every batch but the last has exactly 100 points, and the number of batches is n/100 rounded up |
| `QdrantLoad.ChunksAppend` | samples/qdrant_load.py:81-97 | after a whole number of full batches, flushing one more batch of 1 to 100 points appends exactly that batch to the batching |
| `QdrantLoad.UpsertAllAppend` | samples/qdrant_load.py:82-85 | upserting two batches one after the other stores the same as upserting their concatenation |
| `QdrantLoad.UpsertPositions` | samples/qdrant_load.py:71-78 | upserting into an empty collection points whose ids are their positions stores exactly the ids 0..n-1, each holding its own point |
| `QdrantLoad.LoadedCollection` | samples/qdrant_load.py:71-99 | after all points are upserted into an empty collection, it holds exactly one point per item, under the item's position, so its point count equals the number of items |
| `QdrantLoad.SendBatch` | samples/qdrant_load.py:81-97 | one flush extends the upsert log by exactly one call with that batch, and extends the stored points by that batch |
| `QdrantLoad.VectorStore.CollectionNames` | samples/qdrant_load.py:28 | the names of the existing collections, one per collection |
| `QdrantLoad.VectorStore.PointsCount` | samples/qdrant_load.py:45-46 | the number of points the collection stores; it is zero exactly when the collection holds no point, which is the skip test |
| `QdrantLoad.VectorStore.CreateCollection` | samples/qdrant_load.py:33-39 | the collection that did not exist is added with the given vector size and distance and no points; the log is unchanged |
| `QdrantLoad.VectorStore.Upsert` | samples/qdrant_load.py:82-85 | only the named collection's points change, by upserting the points, and the call is appended to the log |
| `QdrantLoad.EnsureCollection` | samples/qdrant_load.py:28-42 | the collection is created (384 dimensions, cosine) exactly when its name was absent; otherwise the collections are unchanged; nothing is upserted |
| `QdrantLoad.UpsertInBatches` | samples/qdrant_load.py:52-97 | the upsert calls are the dataset's points cut into batches, in order; the collection ends with those points; `total_points` equals the number of items |
| `QdrantLoad.LoadDataset` | samples/qdrant_load.py:44-99 | if the collection already had points, the result is a skip with that count and nothing changes; otherwise the batches are sent as above, the result is the number of items loaded, and the collection's point count equals the number of items |
| `QdrantLoad.Run` | samples/qdrant_load.py:27-99 | afterwards the collection exists, and if it was created it has size 384 and cosine distance, while an existing one keeps its size and distance; the load is skipped exactly when the collection existed and held points, and then the report carries that point count and nothing changes; otherwise the log gets the batches, the collection holds exactly the upserted points and its point count is the number of items; the set of collections gains only this one, and no other collection changes |

## Left out

- SQLite connection handling (`connect`, `commit`, `close`) and the path
  `orders.db`: the `OrderDb` object stands for the file and its table.
- UUID randomness: the UUID text is a parameter. The model covers a collision
  of its 8-character prefix with an existing key, which raises
  `IntegrityError`; it does not say how likely that is.
- `Orders.Insert`: its `OverflowError` case is the `sqlite3` driver's handling
  of Python integers beyond 64 bits. No line of the repository contains it.
- Exceptions from the storage layer other than the two above (disk or lock
  errors): the code does not handle them, so they are not modelled.
- Concurrent access to the database: the code has no locking of its own; each
  method is modelled as one atomic step.
- Validation of `quantity`: the code has none, and the model adds none.
- The `print` calls of the loader (lines 14, 40, 42, 49, 87, 97, 99), the
  environment variables and the client connection (lines 7-12), `load_dataset`
  (line 17), and loading the sentence-transformer model (line 24): these are
  I/O and library calls. The dataset and the embedding function are
  parameters.
- `QdrantLoad.VectorStore.PointsCount`: `points_count` is taken to be the exact
  number of stored points. The server may report an approximate or lagging
  count; the model does not capture that.
- The vector database's own behaviour beyond storing points by id: checking
  vector dimensions, the ordering of search results, persistence.
- `model.encode(...).tolist()`: floating-point embeddings are an uninterpreted
  function from text to a sequence of reals.
- The agent files, the evaluation datasets, the FAQ search tool
  (`solution/tools/faq_tool.py`, `samples/qdrant_search.py`) and
  `samples/semantic_similarity.py`: these are calls to hosted language models,
  vector search and numpy floating point, with no local logic to verify.
