/** The loader that fills the FAQ vector collection from the dialogue dataset:
    make sure the collection exists, and if it holds no points yet, turn every
    dataset item into a point (an embedding of its text plus a payload) and
    upsert the points in batches of at most 100. The vector store is modelled by
    its collections and a log of the upsert calls it received; the embedding
    model is a function given as a parameter. */
module QdrantLoad {

  type Vector = seq<real>

  datatype Distance = Cosine | Euclid | Dot | Manhattan

  /** One record of the dataset's `train` split. Only the loader's three fields
      are modelled; `id` values repeat in the dataset. */
  datatype Item = Item(id: int, description: string, dialogue: string)

  datatype Payload = Payload(originalId: int, description: string, dialogue: string)

  datatype Point = Point(id: nat, vector: Vector, payload: Payload)

  /** A collection's configuration and its points, keyed by point id. */
  datatype Collection = Collection(vectorSize: nat, distance: Distance, points: map<nat, Point>)

  /** One call of `upsert`: the collection and the points sent. */
  datatype UpsertCall = UpsertCall(collection: string, points: seq<Point>)

  /** What the run ends with: the skip because the collection already held
      points, or the number of points loaded. */
  datatype LoadReport = Skipped(existingPoints: nat) | Loaded(totalPoints: nat)

  const CollectionName: string := "customer-service-robot-support"
  const VectorSize: nat := 384
  const BatchSize: nat := 100

  // ---------------------------------------------------------------------------
  // Points and batches, as values
  // ---------------------------------------------------------------------------

  /** The text that is embedded for an item: the description, a line break and
      the dialogue. */
  function TextToEmbed(item: Item): string
  {
    item.description + "\n" + item.dialogue
  }

  /** The point made from the item at position `idx`: the position is its id,
      the dataset's own id goes into the payload. */
  function ToPoint(encode: string -> Vector, idx: nat, item: Item): Point
  {
    Point(idx, encode(TextToEmbed(item)), Payload(item.id, item.description, item.dialogue))
  }

  /** The points for the whole dataset, in dataset order. */
  function Points(encode: string -> Vector, items: seq<Item>): (ps: seq<Point>)
    ensures |ps| == |items|
  {
    seq(|items|, i requires 0 <= i < |items| => ToPoint(encode, i, items[i]))
  }

  /** The dataset cut into consecutive batches: full batches of `BatchSize`,
      then the rest if there is any. */
  function Chunks<T>(s: seq<T>): seq<seq<T>>
    decreases |s|
  {
    if s == [] then []
    else if |s| <= BatchSize then [s]
    else [s[..BatchSize]] + Chunks(s[BatchSize..])
  }

  function Flatten<T>(batches: seq<seq<T>>): seq<T>
  {
    if batches == [] then [] else batches[0] + Flatten(batches[1..])
  }

  /** `upsert` with the given points, one after the other: a point replaces any
      point with the same id. */
  function UpsertAll(m: map<nat, Point>, ps: seq<Point>): map<nat, Point>
    decreases |ps|
  {
    if ps == [] then m else UpsertAll(m[ps[0].id := ps[0]], ps[1..])
  }

  /** The log entries for sending each batch to `name`. */
  function Calls(name: string, batches: seq<seq<Point>>): (calls: seq<UpsertCall>)
    ensures |calls| == |batches|
    ensures forall j :: 0 <= j < |batches| ==> calls[j] == UpsertCall(name, batches[j])
  {
    seq(|batches|, j requires 0 <= j < |batches| => UpsertCall(name, batches[j]))
  }

  // ---------------------------------------------------------------------------
  // Properties of the batching
  // ---------------------------------------------------------------------------

  /** Sending the batches in order sends every point once, in order. */
  lemma {:induction false} FlattenChunks<T>(s: seq<T>)
    ensures Flatten(Chunks(s)) == s
    decreases |s|
  {
    if s != [] && |s| > BatchSize {
      FlattenChunks(s[BatchSize..]);
      assert s == s[..BatchSize] + s[BatchSize..];
    }
  }

  /** No batch is empty, none exceeds `BatchSize`, and all but the last are full;
      there are as many batches as `|s| / BatchSize` rounded up. */
  lemma {:induction false} ChunkSizes<T>(s: seq<T>)
    ensures |Chunks(s)| == (|s| + BatchSize - 1) / BatchSize
    ensures forall j :: 0 <= j < |Chunks(s)| ==> 0 < |Chunks(s)[j]| <= BatchSize
    ensures forall j :: 0 <= j < |Chunks(s)| - 1 ==> |Chunks(s)[j]| == BatchSize
    decreases |s|
  {
    if s != [] && |s| > BatchSize {
      ChunkSizes(s[BatchSize..]);
      assert forall j :: 1 <= j < |Chunks(s)| ==> Chunks(s)[j] == Chunks(s[BatchSize..])[j - 1];
    }
  }

  /** Cutting a whole number of full batches and then one more batch of at most
      `BatchSize`: the batches of the longer sequence are the old ones followed by
      the new one. This is the step the loader's loop takes at each flush. */
  lemma {:induction false} ChunksAppend<T>(s: seq<T>, full: nat, batch: seq<T>)
    requires |s| == BatchSize * full
    requires 0 < |batch| <= BatchSize
    ensures Chunks(s + batch) == Chunks(s) + [batch]
    decreases |s|
  {
    if s == [] {
      assert s + batch == batch;
    } else {
      assert |s| >= BatchSize;
      assert (s + batch)[..BatchSize] == s[..BatchSize];
      assert (s + batch)[BatchSize..] == s[BatchSize..] + batch;
      if |s| == BatchSize {
        assert s[..BatchSize] == s;
        assert s[BatchSize..] + batch == batch;
        assert Chunks(s + batch) == [s] + [batch];
      } else {
        ChunksAppend(s[BatchSize..], full - 1, batch);
        assert Chunks(s + batch) == [s[..BatchSize]] + (Chunks(s[BatchSize..]) + [batch]);
      }
    }
  }

  /** Upserting `a` then `b` is upserting `a + b`. */
  lemma {:induction false} UpsertAllAppend(m: map<nat, Point>, a: seq<Point>, b: seq<Point>)
    ensures UpsertAll(UpsertAll(m, a), b) == UpsertAll(m, a + b)
    decreases |a|
  {
    if a != [] {
      UpsertAllAppend(m[a[0].id := a[0]], a[1..], b);
      assert (a + b)[0] == a[0];
      assert (a + b)[1..] == a[1..] + b;
    } else {
      assert a + b == b;
    }
  }

  /** Upserting one more point after `ps`. */
  lemma UpsertAllSnoc(m: map<nat, Point>, ps: seq<Point>, p: Point)
    ensures UpsertAll(m, ps + [p]) == UpsertAll(m, ps)[p.id := p]
  {
    UpsertAllAppend(m, ps, [p]);
    assert UpsertAll(UpsertAll(m, ps), [p]) == UpsertAll(UpsertAll(m, ps)[p.id := p], []);
  }

  /** Upserting, into an empty collection, points whose ids are their positions
      stores exactly the ids `0..|ps|-1`, each with its own point. */
  lemma {:induction false} UpsertPositions(ps: seq<Point>)
    requires forall i :: 0 <= i < |ps| ==> ps[i].id == i
    ensures forall k :: k in UpsertAll(map[], ps) <==> 0 <= k < |ps|
    ensures forall i :: 0 <= i < |ps| ==> UpsertAll(map[], ps)[i] == ps[i]
    decreases |ps|
  {
    if ps != [] {
      var init, last := ps[..|ps| - 1], ps[|ps| - 1];
      UpsertPositions(init);
      assert ps == init + [last];
      UpsertAllSnoc(map[], init, last);
      var before, after := UpsertAll(map[], init), UpsertAll(map[], ps);
      assert last.id == |ps| - 1;
      assert after == before[|ps| - 1 := last];
      assert forall k :: k in after <==> k in before || k == |ps| - 1;
      forall i | 0 <= i < |ps| - 1
        ensures after[i] == ps[i]
      {
        assert before[i] == init[i];
      }
    }
  }

  /** The point ids `from`, `from + 1`, ..., `from + n - 1`. */
  function IdRange(from: nat, n: nat): (ids: set<nat>)
    ensures |ids| == n
    ensures forall k :: k in ids <==> from <= k < from + n
  {
    if n == 0 then {} else IdRange(from, n - 1) + {from + n - 1}
  }

  /** The points of a dataset have the ids `0..n-1`: pairwise distinct whatever
      the dataset's own ids are, and each payload keeps its item's id,
      description and dialogue. */
  lemma PointsIdentity(encode: string -> Vector, items: seq<Item>, i: nat, j: nat)
    requires i < |items| && j < |items|
    ensures Points(encode, items)[i].id == i
    ensures i != j ==> Points(encode, items)[i].id != Points(encode, items)[j].id
    ensures Points(encode, items)[i].payload == Payload(items[i].id, items[i].description, items[i].dialogue)
    ensures Points(encode, items)[i].vector == encode(items[i].description + "\n" + items[i].dialogue)
  {
  }

  /** Upserting every point of the dataset into an empty collection leaves it
      holding exactly one point per item, under the item's position. */
  lemma LoadedCollection(encode: string -> Vector, items: seq<Item>)
    ensures var r := UpsertAll(map[], Points(encode, items));
            && r.Keys == IdRange(0, |items|)
            && |r| == |items|
            && (forall i :: 0 <= i < |items| ==> r[i] == Points(encode, items)[i])
  {
    UpsertPositions(Points(encode, items));
    assert UpsertAll(map[], Points(encode, items)).Keys == IdRange(0, |items|);
  }

  // ---------------------------------------------------------------------------
  // The vector store
  // ---------------------------------------------------------------------------

  /** The vector database as the loader sees it: its collections, and every
      upsert call it has received. */
  class VectorStore {
    var collections: map<string, Collection>
    var log: seq<UpsertCall>

    constructor (existing: map<string, Collection>)
      ensures collections == existing && log == []
    {
      collections := existing;
      log := [];
    }

    /** `get_collections()`, reduced to the names: one name per existing
        collection. */
    function CollectionNames(): (names: set<string>)
      reads this
      ensures forall name :: name in names <==> name in collections
      ensures |names| == |collections|
    {
      collections.Keys
    }

    /** `get_collection(name).points_count`, taken to be the exact number of
        stored points: it is zero exactly when the collection holds no point. */
    function PointsCount(name: string): (count: nat)
      reads this
      requires name in collections
      ensures count == |collections[name].points|
      ensures count == 0 <==> collections[name].points == map[]
    {
      |collections[name].points|
    }

    /** `create_collection`: a new, empty collection. */
    method CreateCollection(name: string, size: nat, distance: Distance)
      requires name !in collections
      modifies this
      ensures collections == old(collections)[name := Collection(size, distance, map[])]
      ensures log == old(log)
    {
      collections := collections[name := Collection(size, distance, map[])];
    }

    /** `upsert`: the points are written into the collection and the call is
        logged. */
    method Upsert(name: string, points: seq<Point>)
      requires name in collections
      modifies this
      ensures collections == old(collections)[name := old(collections)[name].(points := UpsertAll(old(collections)[name].points, points))]
      ensures log == old(log) + [UpsertCall(name, points)]
    {
      var c := collections[name];
      collections := collections[name := c.(points := UpsertAll(c.points, points))];
      log := log + [UpsertCall(name, points)];
    }
  }

  /** Creates the collection, 384-dimensional with cosine distance, only when no
      collection of that name exists. */
  method EnsureCollection(store: VectorStore, name: string) returns (created: bool)
    modifies store
    ensures created == (name !in old(store.collections))
    ensures created ==> store.collections == old(store.collections)[name := Collection(VectorSize, Cosine, map[])]
    ensures !created ==> store.collections == old(store.collections)
    ensures store.log == old(store.log)
  {
    var existing := store.CollectionNames();
    var collectionExists := name in existing;
    if !collectionExists {
      store.CreateCollection(name, VectorSize, Cosine);
    }
    created := !collectionExists;
  }

  /** Loads the dataset when the collection holds no points, and skips the load
      otherwise. */
  method LoadDataset(store: VectorStore, name: string, trainData: seq<Item>, encode: string -> Vector)
    returns (report: LoadReport)
    requires name in store.collections
    modifies store
    ensures name in store.collections
    ensures |old(store.collections)[name].points| > 0 ==>
              && report == Skipped(|old(store.collections)[name].points|)
              && store.collections == old(store.collections)
              && store.log == old(store.log)
    ensures |old(store.collections)[name].points| == 0 ==>
              && report == Loaded(|trainData|)
              && store.log == old(store.log) + Calls(name, Chunks(Points(encode, trainData)))
              && store.collections == old(store.collections)[name :=
                   old(store.collections)[name].(points := UpsertAll(map[], Points(encode, trainData)))]
              && store.PointsCount(name) == |trainData|
  {
    var count := store.PointsCount(name);
    var isCollectionEmpty := count == 0;
    if !isCollectionEmpty {
      report := Skipped(count);
    } else {
      var totalPoints := UpsertInBatches(store, name, trainData, encode);
      LoadedCollection(encode, trainData);
      report := Loaded(totalPoints);
    }
  }

  /** The points of the dataset, in order, sent in batches of
      `BatchSize`, the last batch holding the rest; `totalPoints` counts what was
      sent. Starting from an empty collection, it ends holding every point. */
  method UpsertInBatches(store: VectorStore, name: string, trainData: seq<Item>, encode: string -> Vector)
    returns (totalPoints: nat)
    requires name in store.collections && store.collections[name].points == map[]
    modifies store
    ensures totalPoints == |trainData|
    ensures store.log == old(store.log) + Calls(name, Chunks(Points(encode, trainData)))
    ensures store.collections == old(store.collections)[name :=
              old(store.collections)[name].(points := UpsertAll(map[], Points(encode, trainData)))]
  {
    ghost var points := Points(encode, trainData);
    ghost var log0 := store.log;
    ghost var collections0 := store.collections;
    ghost var c0 := store.collections[name];
    totalPoints := 0;
    var currentBatch: seq<Point> := [];
    ghost var sent: seq<Point> := [];
    ghost var fullBatches: nat := 0;
    for idx := 0 to |trainData|
      invariant |sent| == totalPoints == BatchSize * fullBatches
      invariant totalPoints + |currentBatch| == idx
      invariant |currentBatch| < BatchSize
      invariant sent + currentBatch == points[..idx]
      invariant store.log == log0 + Calls(name, Chunks(sent))
      invariant store.collections == collections0[name := c0.(points := UpsertAll(map[], sent))]
    {
      var item := trainData[idx];
      var textToEmbed := item.description + "\n" + item.dialogue;
      var embedding := encode(textToEmbed);
      var payload := Payload(item.id, item.description, item.dialogue);
      assert points[..idx + 1] == points[..idx] + [Point(idx, embedding, payload)];
      currentBatch := currentBatch + [Point(idx, embedding, payload)];
      assert sent + currentBatch == points[..idx + 1];
      if |currentBatch| >= BatchSize {
        store.Upsert(name, currentBatch);
        SendBatch(name, sent, fullBatches, currentBatch);
        totalPoints := totalPoints + |currentBatch|;
        sent := sent + currentBatch;
        fullBatches := fullBatches + 1;
        currentBatch := [];
      }
    }
    if currentBatch != [] {
      store.Upsert(name, currentBatch);
      SendBatch(name, sent, fullBatches, currentBatch);
      totalPoints := totalPoints + |currentBatch|;
      sent := sent + currentBatch;
    }
    assert sent == points;
  }

  /** One flush of the loader's loop: sending the next batch after a whole
      number of full batches extends both the log and the stored points by
      exactly that batch. */
  lemma SendBatch(name: string, sent: seq<Point>, full: nat, batch: seq<Point>)
    requires |sent| == BatchSize * full && 0 < |batch| <= BatchSize
    ensures Calls(name, Chunks(sent + batch)) == Calls(name, Chunks(sent)) + [UpsertCall(name, batch)]
    ensures UpsertAll(map[], sent + batch) == UpsertAll(UpsertAll(map[], sent), batch)
  {
    ChunksAppend(sent, full, batch);
    UpsertAllAppend(map[], sent, batch);
  }

  /** The script: make sure the collection exists, then load it unless it
      already holds points. */
  method Run(store: VectorStore, trainData: seq<Item>, encode: string -> Vector) returns (report: LoadReport)
    modifies store
    ensures CollectionName in store.collections
    ensures CollectionName !in old(store.collections) ==>
              && store.collections[CollectionName].vectorSize == VectorSize
              && store.collections[CollectionName].distance == Cosine
    ensures report.Skipped? <==>
              CollectionName in old(store.collections) && |old(store.collections)[CollectionName].points| > 0
    ensures report.Skipped? ==> report == Skipped(|old(store.collections)[CollectionName].points|)
    ensures report.Skipped? ==> store.log == old(store.log) && store.collections == old(store.collections)
    ensures report.Loaded? ==>
              && report.totalPoints == |trainData|
              && store.log == old(store.log) + Calls(CollectionName, Chunks(Points(encode, trainData)))
              && store.collections[CollectionName].points == UpsertAll(map[], Points(encode, trainData))
              && store.PointsCount(CollectionName) == |trainData|
    ensures CollectionName in old(store.collections) ==>
              && store.collections[CollectionName].vectorSize == old(store.collections)[CollectionName].vectorSize
              && store.collections[CollectionName].distance == old(store.collections)[CollectionName].distance
    ensures store.collections.Keys == old(store.collections).Keys + {CollectionName}
    ensures forall other :: other in old(store.collections) && other != CollectionName ==>
              other in store.collections && store.collections[other] == old(store.collections)[other]
  {
    var created := EnsureCollection(store, CollectionName);
    report := LoadDataset(store, CollectionName, trainData, encode);
  }
}
