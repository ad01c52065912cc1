/** The clustering stage: every row of the dataset is classified and appended
    to the bucket of each cluster it is flagged for, row by row, each append a
    full load-update-write of the clustered store. The classifier is an oracle
    given as one outcome per row. */
module ClusterDataset {
  import opened Outcomes
  import opened Model
  import opened Utils

  /** The dataset's three columns, read by row index. */
  datatype Dataset = Dataset(tell: seq<Cell>, question: seq<Cell>, expected: seq<Cell>)

  /** What the classifier returns for one row, or that it raised. */
  datatype ClassifyOutcome = Classified(membership: Membership) | ClassifyFailed(message: string)

  /** A row that was classified and handed to the store. */
  datatype Placement = Placement(record: Record, membership: Membership)

  /** How the loop ended: over every row, or by re-raising a row's exception. */
  datatype Status = Finished | Raised(error: Exception)

  /** The classifier's JSON object decoded into a dict: the nine flags keyed by
      cluster name, in schema order. */
  function ResponseOf(m: Membership): (r: Response)
    ensures |r| == |Clusters|
    ensures DistinctKeys(r)
    ensures forall c :: Name(c) in FlaggedKeys(r) <==> Flag(m, c)
    ensures forall k :: k in FlaggedKeys(r) ==> ClusterNamed(k).Some? && Flag(m, ClusterNamed(k).value)
  {
    var r := seq(|Clusters|, i requires 0 <= i < |Clusters| => (Name(Clusters[i]), Flag(m, Clusters[i])));
    ClustersIndexed();
    forall i, j | 0 <= i < j < |r|
      ensures r[i].0 != r[j].0
    {
      assert ClusterNamed(r[i].0) == Some(Clusters[i]);
      assert ClusterNamed(r[j].0) == Some(Clusters[j]);
    }
    forall c
      ensures Name(c) in FlaggedKeys(r) <==> Flag(m, c)
    {
      var i := ClusterIndex(c);
      assert r[i] == (Name(c), Flag(m, c));
      if Name(c) in FlaggedKeys(r) {
        var j :| 0 <= j < |r| && r[j].1 && r[j].0 == Name(c);
        assert ClusterNamed(Name(Clusters[j])) == Some(Clusters[j]);
      }
    }
    forall k | k in FlaggedKeys(r)
      ensures ClusterNamed(k).Some? && Flag(m, ClusterNamed(k).value)
    {
      var j :| 0 <= j < |r| && r[j].1 && r[j].0 == k;
      assert ClusterNamed(k) == Some(Clusters[j]);
    }
    r
  }

  /** The body of the loop for row `i`, up to the store update: read the three
      cells, convert each with `str()`, classify. */
  function Row(data: Dataset, classify: seq<ClassifyOutcome>, i: nat): (r: Result<Placement>)
    requires i < |data.question| == |classify|
    ensures r.Ok? <==> i < |data.tell| && i < |data.expected| && classify[i].Classified?
    ensures r.Ok? ==> r.value.membership == classify[i].membership
    ensures r.Ok? ==> r.value.record == Record(Str(data.tell[i]), Str(data.question[i]), Str(data.expected[i]))
    ensures r.Err? && (i >= |data.tell| || i >= |data.expected|) ==> r.error == LookupError
    ensures r.Err? && i < |data.tell| && i < |data.expected| ==> r.error == ClassifierError
  {
    if i >= |data.tell| || i >= |data.expected| then Err(LookupError)
    else
      match classify[i]
      case ClassifyFailed(_) => Err(ClassifierError)
      case Classified(m) => Ok(Placement(Record(Str(data.tell[i]), Str(data.question[i]), Str(data.expected[i])), m))
  }

  /** The store after `append_to_clustered_json` has run for each placement in turn. */
  function PersistAll(store: FileState<ClusteredStore>, batch: seq<Placement>): FileState<ClusteredStore> {
    if |batch| == 0 then store
    else
      var last := batch[|batch| - 1];
      AppendToClusteredJson(PersistAll(store, batch[..|batch| - 1]), ResponseOf(last.membership), last.record)
  }

  /** The records of the batch flagged for `c`, in batch order. */
  function Members(batch: seq<Placement>, c: Cluster): seq<Record> {
    if |batch| == 0 then []
    else
      var last := batch[|batch| - 1];
      Members(batch[..|batch| - 1], c) + (if Flag(last.membership, c) then [last.record] else [])
  }

  /** `clustering_dataset`: processes rows 0, 1, ... in order; a row whose cells
      or classification fail stops the loop with that exception, after the
      rows before it have been persisted. Store failures are swallowed by the
      store helper, so they never stop the loop: the outcome does not depend
      on the store. */
  method ClusteringDataset(data: Dataset, classify: seq<ClassifyOutcome>, store0: FileState<ClusteredStore>)
    returns (done: seq<Placement>, status: Status, store: FileState<ClusteredStore>)
    requires |classify| == |data.question|
    ensures |done| <= |data.question|
    ensures forall j :: 0 <= j < |done| ==> Row(data, classify, j) == Ok(done[j])
    ensures status.Finished? <==> |done| == |data.question|
    ensures status.Raised? ==> Row(data, classify, |done|) == Err(status.error)
    ensures store == PersistAll(store0, done)
  {
    done, status, store := [], Finished, store0;
    var i := 0;
    while i < |data.question|
      invariant i == |done| <= |data.question|
      invariant forall j :: 0 <= j < i ==> Row(data, classify, j) == Ok(done[j])
      invariant store == PersistAll(store0, done)
    {
      var row := Row(data, classify, i);
      if row.Err? {
        status := Raised(row.error);
        return;
      }
      store := AppendToClusteredJson(store, ResponseOf(row.value.membership), row.value.record);
      assert (done + [row.value])[..i] == done;
      assert forall j :: 0 <= j < i ==> (done + [row.value])[j] == done[j];
      done := done + [row.value];
      i := i + 1;
    }
  }


  /** Persisting a batch in two parts is persisting it at once: each row's
      write is complete before the next row is handled. */
  lemma {:induction false} PersistAllAppend(store: FileState<ClusteredStore>, a: seq<Placement>, b: seq<Placement>)
    ensures PersistAll(store, a + b) == PersistAll(PersistAll(store, a), b)
    decreases |b|
  {
    if |b| == 0 {
      assert a + b == a;
    } else {
      var n := |b| - 1;
      assert (a + b)[..|a + b| - 1] == a + b[..n];
      assert (a + b)[|a + b| - 1] == b[n];
      PersistAllAppend(store, a, b[..n]);
    }
  }

  /** A store file that cannot be decoded or read stays as it was however many rows are processed. */
  lemma {:induction false} BrokenStoreUntouched(store: FileState<ClusteredStore>, batch: seq<Placement>)
    requires !Usable(store)
    ensures PersistAll(store, batch) == store
  {
    if |batch| > 0 {
      BrokenStoreUntouched(store, batch[..|batch| - 1]);
    }
  }

  /** An absent store behaves as an empty one once a row has been processed. */
  lemma {:induction false} MissingStoreStartsEmpty(batch: seq<Placement>)
    requires |batch| > 0
    ensures PersistAll(Missing, batch) == PersistAll(Parsed(map[]), batch)
  {
    if |batch| > 1 {
      MissingStoreStartsEmpty(batch[..|batch| - 1]);
    }
  }

  /** What the buckets of an empty store look like after a batch. */
  ghost predicate BucketsAre(doc: ClusteredStore, batch: seq<Placement>) {
    && (forall k :: k in doc ==> ClusterNamed(k).Some?)
    && (forall c :: Name(c) in doc <==> Members(batch, c) != [])
    && (forall c :: Name(c) in doc ==> doc[Name(c)] == Members(batch, c))
  }

  /** One more row keeps the buckets equal to the members. */
  lemma BucketsStep(doc: ClusteredStore, batch: seq<Placement>, p: Placement)
    requires BucketsAre(doc, batch)
    ensures BucketsAre(UpdateClusters(doc, ResponseOf(p.membership), p.record), batch + [p])
  {
    var response := ResponseOf(p.membership);
    var after := UpdateClusters(doc, response, p.record);
    var batch' := batch + [p];
    assert batch'[..|batch'| - 1] == batch;
    assert after.Keys == doc.Keys + FlaggedKeys(response);
    forall k | k in after
      ensures ClusterNamed(k).Some?
    {
      if k !in doc {
        assert k in FlaggedKeys(response);
      }
    }
    forall c
      ensures Name(c) in after <==> Members(batch', c) != []
      ensures Name(c) in after ==> after[Name(c)] == Members(batch', c)
    {
      var flagged := Flag(p.membership, c);
      assert Members(batch', c) == Members(batch, c) + (if flagged then [p.record] else []);
      assert Name(c) in FlaggedKeys(response) <==> flagged;
      if Name(c) in after {
        assert after[Name(c)] == Bucket(doc, Name(c)) + (if flagged then [p.record] else []);
        assert Bucket(doc, Name(c)) == Members(batch, c);
      }
    }
  }

  /** From an empty store, the bucket of each cluster is exactly the records
      flagged for it, in input order, and a bucket exists exactly when it is
      not empty; no key other than a cluster name appears. */
  lemma {:induction false} BucketsFromEmpty(batch: seq<Placement>)
    ensures PersistAll(Parsed(map[]), batch).Parsed?
    ensures BucketsAre(PersistAll(Parsed(map[]), batch).doc, batch)
  {
    if |batch| > 0 {
      var n := |batch| - 1;
      BucketsFromEmpty(batch[..n]);
      var before := PersistAll(Parsed(map[]), batch[..n]);
      assert PersistAll(Parsed(map[]), batch) == Parsed(UpdateClusters(before.doc, ResponseOf(batch[n].membership), batch[n].record));
      BucketsStep(before.doc, batch[..n], batch[n]);
      assert batch[..n] + [batch[n]] == batch;
    }
  }

  /** A record is in the batch's members for every cluster it is flagged for. */
  lemma {:induction false} FlaggedRecordIsMember(batch: seq<Placement>, j: nat, c: Cluster)
    requires j < |batch| && Flag(batch[j].membership, c)
    ensures batch[j].record in Members(batch, c)
  {
    var n := |batch| - 1;
    if j < n {
      assert batch[..n][j] == batch[j];
      FlaggedRecordIsMember(batch[..n], j, c);
    }
  }

  /** A record flagged for several clusters lands in each of their buckets. */
  lemma RecordInEveryFlaggedBucket(batch: seq<Placement>, j: nat, c: Cluster)
    requires j < |batch| && Flag(batch[j].membership, c)
    ensures PersistAll(Parsed(map[]), batch).Parsed?
    ensures var doc := PersistAll(Parsed(map[]), batch).doc;
      Name(c) in doc && batch[j].record in doc[Name(c)]
  {
    BucketsFromEmpty(batch);
    FlaggedRecordIsMember(batch, j, c);
  }

  /** A row flagged for no cluster changes no bucket and creates none. */
  lemma UnflaggedRowAddsNothing(store: FileState<ClusteredStore>, batch: seq<Placement>, record: Record, m: Membership)
    requires forall c :: !Flag(m, c)
    ensures DocOrEmpty(PersistAll(store, batch + [Placement(record, m)])) == DocOrEmpty(PersistAll(store, batch))
  {
    var before := PersistAll(store, batch);
    assert (batch + [Placement(record, m)])[..|batch|] == batch;
    assert FlaggedKeys(ResponseOf(m)) == {};
  }
}
