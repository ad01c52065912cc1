/** The document helpers: each loads a JSON document, updates it in memory and
    writes it back. A document is a value here, and the file it lives in is a
    `FileState`, so each helper maps the state of its file before the call to
    the state after it. */
module Utils {
  import opened Outcomes
  import opened Model

  /** A classification response as the ordered items of a Python dict. */
  type Response = seq<(string, bool)>

  /** A dict never repeats a key. */
  predicate DistinctKeys(response: Response) {
    forall i, j :: 0 <= i < j < |response| ==> response[i].0 != response[j].0
  }

  /** The keys whose flag is true. */
  function FlaggedKeys(response: Response): set<string> {
    set i | 0 <= i < |response| && response[i].1 :: response[i].0
  }

  /** The bucket stored under `key`, or the empty bucket a helper would create. */
  function Bucket<V>(doc: map<string, seq<V>>, key: string): seq<V> {
    if key in doc then doc[key] else []
  }

  /** The document a helper starts from: the parsed one, or `{}` for an absent file. */
  function DocOrEmpty<V>(file: FileState<map<string, seq<V>>>): map<string, seq<V>> {
    if file.Parsed? then file.doc else map[]
  }

  lemma FlaggedKeysOfTail(response: Response)
    requires |response| > 0
    ensures FlaggedKeys(response) ==
      FlaggedKeys(response[1..]) + (if response[0].1 then {response[0].0} else {})
  {
    var tail := response[1..];
    forall k | k in FlaggedKeys(response)
      ensures k in FlaggedKeys(tail) + (if response[0].1 then {response[0].0} else {})
    {
      var i :| 0 <= i < |response| && response[i].1 && response[i].0 == k;
      if i > 0 {
        assert tail[i - 1] == response[i];
      }
    }
    forall k | k in FlaggedKeys(tail)
      ensures k in FlaggedKeys(response)
    {
      var i :| 0 <= i < |tail| && tail[i].1 && tail[i].0 == k;
      assert response[i + 1] == tail[i];
    }
  }

  /** `append_to_clustered_dataset`: walks the response items in order and
      appends `data` to the existing bucket of every flagged cluster, in place. */
  function AppendToClusteredDataset(response: Response, data: Record, dataset: ClusteredStore): (r: ClusteredStore)
    requires DistinctKeys(response)
    requires forall i :: 0 <= i < |response| && response[i].1 ==> response[i].0 in dataset
    ensures r.Keys == dataset.Keys
    ensures forall k :: k in dataset ==>
      r[k] == dataset[k] + (if k in FlaggedKeys(response) then [data] else [])
    decreases |response|
  {
    if |response| == 0 then dataset
    else
      var key := response[0].0;
      var next := if response[0].1 then dataset[key := dataset[key] + [data]] else dataset;
      FlaggedKeysOfTail(response);
      assert forall i :: 0 <= i < |response| - 1 ==> response[1..][i] == response[i + 1];
      assert key !in FlaggedKeys(response[1..]);
      AppendToClusteredDataset(response[1..], data, next)
  }

  /** The update at the heart of `append_to_clustered_json`: walks the response
      items in order; a flagged cluster missing from the document first gets an
      empty bucket, then `entry` is appended to it. */
  function UpdateClusters(doc: ClusteredStore, response: Response, entry: Record): (r: ClusteredStore)
    requires DistinctKeys(response)
    ensures r.Keys == doc.Keys + FlaggedKeys(response)
    ensures forall k :: k in r ==>
      r[k] == Bucket(doc, k) + (if k in FlaggedKeys(response) then [entry] else [])
    ensures FlaggedKeys(response) == {} ==> r == doc
    decreases |response|
  {
    if |response| == 0 then doc
    else
      var key := response[0].0;
      var next := if response[0].1 then doc[key := Bucket(doc, key) + [entry]] else doc;
      assert forall i :: 0 <= i < |response| - 1 ==> response[1..][i] == response[i + 1];
      var rest := UpdateClusters(next, response[1..], entry);
      UpdateClustersStep(doc, response, entry, next, rest);
      rest
  }

  /** One step of `UpdateClusters`: handling the first item and then the rest
      is handling them all. */
  lemma UpdateClustersStep(doc: ClusteredStore, response: Response, entry: Record, next: ClusteredStore, rest: ClusteredStore)
    requires |response| > 0 && DistinctKeys(response)
    requires next == if response[0].1 then doc[response[0].0 := Bucket(doc, response[0].0) + [entry]] else doc
    requires rest.Keys == next.Keys + FlaggedKeys(response[1..])
    requires forall k :: k in rest ==>
      rest[k] == Bucket(next, k) + (if k in FlaggedKeys(response[1..]) then [entry] else [])
    ensures rest.Keys == doc.Keys + FlaggedKeys(response)
    ensures forall k :: k in rest ==>
      rest[k] == Bucket(doc, k) + (if k in FlaggedKeys(response) then [entry] else [])
    ensures FlaggedKeys(response) == {} ==> rest == doc
  {
    var key := response[0].0;
    FlaggedKeysOfTail(response);
    assert key !in FlaggedKeys(response[1..]) by {
      assert forall i :: 0 <= i < |response| - 1 ==> response[1..][i] == response[i + 1];
    }
    forall k | k in rest
      ensures rest[k] == Bucket(doc, k) + (if k in FlaggedKeys(response) then [entry] else [])
    {
      if k != key {
        assert Bucket(next, k) == Bucket(doc, k);
      }
    }
    if FlaggedKeys(response) == {} {
      assert rest.Keys == doc.Keys;
      assert forall k :: k in rest ==> rest[k] == doc[k];
    }
  }

  /** Where every flagged cluster already has a bucket, the creating update of
      the file helper and the in-place helper agree. */
  lemma UpdateAgreesWithInPlaceAppend(doc: ClusteredStore, response: Response, entry: Record)
    requires DistinctKeys(response)
    requires forall i :: 0 <= i < |response| && response[i].1 ==> response[i].0 in doc
    ensures UpdateClusters(doc, response, entry) == AppendToClusteredDataset(response, entry, doc)
  {
    var u := UpdateClusters(doc, response, entry);
    var a := AppendToClusteredDataset(response, entry, doc);
    assert FlaggedKeys(response) <= doc.Keys;
    assert u.Keys == a.Keys;
    forall k | k in u
      ensures u[k] == a[k]
    {
    }
  }

  /** `append_to_clustered_json`: an absent file starts from `{}`; a file that
      does not decode, has the wrong root or cannot be read is left as it was,
      because the error is caught and nothing is written. */
  function AppendToClusteredJson(file: FileState<ClusteredStore>, response: Response, entry: Record): (r: FileState<ClusteredStore>)
    requires DistinctKeys(response)
    ensures Usable(file) ==> r.Parsed? && r.doc.Keys == DocOrEmpty(file).Keys + FlaggedKeys(response)
    ensures Usable(file) ==> forall k :: k in r.doc ==>
      r.doc[k] == Bucket(DocOrEmpty(file), k) + (if k in FlaggedKeys(response) then [entry] else [])
    ensures !Usable(file) ==> r == file
  {
    match file
    case Missing => Parsed(UpdateClusters(map[], response, entry))
    case Parsed(doc) => Parsed(UpdateClusters(doc, response, entry))
    case _ => file
  }

  /** The argument of `append_to_json_file`, which must be a dict. */
  datatype Payload<T> = Dict(value: T) | NotDict

  /** `append_to_json_file`: the list it writes back, or the exception it raises
      (in which case the file is left as it was). */
  function AppendToJsonFile<T>(newData: Payload<T>, file: FileState<seq<T>>): (r: Result<seq<T>>)
    ensures newData.NotDict? ==> r == Err(ValueError)
    ensures newData.Dict? && file.Mistyped? ==> r == Err(ValueError)
    ensures newData.Dict? && file.Unreadable? ==> r == Err(OSError)
    ensures r.Ok? <==> newData.Dict? && (file.Missing? || file.Corrupt? || file.Parsed?)
    ensures r.Ok? ==> |r.value| > 0 && r.value[|r.value| - 1] == newData.value
    ensures r.Ok? ==> r.value[..|r.value| - 1] == (if file.Parsed? then file.doc else [])
  {
    if newData.NotDict? then Err(ValueError)
    else
      match file
      case Missing => Ok([newData.value])
      case Corrupt => Ok([newData.value])
      case Mistyped => Err(ValueError)
      case Unreadable => Err(OSError)
      case Parsed(list) => Ok(list + [newData.value])
  }

  /** The position of the first entry called `name`, if there is one. */
  function IndexOfName(list: seq<NamedResult>, name: string): (r: Option<nat>)
    ensures r.Some? ==> r.value < |list| && list[r.value].name == name
    ensures r.Some? ==> forall j :: 0 <= j < r.value ==> list[j].name != name
    ensures r.None? ==> forall j :: 0 <= j < |list| ==> list[j].name != name
  {
    if |list| == 0 then None
    else if list[0].name == name then Some(0)
    else match IndexOfName(list[1..], name)
      case None => None
      case Some(i) => Some(i + 1)
  }

  /** The update loop of `store_evaluation_result`: replace the result of the
      first entry with a matching name and stop, or append a new entry. */
  function Upsert(list: seq<NamedResult>, name: string, result: Averages): (r: seq<NamedResult>)
    ensures match IndexOfName(list, name)
      case Some(i) => r == list[i := NamedResult(name, result)]
      case None => r == list + [NamedResult(name, result)]
  {
    if |list| == 0 then [NamedResult(name, result)]
    else if list[0].name == name then [NamedResult(name, result)] + list[1..]
    else [list[0]] + Upsert(list[1..], name, result)
  }

  /** After an upsert the first entry called `name` is the stored one. */
  lemma UpsertStores(list: seq<NamedResult>, name: string, result: Averages)
    ensures var r := Upsert(list, name, result);
      && IndexOfName(r, name).Some?
      && r[IndexOfName(r, name).value] == NamedResult(name, result)
  {
    var r := Upsert(list, name, result);
    match IndexOfName(list, name)
    case Some(i) =>
      assert r[i].name == name;
      assert forall j :: 0 <= j < i ==> r[j] == list[j];
      assert IndexOfName(r, name) == Some(i);
    case None =>
      assert r[|list|].name == name;
      assert forall j :: 0 <= j < |list| ==> r[j] == list[j];
      assert IndexOfName(r, name) == Some(|list|);
  }

  /** Storing the same result twice is storing it once. */
  lemma UpsertIdempotent(list: seq<NamedResult>, name: string, result: Averages)
    ensures Upsert(Upsert(list, name, result), name, result) == Upsert(list, name, result)
  {
    var once := Upsert(list, name, result);
    UpsertStores(list, name, result);
    var i := IndexOfName(once, name).value;
    assert once[i := NamedResult(name, result)] == once;
  }

  /** A list holding at most one entry per name keeps that invariant. */
  lemma UpsertKeepsNamesUnique(list: seq<NamedResult>, name: string, result: Averages)
    requires forall i, j :: 0 <= i < j < |list| ==> list[i].name != list[j].name
    ensures var r := Upsert(list, name, result);
      forall i, j :: 0 <= i < j < |r| ==> r[i].name != r[j].name
  {
  }

  /** `store_evaluation_result`: an absent file starts from `[]`; any other
      failure is caught and nothing is written. */
  function StoreEvaluationResult(file: FileState<seq<NamedResult>>, name: string, result: Averages): (r: FileState<seq<NamedResult>>)
    ensures file.Missing? ==> r == Parsed([NamedResult(name, result)])
    ensures file.Parsed? ==> r.Parsed? && |r.doc| >= |file.doc| && NamedResult(name, result) in r.doc
    ensures file.Parsed? ==> forall j :: 0 <= j < |file.doc| && file.doc[j].name != name ==> r.doc[j] == file.doc[j]
    ensures file.Parsed? ==> match IndexOfName(file.doc, name)
      case Some(i) => r == Parsed(file.doc[i := NamedResult(name, result)])
      case None => r == Parsed(file.doc + [NamedResult(name, result)])
    ensures !Usable(file) ==> r == file
  {
    match file
    case Missing => Parsed(Upsert([], name, result))
    case Parsed(list) =>
      UpsertStores(list, name, result);
      Parsed(Upsert(list, name, result))
    case _ => file
  }

  /** Storing the same `(name, result)` twice leaves the file as storing it once. */
  lemma StoreEvaluationResultIdempotent(file: FileState<seq<NamedResult>>, name: string, result: Averages)
    ensures StoreEvaluationResult(StoreEvaluationResult(file, name, result), name, result)
         == StoreEvaluationResult(file, name, result)
  {
    match file
    case Missing =>
      UpsertIdempotent([], name, result);
    case Parsed(list) =>
      UpsertIdempotent(list, name, result);
    case _ =>
  }

  /** `add_to_json_file`: appends `{dataset, evaluate}` at the end of the
      category's list, creating the list when absent; any failure is caught and
      nothing is written. */
  function AddToJsonFile(file: FileState<DetailLog>, category: string, dataset: EvalItem, evaluate: Evaluation): (r: FileState<DetailLog>)
    ensures Usable(file) ==> r.Parsed? && r.doc.Keys == DocOrEmpty(file).Keys + {category}
    ensures Usable(file) ==> r.doc[category] == Bucket(DocOrEmpty(file), category) + [Detail(dataset, evaluate)]
    ensures Usable(file) ==> forall k :: k in DocOrEmpty(file) && k != category ==> r.doc[k] == DocOrEmpty(file)[k]
    ensures !Usable(file) ==> r == file
  {
    match file
    case Missing => Parsed(map[category := [Detail(dataset, evaluate)]])
    case Parsed(doc) => Parsed(doc[category := Bucket(doc, category) + [Detail(dataset, evaluate)]])
    case _ => file
  }
}
