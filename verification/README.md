# Memory-evaluation harness: bookkeeping model

This Dafny project models the bookkeeping core of an LLM-driven harness that evaluates
the long-term memory of a chat assistant. The harness has two stages.

1. **Clustering.** Every dataset row `{tell, question, expected}` is classified into nine
   memory clusters. The row is then appended to the bucket of each cluster it is flagged
   for in a JSON store (`clustered_dataset.json`).
2. **Evaluation.** For each item of a category:
   - the `tell` statement is replayed to the assistant backend;
   - the `question` is asked;
   - the reply is scored by a rubric model (Accuracy, Relevance, Coherence, Fluency);
   - the score is logged to a detail file;
   - the scores of the category are averaged.

   A failing item is caught and skipped. A scorer failure is not skipped: it is logged as
   an `{"error": …}` entry.

JSON documents are Dafny values. A file is a `FileState`: absent, corrupt, a root of the
wrong shape, unreadable, or parsed into a document. Each helper maps the file's state
before the call to its state after. The remote parties are outcome oracles supplied per
call site and per row or item:
- the classifier;
- the assistant backend;
- the scoring model.

Each loop returns the trace of remote calls it made, so the model can state ordering and
which calls happen at all.

Modules:
- `Outcomes` (outcomes.dfy): exceptions, `Result`, `FileState`.
- `Model` (model.py shapes, model.dfy): the cluster enum and its JSON names, classifier
  flags, dataset cells, records, the rubric, evaluations and averages.
- `Utils` (utils.dfy): the document helpers of utils.py.
- `Averaging` (averaging.dfy): `calculate_average_scores`.
- `ClusterDataset` (cluster_dataset.dfy): the `clustering_dataset` loop.
- `Evaluate` (evaluate.dfy): `call_app_api` as an outcome, `evaluate_response`'s error
  return, `tell_func`, `eval_process` and the `calc_criteria` loop.

Behaviour the model keeps from the code:
- **`pd.isna` skip.** The tell call is skipped when the `tell` cell is NaN. A record read
  back from the clustered store went through `str()` first, so an empty cell arrives as
  the text `"nan"`. The skip therefore never fires for such records, and `"nan"` is sent
  to the backend. `Evaluate.ClusteredRecordsAlwaysTold` states this.
- **Scorer failures.** `evaluate_response` returns `{"error": …}` instead of raising. The
  entry is logged and averaged: it adds 0 to every field's total and 1 to the divisor.
- **`append_to_json_file` on a corrupt file.** The file is treated as `[]`. A root that is
  not a list raises `ValueError`.
- **Other helpers on a bad file.** For a corrupt, mistyped or unreadable file, the other
  helpers catch the error and leave the file's content unchanged.

## Model

| member | source | states |
|---|---|---|
| Model.Name | model.py:4-13 | Each of the nine clusters has a JSON key, and the key maps back to that cluster, so distinct clusters have distinct keys. |
| ClusterDataset.ResponseOf | model.py:4-13 | The classifier's decoded dict has one key per cluster (nine items) and no duplicate keys. A cluster's key is flagged exactly when its membership flag is set, and every flagged key names a cluster whose flag is set. |
| Utils.AppendToClusteredDataset | utils.py:5-9 | When every flagged key already has a bucket, the key set is unchanged. `data` is appended at the end of exactly the flagged buckets. All other buckets are unchanged. |
| Utils.UpdateClusters | utils.py:59-64 | The keys after the update are the old keys plus the flagged ones, so no key is created for a false flag. Each bucket is the old bucket (empty if absent) followed by the entry exactly when flagged. With no flag set, the document is unchanged. |
| Utils.UpdateAgreesWithInPlaceAppend | utils.py:59-64 | When every flagged cluster already has a bucket, the creating update of the file helper equals the in-place helper. |
| Utils.AppendToClusteredJson | utils.py:50-73 | An absent file starts from `{}` and a parsed file is updated. After either, the file holds the flagged-bucket update. A corrupt, mistyped or unreadable file is left as it was. |
| Utils.AppendToJsonFile | utils.py:17-37 | Non-dict input raises `ValueError`, a non-list root raises `ValueError`, and an unreadable file raises `OSError`. Otherwise the call succeeds. On success the written list is the old list (`[]` for an absent or corrupt file) with the new item at the end. |
| Utils.IndexOfName | utils.py:129-133 | The index found holds an entry with the name, and no earlier entry has it. No index means no entry has the name. |
| Utils.Upsert | utils.py:127-136 | If an entry has the name, the first such entry gets the new result and everything else keeps its place. Otherwise `{name, result}` is appended at the end. |
| Utils.UpsertStores | utils.py:127-136 | After the upsert, the first entry with the name is exactly `{name, result}`. |
| Utils.UpsertIdempotent | utils.py:127-136 | Upserting the same `(name, result)` twice gives the same list as upserting it once. |
| Utils.UpsertKeepsNamesUnique | utils.py:127-136 | A list with at most one entry per name keeps that property through an upsert. |
| Utils.StoreEvaluationResult | utils.py:118-143 | An absent file becomes `[{name, result}]`. In a parsed list, the first entry with the name gets the new result and nothing else changes; without such an entry, `{name, result}` is appended at the end. The list then contains the stored entry and keeps every other-name entry at its index. An unusable file is left as it was. |
| Utils.StoreEvaluationResultIdempotent | utils.py:118-143 | Storing the same result twice leaves the file exactly as storing it once. |
| Utils.AddToJsonFile | utils.py:145-169 | The category's list (created if absent) gets `{dataset, evaluate}` at its end. The keys become the old keys plus the category, and every other category is untouched. An unusable file is left as it was. |
| Averaging.CalculateAverageScores | utils.py:89-115 | The one-pass accumulating loop yields all zeros for an empty list. Otherwise each field's result is that field's total divided by the entry count, and it equals the reference `AverageScores`. |
| Averaging.AverageTimesCount | utils.py:107-113 | Each average times the number of entries equals the field's total, with absent fields (error entries) counting 0. |
| Averaging.TotalWithin | utils.py:107-109 | If every per-entry value lies in [lo, hi], the total lies in [lo·n, hi·n]. |
| Averaging.MeanWithin | utils.py:107-113 | The unrounded mean of a non-empty list lies between the least and greatest per-entry value. |
| Averaging.ErrorEntryOnlyCounts | utils.py:109-112 | Inserting an error entry anywhere leaves every field's total unchanged and adds one to the count. |
| Averaging.WorkedExample | utils.py:100-113 | Scores (8,9,7,9) and (6,7,9,8) average to (7, 8, 8, 8.5). |
| ClusterDataset.Row | cluster_dataset.py:24-38 | A row succeeds exactly when all three columns reach index `i` and the classifier succeeded. The record is then `str()` of the three cells at that same index, paired with the classifier's flags. A short column raises a lookup error, and a classifier failure raises its own error. |
| ClusterDataset.ClusteringDataset | cluster_dataset.py:19-50 | Rows are handled in index order, and each processed row is its own `Row` result. The loop finishes exactly when every row was processed. Otherwise it raises the first failing row's exception, and the rows before it stay persisted. The store is the in-order fold of the store helper over the processed rows. The outcome never depends on the store, so store errors never stop the loop. |
| ClusterDataset.PersistAllAppend | cluster_dataset.py:19-45 | Persisting a batch in two parts equals persisting it at once: each row's write completes before the next row. |
| ClusterDataset.BrokenStoreUntouched | cluster_dataset.py:41-45 | A store that cannot be decoded or read stays as it was, however many rows are processed. |
| ClusterDataset.MissingStoreStartsEmpty | utils.py:52-57 | After at least one row, an absent store behaves exactly as an empty one. |
| ClusterDataset.BucketsFromEmpty | cluster_dataset.py:19-45 | From an empty store: each cluster's bucket is exactly the records flagged for it, in input order. A bucket exists exactly when it is non-empty. No key other than a cluster name appears. |
| ClusterDataset.RecordInEveryFlaggedBucket | cluster_dataset.py:41-45 | A record flagged for several clusters appears in the bucket of each of them. |
| ClusterDataset.UnflaggedRowAddsNothing | cluster_dataset.py:41-45 | A row flagged for no cluster changes no bucket and creates none. |
| Evaluate.CallAppApi | app_api.py:16-46 | Exactly one backend call is made. A reply yields its `lastMessage`, and every failure is a `RuntimeError`. |
| Evaluate.EvaluateResponse | evaluate.py:36-53 | Exactly one scorer call is made. It never raises: a failure is returned as an error entry carrying the message, and a rubric is returned as the score. |
| Evaluate.TellFunc | evaluate.py:55-61 | A NaN `tell` makes no call and returns normally. Otherwise the statement is sent once, and the step fails, with `RuntimeError`, exactly when the backend fails. |
| Evaluate.EvalProcess | evaluate.py:89-117 | A backend failure is re-raised as `RuntimeError` and an empty reply raises `ValueError`, each after only the question call. The step succeeds exactly on a non-empty reply. It then scores that reply with the question as context and returns the scorer's result, an error entry included. |
| Evaluate.RunItem | evaluate.py:68-72 | An item gets through exactly when its tell is NaN or told successfully and its question gets a non-empty reply. A failed tell stops the item before the question is asked. After a NaN tell, or a tell sent successfully, the item makes the tell call (if any) followed by exactly the calls of `eval_process`, and returns what `eval_process` returned or raised. |
| Evaluate.CalcCriteria | evaluate.py:63-86 | Every item is attempted in order. The averaged list holds the evaluations of exactly the items that got through, in order, and the result is their average (all zeros if none got through). The call trace is each item's calls in item order. The detail file gets exactly those entries appended to the category, or is unchanged if none got through or the file is unusable. |
| Evaluate.EachItemContributesInPlace | evaluate.py:67-78 | Whatever the other items do, item k's entry (or nothing) sits in the log between the entries of the items before and after it. |
| Evaluate.FailedItemSkipped | evaluate.py:67-78 | An item whose tell call fails, whose question call fails, or whose reply is empty is skipped. The log is what it would be without that item, so later items are still processed. |
| Evaluate.ScorerFailureCountsAsZero | evaluate.py:52-53 | An item whose only failure is the scorer is logged with its error entry. That entry adds nothing to any field's total and one to the number of averaged entries. |
| Evaluate.EachItemCallsInPlace | evaluate.py:67-72 | Item k's remote calls sit in the trace between those of the items before and after it. |
| Evaluate.ClusteredRecordsAlwaysTold | evaluate.py:57-61 | For items read back from the clustered store, every record's `tell` text (`"nan"` for an empty cell) is sent to the backend: the NaN skip never fires. |

## Left out

- HTTP details of `call_app_api` (URL, bearer token, aiohttp sessions). The backend is an outcome per call. Its four failure kinds (HTTP status, network, missing `lastMessage`, other) all become `RuntimeError`, as the client makes them.
- Evaluate.CallAppApi: a `lastMessage` that is not a string (a number, a list) is not modelled. Replies are strings, and only the empty string is falsy.
- `classify_with_ai` and the LLM call inside `evaluate_response`: prompt construction (including the `if context:` branch), the structured-output request and JSON parsing of the reply. They are outcome oracles; a parse failure is a failed outcome.
- `load_clustered_json`, `show_chart.py` and `main.py`: plain file reading with re-raise, plotting, and spreadsheet ingestion.
- JSON serialisation and file handles: a document is a value, and a load is a `FileState`. A failure while writing back is not modelled. The write is assumed to succeed whenever the helper reaches it.
- Averaging.CalculateAverageScores: averages are exact rationals. The source's float division and `round(…, 2)` are not modelled, and neither are non-integer field values.
- Utils.StoreEvaluationResult: list entries always carry a `name`. An entry without one raises `KeyError`, which the helper swallows and so writes nothing; that case is not modelled.
- Utils.AppendToClusteredJson: a document whose buckets are not lists (appending to them raises, is swallowed, and nothing is written) is not distinguished from a well-formed one. A mistyped root is modelled only as "left unchanged".
- Utils.AddToJsonFile: a category whose value is not a list (appending to it raises, is swallowed, and nothing is written) is not distinguished from a well-formed one.
- Utils.AppendToClusteredDataset: requires every flagged key to already have a bucket. The source raises `KeyError` otherwise and has no handling for it.
- ClusterDataset.Row: a cell is either text or empty (NaN). Numeric cells, whose `str()` is their decimal rendering, are not modelled.
- Evaluate.CalcCriteria: items always carry `tell`, `question` and `expected`. A missing key would be caught and skip the item like any other failure. The outer `except … raise` is not modelled, because nothing in the loop can reach it.
- asyncio scheduling and logging. The stages are sequential; a logging call with a bad format argument only reports the problem and does not raise.
