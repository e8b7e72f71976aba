# embedded_jsonl_db_engine — the working core in Dafny

This project models the three pieces of the embedded JSONL record store that
do real work. The rest of the engine, file storage and the query executors among
it, is still a set of stubs that raise `NotImplementedError`.

- **Fast-plan eligibility** (`query.py`, module `Query`). `is_simple_query`
  walks a nested query dict and counts scalar predicates against a budget of
  `max_terms`, 3 by default. It rejects any visited level that carries `$or`,
  `$in`, `$nin`, `$regex` or `$contains`. The walk `visit` is the recursive
  method `Query.Visit`, with the shared `terms` counter passed in and out. It is
  proved against a specification without the early exit: `Clean` says no visited
  level has a banned key, and `Terms` is the full count. So the cut-off
  `terms > max_terms` provably never changes the answer.
- **Fast-path pattern builder** (`fastregex.py`, module `FastRegex`).
  `_val_pattern` maps a scalar type name to the source's regex text.
  `compile_path_pattern` splits the path on `/`, drops empty parts and builds one
  segment per part. It is modelled as a loop over the parts that produces a
  sequence of `Segment` tokens. Inner parts open a nested object; the last part
  captures the typed value. A scanner counts the capture groups of the value
  regexes. `extract_first` takes the search outcome as its input.
- **Record change tracking and patch merge** (`database.py`, module
  `Database`). `TDBRecord` is a class with the contents, id, meta offset,
  snapshot and modified-key set as fields. `RecordState` is its abstract value.
  The pure transitions `Created`, `Assigned`, `Reloaded` and `DeepUpdated`
  specify its methods. `_deep_update` is modelled twice: `DeepUpdate` works on
  plain nested dicts and `DeepUpdateRecord` on a record. Both are loops over the
  patch keys, taken in any order, and both are proved equal to the pure
  `DeepMerge`. `Database.update` applies the patch to every record that `find`
  yields and counts them.

JSON values are the datatype `JsonValues.Json`; a dict is a
`map<string, Json>`. Where the source raises an exception, the model returns a
`Result` or an `Outcome`.

Where the source's own docstrings and its code disagree, the model follows the code:
- The docstring of `is_simple_query` (`query.py:8`) promises simple scalar
  predicates, but `query.py:25-26` counts any non-dict field value as one
  implicit equality, lists included.
- The code never inspects a dict that holds a comparison operator. So
  `{"age": {"$gte": 0, "$in": [1]}}` passes (`Query.OperatorWithSiblingInIsSimple`).

## Model

| member | source | states |
|---|---|---|
| `Query.Visit` | embedded_jsonl_db_engine/query.py:11-27 | when the walk passes, it has seen no banned key on a visited level and added exactly the full term count to the counter; when it fails (banned key, or the entry cut-off `terms > max_terms`), the query is rejected from that starting count anyway |
| `Query.IsSimpleQuery` | embedded_jsonl_db_engine/query.py:6-29 | the answer is true iff no visited level has a banned key and the full term count is at most `max_terms` (default 3), so the early exit never changes it |
| `Query.IsSimpleCharacterization` | embedded_jsonl_db_engine/query.py:13-29 | both directions: accepted iff no level reachable by the walk carries a banned key and the total count is within budget |
| `Query.BannedKeyRejects` | embedded_jsonl_db_engine/query.py:15-24 | a banned key on the top level, or on any nested dict the walk recurses into, makes the answer false |
| `Query.BannedLevelIsUnclean` | embedded_jsonl_db_engine/query.py:16-24 | a banned key on a level reached by descending through operator-free dicts violates cleanliness (induction on the path) |
| `Query.UncleanHasBannedLevel` | embedded_jsonl_db_engine/query.py:16-24 | conversely, an unclean query has a visited level carrying a banned key, and the lemma returns its path |
| `Query.AddField` | embedded_jsonl_db_engine/query.py:18-26 | adding a field adds that field's terms to the total; the level stays clean iff the key is not banned and a walked-into value is clean |
| `Query.OperatorFieldIsOneTerm` | embedded_jsonl_db_engine/query.py:19-21 | a field whose dict holds a comparison operator adds exactly one term, however many operators it holds, and its other keys (even `$in`) do not affect cleanliness |
| `Query.ScalarFieldIsOneTerm` | embedded_jsonl_db_engine/query.py:25-26 | a non-dict field value, scalar or list, adds exactly one term |
| `Query.NestedFieldAddsItsTerms` | embedded_jsonl_db_engine/query.py:22-24 | an operator-free dict value is walked into: its terms add to the shared total and it must itself be clean |
| `Query.EmptyOrScalarQueryIsSimple` | embedded_jsonl_db_engine/query.py:15-29 | an empty query or a non-dict query has zero terms and is accepted for any non-negative budget |
| `Query.MonotoneInMaxTerms` | embedded_jsonl_db_engine/query.py:29 | accepted under budget m implies accepted under every m' >= m |
| `Query.PredicateFieldsCountOnce` | embedded_jsonl_db_engine/query.py:18-26 | a level whose fields are all single predicates counts one term per field |
| `Query.DefaultBudget` | embedded_jsonl_db_engine/query.py:6-29 | a flat query of predicate fields without banned keys is accepted under the default budget iff it has at most three fields |
| `Query.ThreeAcceptedFourRejected` | embedded_jsonl_db_engine/query.py:6-29 | with the default budget, `{"a":1,"b":2,"c":3}` is accepted and the same query with a fourth field is rejected |
| `Query.OperatorWithSiblingInIsSimple` | embedded_jsonl_db_engine/query.py:19-21 | `{"age": {"$gte": 0, "$in": [1]}}` is accepted: the `$in` inside a comparison dict is never looked at |
| `FastRegex.ValPatternsByType` | embedded_jsonl_db_engine/fastregex.py:9-17 | `str` and `datetime` share the quoted-string pattern; `int`, `float` and `bool` each get their own, and the four patterns are pairwise distinct |
| `FastRegex.ValPattern` | embedded_jsonl_db_engine/fastregex.py:9-18 | the value pattern exists exactly for the five supported names; any other name raises ValueError carrying the name; which pattern each name gets is `FastRegex.ValPatternsByType` |
| `FastRegex.StrPatternCapturesNothing` | embedded_jsonl_db_engine/fastregex.py:4 | the quoted-string pattern has no capturing group |
| `FastRegex.IntPatternCapturesNothing` | embedded_jsonl_db_engine/fastregex.py:5 | the integer pattern has no capturing group |
| `FastRegex.FloatPatternCapturesNothing` | embedded_jsonl_db_engine/fastregex.py:6 | the float pattern has no capturing group |
| `FastRegex.BoolPatternCapturesNothing` | embedded_jsonl_db_engine/fastregex.py:7 | the boolean pattern has no capturing group |
| `FastRegex.ValuePatternsCaptureNothing` | embedded_jsonl_db_engine/fastregex.py:4-17 | every value pattern uses only non-capturing groups |
| `FastRegex.Split` | embedded_jsonl_db_engine/fastregex.py:21 | Python's `str.split`: always at least one piece; its meaning is carried by `FastRegex.JoinSplit`, `FastRegex.SplitHasNoSeparator` and `FastRegex.SplitAround` |
| `FastRegex.JoinSplit` | embedded_jsonl_db_engine/fastregex.py:21 | the model of `str.split` loses nothing: joining the pieces with the separator gives back the string |
| `FastRegex.SplitHasNoSeparator` | embedded_jsonl_db_engine/fastregex.py:21 | no piece of a split contains the separator |
| `FastRegex.SplitAround` | embedded_jsonl_db_engine/fastregex.py:21 | splitting `a + sep + b` gives the pieces of `a` followed by the pieces of `b` |
| `FastRegex.PathPartsAround` | embedded_jsonl_db_engine/fastregex.py:21 | the non-empty parts of `a/b` are those of `a` followed by those of `b` |
| `FastRegex.ExtraSlashesIgnored` | embedded_jsonl_db_engine/fastregex.py:21 | leading, trailing and doubled slashes do not change the parts |
| `FastRegex.PathParts` | embedded_jsonl_db_engine/fastregex.py:21 | the parts of a path: every one is non-empty and contains no slash; that no non-empty piece is lost is `FastRegex.PathPartsJoin`, and that extra slashes do not matter is `FastRegex.ExtraSlashesIgnored` |
| `FastRegex.PathPartsJoin` | embedded_jsonl_db_engine/fastregex.py:21 | non-empty slash-free parts joined with `/` split back into the same parts |
| `FastRegex.PathPatternShape` | embedded_jsonl_db_engine/fastregex.py:22-28 | exactly one segment per non-empty part, in path order; every segment but the last opens a nested object, and the last captures the value with the type's pattern |
| `FastRegex.PathPatternFailsIff` | embedded_jsonl_db_engine/fastregex.py:20-27 | compiling raises iff the path has a non-empty part and the type is unsupported, and then with ValueError; an empty or all-slash path never raises |
| `FastRegex.PathPatternIgnoresExtraSlashes` | embedded_jsonl_db_engine/fastregex.py:20-28 | paths that differ only in leading, trailing or doubled slashes compile to the same pattern |
| `FastRegex.SlashVariantsCompileAlike` | embedded_jsonl_db_engine/fastregex.py:21 | `a//b/`, `/a/b` and `a/b` compile to the same pattern |
| `FastRegex.PathPatternCapturesOnce` | embedded_jsonl_db_engine/fastregex.py:4-28 | a compiled non-empty path has exactly one capture group, the typed value; an empty path's pattern has none |
| `FastRegex.CompilePathPattern` | embedded_jsonl_db_engine/fastregex.py:20-29 | the loop over the parts yields the segments described above, or raises ValueError when it reaches the last part with an unsupported type |
| `FastRegex.ExtractFirst` | embedded_jsonl_db_engine/fastregex.py:31-35 | no match gives None; a match gives its first capture group, and raises (no such group) exactly when it has no groups |
| `FastRegex.ExtractFirstOnCompiledPattern` | embedded_jsonl_db_engine/fastregex.py:31-35 | without a match the result is None; on a non-empty path's pattern a match yields its capture; on an empty path's pattern a match raises for want of group 1 |
| `Database.CreatedIsClean` | embedded_jsonl_db_engine/database.py:17-23 | a fresh record holds its initial contents, has no id and no meta offset, nothing modified, is not dirty, and every change is tracked |
| `Database.TDBRecord.constructor` | embedded_jsonl_db_engine/database.py:17-23 | the constructed record's state is the fresh state of its initial contents |
| `Database.New` | embedded_jsonl_db_engine/database.py:80-83 | `new()` gives a fresh record built from the schema's defaults applied to an empty dict |
| `Database.TDBRecord.Dirty` | embedded_jsonl_db_engine/database.py:29-31 | the record is dirty iff some key was added, removed or changed against the snapshot taken at creation or the last reload |
| `Database.TDBRecord.ModifiedFields` | embedded_jsonl_db_engine/database.py:33-35 | the modified keys; while changes are tracked every key that differs from the snapshot is among them, so a dirty record reports at least one (tracking is kept by `Database.AssignmentsAreTracked` and restored by `Database.ReloadedOutcomes`) |
| `Database.ObjectsDiffer` | embedded_jsonl_db_engine/database.py:29-31 | two dicts differ iff they differ at some key, which ties the record-level `dirty` to individual keys |
| `Database.TDBRecord.SetItem` | embedded_jsonl_db_engine/database.py:37-40 | an assignment changes the state exactly as `Assigned` says, and nothing else |
| `Database.AssignedChangesOnlyKey` | embedded_jsonl_db_engine/database.py:37-40 | an assignment stores the value and adds exactly its key to the modified keys; other keys, the id, the meta offset and the snapshot are unchanged |
| `Database.AssignedKeepsTracked` | embedded_jsonl_db_engine/database.py:37-40 | after an assignment, every key that differs from the snapshot is still a modified key |
| `Database.ReassignOriginalIsClean` | embedded_jsonl_db_engine/database.py:29-40 | assigning a key back its original value makes a clean record clean again, but the key stays modified |
| `Database.AssignmentsAreTracked` | embedded_jsonl_db_engine/database.py:33-40 | after any run of assignments, the modified keys are the old ones plus the assigned keys, the snapshot is unchanged, and every change is among the modified keys |
| `Database.TDBRecord.Reload` | embedded_jsonl_db_engine/database.py:45-54 | fails with ValidationError (no or empty id) or ConflictError (lookup finds nothing) and leaves the record unchanged; otherwise replaces the contents and resets tracking |
| `Database.ReloadedOutcomes` | embedded_jsonl_db_engine/database.py:45-54 | the error cases by their conditions; a successful reload leaves exactly the loaded contents, no modified keys, not dirty, same id and meta offset |
| `Database.DeepMerge` | embedded_jsonl_db_engine/database.py:141-147 | the merged key set is the old keys united with the patch keys |
| `Database.DeepMergeMeaning` | embedded_jsonl_db_engine/database.py:141-147 | keys absent from the patch keep their value; a non-dict patch value, or a dict over a non-dict, overwrites; a dict into a dict merges recursively; the result agrees with the patch on every patch key |
| `Database.DeepMergeSelf` | embedded_jsonl_db_engine/database.py:141-147 | merging a dict into itself changes nothing |
| `Database.DeepMergeIdempotent` | embedded_jsonl_db_engine/database.py:141-147 | applying the same patch twice equals applying it once |
| `Database.DeepMergeStep` | embedded_jsonl_db_engine/database.py:143-147 | processing one more patch key updates only that key, as the loop body does, and marks it as overwritten iff it is not merged |
| `Database.DeepMergeKeyLast` | embedded_jsonl_db_engine/database.py:143-147 | any patch key may be processed last without changing the result |
| `Database.DeepMergeKeyFirst` | embedded_jsonl_db_engine/database.py:143-147 | any patch key may be processed first without changing the result |
| `Database.DeepUpdate` | embedded_jsonl_db_engine/database.py:141-147 | the in-place merge on a plain dict, taking patch keys in any order, leaves exactly `DeepMerge` of the old dict and the patch |
| `Database.DeepUpdateRecord` | embedded_jsonl_db_engine/database.py:141-147 | merged into a record, the contents become `DeepMerge` of the old contents and the patch, and exactly the overwritten top-level keys are added to the modified keys |
| `Database.DeepUpdatedIdempotent` | embedded_jsonl_db_engine/database.py:141-147 | applying the same patch to a record twice leaves the same contents and modified keys as once |
| `Database.NestedMergeIsUnmarked` | embedded_jsonl_db_engine/database.py:144-147 | a change merged into an existing nested dict marks no key, yet the record becomes dirty, so the modified keys can miss a change |
| `Database.Update` | embedded_jsonl_db_engine/database.py:99-105 | returns the number of records `find` yields, and each of them ends merged with the patch, once even when yielded twice |

## Left out

- `storage.py` and `blobs.py`: every method is a stub, and what they would do is file I/O, locking, fsync and hashing.
- The unimplemented `Database` methods are not modelled, because they only raise `NotImplementedError`: `_open`, `get`, `find`, `delete`, the taxonomy header update and migration, `compact_now`, `backup_now`, the blob methods and `_record_save`. For the same reason `Database.__init__` is not modelled, since it always calls `_open`.
- `get`, `find` and `Schema.apply_defaults` are parameters: a lookup function, the sequence of records found, and the defaulting function.
- Database.Update: the `rec.save()` call after each merge is not modelled; persistence is unimplemented, and what it would do to a record is unknown.
- `_validate_assign` is a no-op in the source. It is `ValidateAssign`, an empty method with no contract, called from `SetItem`.
- `TDBRecord.save` and the `id` property have no member of their own: `save` is unimplemented, and `id` is the record's `id` field. `Database.TDBRecord.ModifiedFields` returns a set, not a list.
- `TDBRecord` inherits further dict mutators (`update`, `pop`, `del`, `setdefault`, `clear`) and its nested dicts can be edited in place; all of them change the contents without marking a key. The class models only `SetItem` and `Reload`, so `ChangesTracked` and `Database.AssignmentsAreTracked` hold only along assignments.
- Regex compilation, `re.search`, `re.escape` and the `DOTALL` flag are not modelled. A segment stands for its regex text, and the search result is an input to `FastRegex.ExtractFirst`. The escaped key is taken to contribute no capture group.
- Dict insertion order is not modelled: dicts are maps, and loops over their items take the keys in an arbitrary order.
- Database.RecordState.Dirty: compares contents as maps. Python compares `repr` strings, which sort only the top level, so a nested dict whose keys were inserted in another order reads as dirty there and not here.
- Floating-point JSON values are not part of `Json`; the model never needs them.
- Python aliasing is not modelled. `_deep_update` stores patch sub-dicts by reference, and the model copies values instead. Within one `update` call this changes nothing: a record that aliases a patch dict only ever gets that same patch merged into it, and `Database.DeepMergeSelf` shows such a merge is a no-op.
