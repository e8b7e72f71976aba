/**
 * Record change tracking and patch merge.
 *
 * `TDBRecord` is a dict that remembers its id, its meta offset, a snapshot of
 * its contents taken at construction or reload, and the set of keys assigned
 * since. `RecordState` is its abstract value; the pure transitions `Created`,
 * `Assigned`, `Reloaded` and `DeepUpdated` specify the class's methods, and the
 * lemmas state what they promise. `DeepMerge` specifies `_deep_update`.
 *
 * The lookups `get` and `find` are not implemented in the engine; they enter
 * the model as parameters.
 */
module Database {
  import opened Wrappers
  import opened JsonValues

  datatype DbError =
    | ValidationError   // the record has no id: it was never saved
    | ConflictError     // the stored record was not found

  /** The tracked state of a record: contents, id, meta offset, snapshot and modified keys. */
  datatype RecordState = RecordState(
    contents: Object,
    id: Option<string>,
    metaOffset: Option<int>,
    snapshot: Object,
    modified: set<string>)
  {
    /** `dirty`: the contents differ from the snapshot. */
    predicate Dirty() {
      contents != snapshot
    }

    /** An id that counts as set: present and non-empty. */
    predicate HasId() {
      id.Some? && id.value != ""
    }

    /** Every key whose value differs from the snapshot (or that only one of them has) is a modified key. */
    ghost predicate ChangesTracked() {
      && (forall k | k in contents && (k !in snapshot || contents[k] != snapshot[k]) :: k in modified)
      && (forall k | k in snapshot && k !in contents :: k in modified)
    }
  }

  /** Key `k` is in one of `a` and `b` only, or maps to different values in them. */
  predicate DiffersAt(a: Object, b: Object, k: string) {
    k in a.Keys + b.Keys && (k !in a || k !in b || a[k] != b[k])
  }

  /** Two dicts differ iff they differ at some key. */
  lemma ObjectsDiffer(a: Object, b: Object)
    ensures a != b <==> exists k :: DiffersAt(a, b, k)
  {
    if a != b {
      if a.Keys != b.Keys {
        var k :| k in (a.Keys - b.Keys) + (b.Keys - a.Keys);
        assert DiffersAt(a, b, k);
      } else {
        var k :| k in a && a[k] != b[k];
        assert DiffersAt(a, b, k);
      }
    }
  }

  // ---------------------------------------------------------------------------
  // Transitions of a record

  /** A record built from `initial`: no id, no meta offset, the snapshot of `initial`, nothing modified. */
  function Created(initial: Object): RecordState {
    RecordState(initial, None, None, initial, {})
  }

  /** `rec[key] = value`: stores the value and marks exactly that key as modified. */
  function Assigned(s: RecordState, key: string, value: Json): RecordState {
    s.(contents := s.contents[key := value], modified := s.modified + {key})
  }

  /** `reload()` with `get` standing for the database lookup by id. */
  function Reloaded(s: RecordState, get: string -> Option<Object>): Result<RecordState, DbError> {
    if !s.HasId() then Failure(ValidationError)
    else match get(s.id.value)
      case None => Failure(ConflictError)
      case Some(loaded) => Success(s.(contents := loaded, snapshot := loaded, modified := {}))
  }

  /** Assignments applied in order. */
  function AssignedAll(s: RecordState, writes: seq<(string, Json)>): RecordState
    decreases |writes|
  {
    if writes == [] then s
    else AssignedAll(Assigned(s, writes[0].0, writes[0].1), writes[1..])
  }

  function WrittenKeys(writes: seq<(string, Json)>): set<string> {
    set i | 0 <= i < |writes| :: writes[i].0
  }

  /** A fresh record has no id, no meta offset, nothing modified, and is not dirty. */
  lemma CreatedIsClean(initial: Object)
    ensures var s := Created(initial);
      && s.contents == initial && s.id == None && s.metaOffset == None
      && s.modified == {} && !s.Dirty() && s.ChangesTracked()
  {
  }

  /**
   * An assignment stores the value under its key and adds exactly that key to the
   * modified keys; every other key, the id, the meta offset and the snapshot stay.
   */
  lemma AssignedChangesOnlyKey(s: RecordState, key: string, value: Json)
    ensures var t := Assigned(s, key, value);
      && key in t.contents && t.contents[key] == value
      && (forall k | k != key :: (k in t.contents <==> k in s.contents))
      && (forall k | k != key && k in s.contents :: t.contents[k] == s.contents[k])
      && t.modified == s.modified + {key}
      && t.id == s.id && t.metaOffset == s.metaOffset && t.snapshot == s.snapshot
  {
  }

  /**
   * Assigning a key back its original value makes a clean record clean again,
   * but the key stays among the modified keys.
   */
  lemma ReassignOriginalIsClean(s: RecordState, key: string, value: Json)
    requires !s.Dirty() && key in s.contents
    ensures var t := Assigned(Assigned(s, key, value), key, s.contents[key]);
      !t.Dirty() && key in t.modified
  {
    var t := Assigned(Assigned(s, key, value), key, s.contents[key]);
    assert t.contents == s.contents;
  }

  lemma AssignedKeepsTracked(s: RecordState, key: string, value: Json)
    requires s.ChangesTracked()
    ensures Assigned(s, key, value).ChangesTracked()
  {
  }

  /**
   * After any run of assignments on a fresh or reloaded record, the modified keys
   * are the assigned keys, and every change against the snapshot is among them.
   */
  lemma {:induction false} AssignmentsAreTracked(s: RecordState, writes: seq<(string, Json)>)
    requires s.ChangesTracked()
    ensures AssignedAll(s, writes).modified == s.modified + WrittenKeys(writes)
    ensures AssignedAll(s, writes).ChangesTracked()
    ensures AssignedAll(s, writes).snapshot == s.snapshot
    decreases |writes|
  {
    if writes != [] {
      AssignedKeepsTracked(s, writes[0].0, writes[0].1);
      AssignmentsAreTracked(Assigned(s, writes[0].0, writes[0].1), writes[1..]);
      assert WrittenKeys(writes) == {writes[0].0} + WrittenKeys(writes[1..]) by {
        forall k | k in WrittenKeys(writes) ensures k in {writes[0].0} + WrittenKeys(writes[1..]) {
          var i :| 0 <= i < |writes| && writes[i].0 == k;
          if i > 0 {
            assert writes[1..][i - 1] == writes[i];
          }
        }
        forall k | k in WrittenKeys(writes[1..]) ensures k in WrittenKeys(writes) {
          var i :| 0 <= i < |writes[1..]| && writes[1..][i].0 == k;
          assert writes[i + 1] == writes[1..][i];
        }
      }
    }
  }

  /**
   * `reload()` fails with ValidationError when the id is missing or empty and with
   * ConflictError when the lookup finds nothing; on success the contents are
   * exactly the loaded record, nothing is modified and the record is not dirty.
   */
  lemma ReloadedOutcomes(s: RecordState, get: string -> Option<Object>)
    ensures !s.HasId() ==> Reloaded(s, get) == Failure(ValidationError)
    ensures s.HasId() && get(s.id.value).None? ==> Reloaded(s, get) == Failure(ConflictError)
    ensures s.HasId() && get(s.id.value).Some? ==>
      && Reloaded(s, get).Success?
      && var t := Reloaded(s, get).value;
      && t.contents == get(s.id.value).value
      && t.modified == {} && !t.Dirty() && t.ChangesTracked()
      && t.id == s.id && t.metaOffset == s.metaOffset
  {
  }

  // ---------------------------------------------------------------------------
  // Patch merge

  /** Whether `_deep_update` merges patch value `v` into the existing value under `k` rather than overwriting. */
  predicate MergesInto(rec: Object, k: string, v: Json) {
    v.JObj? && k in rec && rec[k].JObj?
  }

  /** `_deep_update(rec, patch)` as a value: the dict `rec` becomes. */
  function DeepMerge(rec: Object, patch: Object): (r: Object)
    ensures r.Keys == rec.Keys + patch.Keys
    decreases JObj(patch)
  {
    map k | k in rec.Keys + patch.Keys ::
      if k !in patch then rec[k]
      else if MergesInto(rec, k, patch[k]) then JObj(DeepMerge(rec[k].fields, patch[k].fields))
      else patch[k]
  }

  /** The top-level patch keys `_deep_update` assigns rather than merges into. */
  function Overwritten(rec: Object, patch: Object): set<string> {
    set k | k in patch && !MergesInto(rec, k, patch[k])
  }

  /**
   * `_deep_update` applied to a record: the contents are merged; only top-level
   * overwrites go through `rec[k] = v` and are marked as modified.
   */
  function DeepUpdated(s: RecordState, patch: Object): RecordState {
    s.(contents := DeepMerge(s.contents, patch), modified := s.modified + Overwritten(s.contents, patch))
  }

  /**
   * The merged dict agrees with the patch everywhere the patch speaks: every
   * patch key is present; a dict patch value is covered by a dict, any other
   * patch value is stored as it is.
   */
  ghost predicate Covers(r: Object, patch: Object)
    decreases JObj(patch)
  {
    forall k | k in patch ::
      && k in r
      && if patch[k].JObj? then r[k].JObj? && Covers(r[k].fields, patch[k].fields) else r[k] == patch[k]
  }

  lemma {:induction false} CoversSelf(m: Object)
    ensures Covers(m, m)
    decreases JObj(m)
  {
    forall k | k in m && m[k].JObj? ensures Covers(m[k].fields, m[k].fields) {
      CoversSelf(m[k].fields);
    }
  }

  /**
   * What `_deep_update` does, key by key: keys absent from the patch keep their
   * value; a dict merged into a dict is merged recursively; any other patch value
   * overwrites; and the merge covers the patch.
   */
  lemma {:induction false} DeepMergeMeaning(rec: Object, patch: Object)
    ensures var r := DeepMerge(rec, patch);
      && (forall k | k in rec && k !in patch :: r[k] == rec[k])
      && (forall k | k in patch && !MergesInto(rec, k, patch[k]) :: r[k] == patch[k])
      && (forall k | k in patch && MergesInto(rec, k, patch[k]) ::
            r[k] == JObj(DeepMerge(rec[k].fields, patch[k].fields)))
      && Covers(r, patch)
    decreases JObj(patch)
  {
    var r := DeepMerge(rec, patch);
    forall k | k in patch && patch[k].JObj? ensures r[k].JObj? && Covers(r[k].fields, patch[k].fields) {
      if MergesInto(rec, k, patch[k]) {
        DeepMergeMeaning(rec[k].fields, patch[k].fields);
      } else {
        CoversSelf(patch[k].fields);
      }
    }
  }

  /** Merging a dict into itself changes nothing. */
  lemma {:induction false} DeepMergeSelf(m: Object)
    ensures DeepMerge(m, m) == m
    decreases JObj(m)
  {
    forall k | k in m && m[k].JObj? ensures DeepMerge(m[k].fields, m[k].fields) == m[k].fields {
      DeepMergeSelf(m[k].fields);
    }
  }

  /** Applying the same patch twice equals applying it once. */
  lemma {:induction false} DeepMergeIdempotent(rec: Object, patch: Object)
    ensures DeepMerge(DeepMerge(rec, patch), patch) == DeepMerge(rec, patch)
    decreases JObj(patch)
  {
    var once := DeepMerge(rec, patch);
    forall k | k in patch && patch[k].JObj?
      ensures DeepMerge(once[k].fields, patch[k].fields) == once[k].fields
    {
      if MergesInto(rec, k, patch[k]) {
        DeepMergeIdempotent(rec[k].fields, patch[k].fields);
      } else {
        DeepMergeSelf(patch[k].fields);
      }
    }
  }

  /** One patch key applied after the others: the step `_deep_update`'s loop takes. */
  lemma DeepMergeStep(rec: Object, done: Object, k: string, v: Json)
    requires k !in done
    ensures var before := DeepMerge(rec, done);
      && (k in before <==> k in rec)
      && (k in rec ==> before[k] == rec[k])
      && DeepMerge(rec, done[k := v]) ==
           before[k := if MergesInto(rec, k, v) then JObj(DeepMerge(rec[k].fields, v.fields)) else v]
      && Overwritten(rec, done[k := v]) == Overwritten(rec, done) + (if MergesInto(rec, k, v) then {} else {k})
  {
  }

  /** Merging an empty patch changes nothing. */
  lemma DeepMergeEmpty(rec: Object)
    ensures DeepMerge(rec, map[]) == rec
  {
  }

  /**
   * The order in which patch keys are processed does not matter: any key may go
   * last ...
   */
  lemma DeepMergeKeyLast(rec: Object, patch: Object, k: string)
    requires k in patch
    ensures DeepMerge(DeepMerge(rec, patch - {k}), map[k := patch[k]]) == DeepMerge(rec, patch)
  {
    var rest := patch - {k};
    DeepMergeStep(rec, rest, k, patch[k]);
    assert rest[k := patch[k]] == patch;
    var before := DeepMerge(rec, rest);
    DeepMergeStep(before, map[], k, patch[k]);
    DeepMergeEmpty(before);
    assert map[][k := patch[k]] == map[k := patch[k]];
  }

  /** ... or first. */
  lemma DeepMergeKeyFirst(rec: Object, patch: Object, k: string)
    requires k in patch
    ensures DeepMerge(DeepMerge(rec, map[k := patch[k]]), patch - {k}) == DeepMerge(rec, patch)
  {
    var rest := patch - {k};
    var first := DeepMerge(rec, map[k := patch[k]]);
    var r := DeepMerge(first, rest);
    var whole := DeepMerge(rec, patch);
    assert r.Keys == whole.Keys;
    forall j | j in r.Keys ensures r[j] == whole[j] {
      if j != k {
        assert j in first <==> j in rec;
        assert j in rec ==> first[j] == rec[j];
      }
    }
  }

  /** Overwrites of a second application are among those of the first. */
  lemma OverwrittenAgainWithin(rec: Object, patch: Object)
    ensures Overwritten(DeepMerge(rec, patch), patch) <= Overwritten(rec, patch)
  {
  }

  /** Applying the same patch to a record twice leaves it as applying it once. */
  lemma DeepUpdatedIdempotent(s: RecordState, patch: Object)
    ensures DeepUpdated(DeepUpdated(s, patch), patch) == DeepUpdated(s, patch)
  {
    DeepMergeIdempotent(s.contents, patch);
    OverwrittenAgainWithin(s.contents, patch);
  }

  /**
   * Merged into a record, only overwritten top-level keys are marked; a change
   * merged into an existing nested dict leaves no modified key, yet the record
   * is dirty.
   */
  lemma NestedMergeIsUnmarked()
    ensures var s := Created(map["profile" := JObj(map["score" := JInt(1)])]);
      var t := DeepUpdated(s, map["profile" := JObj(map["score" := JInt(2)])]);
      && t.modified == {} && t.Dirty() && !t.ChangesTracked()
  {
    var s := Created(map["profile" := JObj(map["score" := JInt(1)])]);
    var patch := map["profile" := JObj(map["score" := JInt(2)])];
    var t := DeepUpdated(s, patch);
    assert MergesInto(s.contents, "profile", patch["profile"]);
    assert Overwritten(s.contents, patch) == {};
    assert t.contents["profile"] == JObj(DeepMerge(map["score" := JInt(1)], map["score" := JInt(2)]));
    assert DeepMerge(map["score" := JInt(1)], map["score" := JInt(2)])["score"] == JInt(2);
    assert t.contents["profile"] != s.snapshot["profile"];
  }

  /** `_deep_update` on plain dicts: the nested levels of a record. */
  method DeepUpdate(rec: Object, patch: Object) returns (r: Object)
    ensures r == DeepMerge(rec, patch)
    decreases JObj(patch)
  {
    r := rec;
    var todo := patch.Keys;
    while todo != {}
      invariant todo <= patch.Keys
      invariant r == DeepMerge(rec, patch - todo)
      decreases todo
    {
      var k :| k in todo;
      var v := patch[k];
      DeepMergeStep(rec, patch - todo, k, v);
      assert (patch - todo)[k := v] == patch - (todo - {k});
      if v.JObj? && k in r && r[k].JObj? {
        var merged := DeepUpdate(r[k].fields, v.fields);
        r := r[k := JObj(merged)];
      } else {
        r := r[k := v];
      }
      todo := todo - {k};
    }
    assert patch - todo == patch;
  }

  // ---------------------------------------------------------------------------
  // The record class and the database operations

  /** `_validate_assign`: checks an assignment; the engine leaves it empty. */
  method ValidateAssign(key: string, value: Json, rec: Object)
  {
  }

  class TDBRecord {
    var contents: Object
    var id: Option<string>
    var metaOffset: Option<int>
    var snapshot: Object
    var modified: set<string>

    function State(): RecordState
      reads this
    {
      RecordState(contents, id, metaOffset, snapshot, modified)
    }

    constructor (initial: Object)
      ensures State() == Created(initial)
    {
      contents := initial;
      id := None;
      metaOffset := None;
      snapshot := initial;
      modified := {};
    }

    /** `dirty`: some key was added, removed or changed since the snapshot. */
    predicate Dirty()
      reads this
      ensures Dirty() <==> exists k :: DiffersAt(contents, snapshot, k)
    {
      ObjectsDiffer(contents, snapshot);
      State().Dirty()
    }

    /**
     * `modified_fields`: the keys assigned since creation or the last reload.
     * While changes are tracked, every key that differs from the snapshot is
     * among them, so a dirty record reports at least one.
     */
    function ModifiedFields(): (r: set<string>)
      reads this
      ensures r == State().modified
      ensures State().ChangesTracked() ==> forall k | DiffersAt(contents, snapshot, k) :: k in r
      ensures State().ChangesTracked() && Dirty() ==> r != {}
    {
      ObjectsDiffer(contents, snapshot);
      modified
    }

    /** `rec[key] = value` */
    method SetItem(key: string, value: Json)
      modifies this
      ensures State() == Assigned(old(State()), key, value)
    {
      ValidateAssign(key, value, contents);
      contents := contents[key := value];
      modified := modified + {key};
    }

    /** `reload()`: replaces the contents with the stored record and resets tracking. */
    method Reload(get: string -> Option<Object>) returns (r: Outcome<DbError>)
      modifies this
      ensures Reloaded(old(State()), get).Failure? ==>
                r == Fail(Reloaded(old(State()), get).error) && State() == old(State())
      ensures Reloaded(old(State()), get).Success? ==>
                r == Pass && State() == Reloaded(old(State()), get).value
    {
      if id.None? || id.value == "" {
        return Fail(ValidationError);
      }
      var loaded := get(id.value);
      if loaded.None? {
        return Fail(ConflictError);
      }
      contents := map[];
      contents := contents + loaded.value;
      snapshot := contents;
      modified := {};
      r := Pass;
    }
  }

  /** `Database.new()`: a fresh record holding the schema's defaults, here the result of `applyDefaults` on an empty dict. */
  method New(applyDefaults: Object -> Object) returns (rec: TDBRecord)
    ensures fresh(rec) && rec.State() == Created(applyDefaults(map[]))
  {
    var initial: Object := map[];
    initial := applyDefaults(initial);
    rec := new TDBRecord(initial);
  }

  /**
   * `_deep_update` applied to a record: top-level overwrites go through
   * `rec[k] = v`; a dict merged into an existing nested dict changes that
   * nested dict in place, without marking the key.
   */
  method DeepUpdateRecord(rec: TDBRecord, patch: Object)
    modifies rec
    ensures rec.State() == DeepUpdated(old(rec.State()), patch)
  {
    ghost var start := rec.State();
    var todo := patch.Keys;
    while todo != {}
      invariant todo <= patch.Keys
      invariant rec.State() == DeepUpdated(start, patch - todo)
      decreases todo
    {
      var k :| k in todo;
      var v := patch[k];
      DeepMergeStep(start.contents, patch - todo, k, v);
      assert (patch - todo)[k := v] == patch - (todo - {k});
      if v.JObj? && k in rec.contents && rec.contents[k].JObj? {
        var merged := DeepUpdate(rec.contents[k].fields, v.fields);
        rec.contents := rec.contents[k := JObj(merged)];
      } else {
        rec.SetItem(k, v);
      }
      todo := todo - {k};
    }
    assert patch - todo == patch;
  }

  /**
   * `Database.update(query, patch)`, with `found` standing for the records
   * `find(query)` yields: each is merged with the patch, and the count of
   * records is returned. A record yielded twice ends as if merged once.
   */
  method Update(found: seq<TDBRecord>, patch: Object) returns (n: nat)
    modifies set r | r in found
    ensures n == |found|
    ensures forall r | r in found :: r.State() == DeepUpdated(old(r.State()), patch)
  {
    n := 0;
    while n < |found|
      invariant n <= |found|
      invariant forall r | r in found ::
        r.State() == if r in found[..n] then DeepUpdated(old(r.State()), patch) else old(r.State())
    {
      var rec := found[n];
      if rec in found[..n] {
        DeepUpdatedIdempotent(old(rec.State()), patch);
      }
      DeepUpdateRecord(rec, patch);
      assert found[..n + 1] == found[..n] + [rec];
      n := n + 1;
    }
    assert found[..n] == found;
  }
}
