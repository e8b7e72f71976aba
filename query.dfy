/**
 * Fast-plan eligibility: `is_simple_query` walks a nested query dict, counts
 * scalar predicates against a budget and rejects any visited level that carries
 * a disjunction, membership, regex or containment operator.
 *
 * The specification (`Clean`, `Terms`, `IsSimple`) describes the walk without
 * its early exit; `Visit` and `IsSimpleQuery` model the source's walk, with the
 * shared `terms` counter threaded through as an in/out parameter, and are proved
 * to give the specification's answer.
 */
module Query {
  import opened Wrappers
  import opened JsonValues

  /** Comparison operators that make a dict value a single scalar predicate. */
  const SimpleOps: set<string> := {"$eq", "$ne", "$gt", "$gte", "$lt", "$lte"}

  /** Keys whose presence on a visited level disqualifies the query. */
  const BannedKeys: set<string> := {"$or", "$in", "$nin", "$regex", "$contains"}

  /** The default budget of predicates (`max_terms`). */
  const DefaultMaxTerms: int := 3

  predicate HasSimpleOp(m: Object) {
    SimpleOps * m.Keys != {}
  }

  predicate HasBannedKey(m: Object) {
    BannedKeys * m.Keys != {}
  }

  /** A field value the walk descends into: a dict with no simple operator. */
  predicate IsNestedLevel(v: Json) {
    v.JObj? && !HasSimpleOp(v.fields)
  }

  /** No level the walk visits carries a banned key. */
  predicate Clean(q: Json)
    decreases q
  {
    q.JObj? ==>
      && !HasBannedKey(q.fields)
      && forall k | k in q.fields :: IsNestedLevel(q.fields[k]) ==> Clean(q.fields[k])
  }

  /** Number of predicates the walk counts in `q`, ignoring the early exit. */
  ghost function Terms(q: Json): nat
    decreases q, 1
  {
    if q.JObj? then FieldsTerms(q.fields, q.fields.Keys) else 0
  }

  /** Terms one field value adds: its nested count if the walk descends, otherwise one. */
  ghost function FieldTerms(v: Json): nat
    decreases v, 2
  {
    if IsNestedLevel(v) then Terms(v) else 1
  }

  /** Sum of `FieldTerms` over the fields of `m` named in `ks`. */
  ghost function FieldsTerms(m: Object, ks: set<string>): nat
    requires ks <= m.Keys
    decreases JObj(m), 0, ks
  {
    if ks == {} then 0
    else
      var k :| k in ks;
      FieldTerms(m[k]) + FieldsTerms(m, ks - {k})
  }

  /** The answer `is_simple_query` is meant to give. */
  ghost predicate IsSimple(q: Json, maxTerms: int) {
    Clean(q) && Terms(q) <= maxTerms
  }

  lemma FieldsTermsRemove(m: Object, ks: set<string>, x: string)
    requires x in ks && ks <= m.Keys
    ensures FieldsTerms(m, ks) == FieldTerms(m[x]) + FieldsTerms(m, ks - {x})
    decreases ks
  {
    var y :| y in ks && FieldsTerms(m, ks) == FieldTerms(m[y]) + FieldsTerms(m, ks - {y});
    if y != x {
      FieldsTermsRemove(m, ks - {y}, x);
      FieldsTermsRemove(m, ks - {x}, y);
      assert ks - {y} - {x} == ks - {x} - {y};
    }
  }

  lemma {:induction false} FieldsTermsSplit(m: Object, a: set<string>, b: set<string>)
    requires a <= m.Keys && b <= m.Keys && a !! b
    ensures FieldsTerms(m, a + b) == FieldsTerms(m, a) + FieldsTerms(m, b)
    decreases a
  {
    if a == {} {
      assert a + b == b;
    } else {
      var x :| x in a;
      FieldsTermsRemove(m, a + b, x);
      FieldsTermsRemove(m, a, x);
      assert (a + b) - {x} == (a - {x}) + b;
      FieldsTermsSplit(m, a - {x}, b);
    }
  }

  /** `FieldsTerms` depends only on the fields it sums over. */
  lemma {:induction false} FieldsTermsAgree(m1: Object, m2: Object, ks: set<string>)
    requires ks <= m1.Keys && ks <= m2.Keys
    requires forall k | k in ks :: m1[k] == m2[k]
    ensures FieldsTerms(m1, ks) == FieldsTerms(m2, ks)
    decreases ks
  {
    if ks != {} {
      var x :| x in ks;
      FieldsTermsRemove(m1, ks, x);
      FieldsTermsRemove(m2, ks, x);
      FieldsTermsAgree(m1, m2, ks - {x});
    }
  }

  /**
   * Adding a field to a query level adds that field's terms to the total, and the
   * level stays clean iff the key is not banned and a nested value is clean.
   */
  lemma AddField(m: Object, k: string, v: Json)
    requires k !in m
    ensures Terms(JObj(m[k := v])) == Terms(JObj(m)) + FieldTerms(v)
    ensures Clean(JObj(m[k := v])) <==>
              Clean(JObj(m)) && k !in BannedKeys && (IsNestedLevel(v) ==> Clean(v))
  {
    var m' := m[k := v];
    FieldsTermsRemove(m', m'.Keys, k);
    assert m'.Keys - {k} == m.Keys;
    FieldsTermsAgree(m', m, m.Keys);
    assert HasBannedKey(m') <==> HasBannedKey(m) || k in BannedKeys by {
      if k in BannedKeys {
        assert k in BannedKeys * m'.Keys;
      } else {
        assert BannedKeys * m'.Keys == BannedKeys * m.Keys;
      }
      if HasBannedKey(m) {
        var b :| b in BannedKeys * m.Keys;
        assert b in BannedKeys * m'.Keys;
      }
    }
  }

  /**
   * A field whose value holds a simple comparison operator is one term, however
   * many operators it holds, and its dict is not looked into: a `$in` beside the
   * comparison does not disqualify the query.
   */
  lemma OperatorFieldIsOneTerm(m: Object, k: string, ops: Object)
    requires k !in m && k !in BannedKeys && HasSimpleOp(ops)
    ensures Terms(JObj(m[k := JObj(ops)])) == Terms(JObj(m)) + 1
    ensures Clean(JObj(m[k := JObj(ops)])) == Clean(JObj(m))
  {
    AddField(m, k, JObj(ops));
  }

  /** A non-dict field value, scalar or list, is one implicit equality. */
  lemma ScalarFieldIsOneTerm(m: Object, k: string, v: Json)
    requires k !in m && k !in BannedKeys && !v.JObj?
    ensures Terms(JObj(m[k := v])) == Terms(JObj(m)) + 1
    ensures Clean(JObj(m[k := v])) == Clean(JObj(m))
  {
    AddField(m, k, v);
  }

  /** A dict value without a simple operator is walked into; its terms add to the total. */
  lemma NestedFieldAddsItsTerms(m: Object, k: string, sub: Object)
    requires k !in m && k !in BannedKeys && !HasSimpleOp(sub)
    ensures Terms(JObj(m[k := JObj(sub)])) == Terms(JObj(m)) + Terms(JObj(sub))
    ensures Clean(JObj(m[k := JObj(sub)])) == (Clean(JObj(m)) && Clean(JObj(sub)))
  {
    AddField(m, k, JObj(sub));
  }

  /** The dict the walk reaches from `q` by descending through the keys of `path`, if it does. */
  function VisitedLevel(q: Json, path: seq<string>): (r: Option<Object>)
    ensures r.Some? ==> q.JObj?
    decreases path
  {
    if !q.JObj? then None
    else if path == [] then Some(q.fields)
    else if path[0] in q.fields && IsNestedLevel(q.fields[path[0]]) then VisitedLevel(q.fields[path[0]], path[1..])
    else None
  }

  predicate BannedOnLevel(q: Json, path: seq<string>) {
    var level := VisitedLevel(q, path);
    level.Some? && HasBannedKey(level.value)
  }

  lemma {:induction false} BannedLevelIsUnclean(q: Json, path: seq<string>)
    requires BannedOnLevel(q, path)
    ensures !Clean(q)
    decreases path
  {
    if path != [] {
      BannedLevelIsUnclean(q.fields[path[0]], path[1..]);
    }
  }

  lemma {:induction false} UncleanHasBannedLevel(q: Json) returns (path: seq<string>)
    requires !Clean(q)
    ensures BannedOnLevel(q, path)
    decreases q
  {
    if HasBannedKey(q.fields) {
      path := [];
    } else {
      var k :| k in q.fields && IsNestedLevel(q.fields[k]) && !Clean(q.fields[k]);
      var rest := UncleanHasBannedLevel(q.fields[k]);
      path := [k] + rest;
      assert path[0] == k && path[1..] == rest;
    }
  }

  /**
   * The answer is true iff no banned key occurs on any level the walk visits and
   * the total number of terms is within the budget.
   */
  lemma IsSimpleCharacterization(q: Json, maxTerms: int)
    ensures IsSimple(q, maxTerms) <==>
              (forall path :: !BannedOnLevel(q, path)) && Terms(q) <= maxTerms
  {
    if Clean(q) {
      forall path ensures !BannedOnLevel(q, path) {
        if BannedOnLevel(q, path) {
          BannedLevelIsUnclean(q, path);
        }
      }
    } else {
      var path := UncleanHasBannedLevel(q);
    }
  }

  /** A banned key on the top level, or on any visited level, makes the answer false. */
  lemma BannedKeyRejects(q: Json, path: seq<string>, maxTerms: int)
    requires BannedOnLevel(q, path)
    ensures !IsSimple(q, maxTerms)
  {
    BannedLevelIsUnclean(q, path);
  }

  /** An empty query, or one that is not a dict, is simple with zero terms. */
  lemma EmptyOrScalarQueryIsSimple(q: Json, maxTerms: int)
    requires !q.JObj? || q.fields == map[]
    requires maxTerms >= 0
    ensures Terms(q) == 0 && IsSimple(q, maxTerms)
  {
  }

  /** Raising the budget never turns an accepted query into a rejected one. */
  lemma MonotoneInMaxTerms(q: Json, m: int, m': int)
    requires m <= m' && IsSimple(q, m)
    ensures IsSimple(q, m')
  {
  }

  /** A field that is one predicate: a non-dict value, or a dict holding a simple operator. */
  predicate IsPredicateField(v: Json) {
    !v.JObj? || HasSimpleOp(v.fields)
  }

  lemma {:induction false} PredicateFieldsCountOnce(m: Object, ks: set<string>)
    requires ks <= m.Keys
    requires forall k | k in ks :: IsPredicateField(m[k])
    ensures FieldsTerms(m, ks) == |ks|
    decreases ks
  {
    if ks != {} {
      var x :| x in ks;
      FieldsTermsRemove(m, ks, x);
      PredicateFieldsCountOnce(m, ks - {x});
    }
  }

  /**
   * A flat query of predicate fields with no banned key is accepted under the
   * default budget iff it has at most three fields: three equality fields are
   * accepted, four are rejected.
   */
  lemma DefaultBudget(m: Object)
    requires !HasBannedKey(m)
    requires forall k | k in m :: IsPredicateField(m[k])
    ensures IsSimple(JObj(m), DefaultMaxTerms) <==> |m| <= 3
  {
    PredicateFieldsCountOnce(m, m.Keys);
    assert |m.Keys| == |m|;
  }

  /** `{"a": 1, "b": 2, "c": 3}` and the same with `"d": 4` added. */
  const ThreeEqualities: Object := map["a" := JInt(1), "b" := JInt(2), "c" := JInt(3)]
  const FourEqualities: Object := ThreeEqualities["d" := JInt(4)]

  lemma ThreeEqualitiesAreFlat()
    ensures |ThreeEqualities| == 3 && !HasBannedKey(ThreeEqualities)
    ensures forall k | k in ThreeEqualities :: IsPredicateField(ThreeEqualities[k])
  {
    assert ThreeEqualities.Keys == {"a", "b", "c"};
    assert |ThreeEqualities.Keys| == 3;
    assert BannedKeys * ThreeEqualities.Keys == {};
  }

  lemma FourEqualitiesAreFlat()
    ensures |FourEqualities| == 4 && !HasBannedKey(FourEqualities)
    ensures forall k | k in FourEqualities :: IsPredicateField(FourEqualities[k])
  {
    ThreeEqualitiesAreFlat();
    assert "d" !in ThreeEqualities.Keys;
    assert FourEqualities.Keys == ThreeEqualities.Keys + {"d"};
    assert "d" !in BannedKeys;
    assert BannedKeys * FourEqualities.Keys == BannedKeys * ThreeEqualities.Keys;
  }

  /** With the default budget, three equality fields are accepted and four are rejected. */
  lemma ThreeAcceptedFourRejected()
    ensures IsSimple(JObj(ThreeEqualities), DefaultMaxTerms)
    ensures !IsSimple(JObj(FourEqualities), DefaultMaxTerms)
  {
    ThreeEqualitiesAreFlat();
    FourEqualitiesAreFlat();
    DefaultBudget(ThreeEqualities);
    DefaultBudget(FourEqualities);
  }

  /** A comparison with a `$in` beside it is still one simple term. */
  lemma OperatorWithSiblingInIsSimple()
    ensures IsSimple(JObj(map["age" := JObj(map["$gte" := JInt(0), "$in" := JList([JInt(1)])])]), DefaultMaxTerms)
  {
    var ops := map["$gte" := JInt(0), "$in" := JList([JInt(1)])];
    assert "$gte" in SimpleOps * ops.Keys;
    OperatorFieldIsOneTerm(map[], "age", ops);
    assert map[]["age" := JObj(ops)] == map["age" := JObj(ops)];
  }

  /**
   * The walk `visit`: with the shared counter at `terms0` on entry, it returns
   * whether the level passed, and the counter on exit. When it passes, it has
   * counted every term of `obj` and seen no banned key; when it fails, the
   * specification rejects `obj` from that starting count too, so the early exit
   * never changes the final answer.
   */
  method Visit(obj: Json, maxTerms: int, terms0: int) returns (ok: bool, terms: int)
    ensures ok ==> Clean(obj) && terms == terms0 + Terms(obj)
    ensures !ok ==> !(Clean(obj) && terms0 + Terms(obj) <= maxTerms)
    decreases obj
  {
    terms := terms0;
    if terms > maxTerms {
      return false, terms;
    }
    if !obj.JObj? {
      return true, terms;
    }
    var m := obj.fields;
    if HasBannedKey(m) {
      return false, terms;
    }
    var todo := m.Keys;
    ghost var done: set<string> := {};
    while todo != {}
      invariant todo <= m.Keys && done == m.Keys - todo
      invariant terms == terms0 + FieldsTerms(m, done)
      invariant forall k | k in done :: IsNestedLevel(m[k]) ==> Clean(m[k])
      decreases todo
    {
      var k :| k in todo;
      var v := m[k];
      FieldsTermsRemove(m, done + {k}, k);
      assert done + {k} - {k} == done;
      if v.JObj? {
        if HasSimpleOp(v.fields) {
          terms := terms + 1;
        } else {
          var before := terms;
          var sub;
          sub, terms := Visit(v, maxTerms, terms);
          if !sub {
            FieldsTermsSplit(m, done, todo);
            FieldsTermsRemove(m, todo, k);
            assert done + todo == m.Keys;
            return false, terms;
          }
        }
      } else {
        terms := terms + 1;
      }
      todo := todo - {k};
      done := done + {k};
    }
    assert done == m.Keys;
    ok := true;
  }

  /** `is_simple_query(q, max_terms)`: the walk's answer, with the final budget check. */
  method IsSimpleQuery(q: Json, maxTerms: int := DefaultMaxTerms) returns (r: bool)
    ensures r <==> IsSimple(q, maxTerms)
  {
    var ok, terms := Visit(q, maxTerms, 0);
    r := ok && terms <= maxTerms;
  }
}
