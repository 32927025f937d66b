// Vocabulary shared by the modules: the option type.
module Common {
  datatype Option<+T> = None | Some(value: T) {
    /** The value, or a default when there is none. */
    function GetOr(default: T): T {
      match this
      case Some(v) => v
      case None => default
    }
  }

  /** m with f applied to the values of some of its keys. */
  function Touch<K, V>(m: map<K, V>, keys: set<K>, f: V -> V): map<K, V> {
    map k | k in m :: if k in keys then f(m[k]) else m[k]
  }

  /** Some keys have been visited: their values are touched, and the hits among them are counted. */
  ghost predicate Visited<K, V>(was: map<K, V>, now: map<K, V>, done: set<K>, hits: set<K>, count: nat, f: V -> V) {
    now == Touch(was, done, f) && count == |hits * done|
  }

  lemma VisitOneMore<K, V>(was: map<K, V>, now: map<K, V>, done: set<K>, hits: set<K>, count: nat, f: V -> V, k: K)
    requires Visited(was, now, done, hits, count, f)
    requires k in was && k in done ==> f(f(was[k])) == f(was[k])
    ensures Visited(was, Touch(now, {k}, f), done + {k}, hits, count + if k in hits && k !in done then 1 else 0, f)
  {
    TouchOneMore(was, done, f, k);
    HitOneMore(hits, done, k);
  }

  lemma TouchOneMore<K, V>(m: map<K, V>, done: set<K>, f: V -> V, k: K)
    requires k in m && k in done ==> f(f(m[k])) == f(m[k])
    ensures Touch(Touch(m, done, f), {k}, f) == Touch(m, done + {k}, f)
  {}

  lemma HitOneMore<K>(hits: set<K>, done: set<K>, k: K)
    ensures |hits * (done + {k})| == |hits * done| + if k in hits && k !in done then 1 else 0
  {
    if k in hits && k !in done {
      assert hits * (done + {k}) == hits * done + {k};
    } else {
      assert hits * (done + {k}) == hits * done;
    }
  }

  lemma VisitedAll<K, V>(was: map<K, V>, now: map<K, V>, done: set<K>, hits: set<K>, count: nat, f: V -> V, all: set<K>)
    requires Visited(was, now, done, hits, count, f)
    requires hits <= done
    requires forall k | k in was && (k in done <==> k !in all) :: f(was[k]) == was[k]
    ensures now == Touch(was, all, f) && count == |hits|
  {
    assert hits * done == hits;
  }

  /** The keys whose values satisfy p. */
  function Where<K, V>(m: map<K, V>, p: V -> bool): set<K> {
    set k | k in m && p(m[k])
  }

  lemma WhereAfterUpdate<K, V>(m: map<K, V>, p: V -> bool, k: K, v: V)
    ensures |Where(m[k := v], p)| == |Where(m, p)| + (if p(v) then 1 else 0) - (if k in m && p(m[k]) then 1 else 0)
  {
    var before, after := Where(m, p), Where(m[k := v], p);
    if p(v) {
      assert after == before + {k};
    } else {
      assert after == before - {k};
    }
  }
}
