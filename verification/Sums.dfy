/** Sums over finite maps and counting of finite sets. */
module Sums {
  function At<K>(m: map<K, int>, k: K): int { if k in m then m[k] else 0 }

  /** The sum of all values of a map. */
  ghost function Sum<K>(m: map<K, int>): int
  {
    if m == map[] then 0 else var k :| k in m; m[k] + Sum(m - {k})
  }

  /** Any key may be taken out first. */
  lemma {:induction false} SumRemove<K>(m: map<K, int>, k: K)
    requires k in m
    ensures Sum(m) == m[k] + Sum(m - {k})
    decreases |m|
  {
    var j :| j in m && Sum(m) == m[j] + Sum(m - {j});
    if j != k {
      SumRemove(m - {j}, k);
      assert (m - {j}) - {k} == (m - {k}) - {j};
      SumRemove(m - {k}, j);
    }
  }

  lemma SumUpdate<K>(m: map<K, int>, k: K, v: int)
    ensures Sum(m[k := v]) == Sum(m) - At(m, k) + v
  {
    SumRemove(m[k := v], k);
    assert m[k := v] - {k} == m - {k};
    if k in m {
      SumRemove(m, k);
    } else {
      assert m - {k} == m;
    }
  }

  /** An injection from `s` into `t` bounds the size of `s`. */
  lemma {:induction false} Injects<A, B>(s: set<A>, t: set<B>, f: map<A, B>)
    requires forall a :: a in s ==> a in f && f[a] in t
    requires forall a, b :: a in s && b in s && a != b ==> f[a] != f[b]
    ensures |s| <= |t|
    decreases |s|
  {
    if s != {} {
      var a :| a in s;
      Injects(s - {a}, t - {f[a]}, f);
    }
  }

  /** Maps that agree at every key, counting absent keys as zero, have the same sum. */
  lemma {:induction false} SumSame<K(!new)>(a: map<K, int>, b: map<K, int>)
    requires forall k :: At(a, k) == At(b, k)
    ensures Sum(a) == Sum(b)
    decreases |a| + |b|
  {
    if k :| k in a {
      SumRemove(a, k);
      if k in b {
        SumRemove(b, k);
        assert At(a, k) == At(b, k);
        forall j ensures At(a - {k}, j) == At(b - {k}, j) {
          assert At(a, j) == At(b, j);
        }
        SumSame(a - {k}, b - {k});
      } else {
        assert At(a, k) == At(b, k);
        SumSame(a - {k}, b);
      }
    } else if k :| k in b {
      assert At(a, k) == At(b, k);
      SumRemove(b, k);
      SumSame(a, b - {k});
    } else {
      assert a == map[] && b == map[];
    }
  }

  /** `SELECT label, SUM(value) ... GROUP BY label`. */
  ghost function Group<K, L>(m: map<K, int>, name: K -> L): map<L, int>
  {
    map l | l in (set k | k in m :: name(k)) :: Sum(Part(m, name, l))
  }

  ghost function Part<K, L>(m: map<K, int>, name: K -> L, l: L): map<K, int>
  {
    map k | k in m && name(k) == l :: m[k]
  }

  /** Adding to one value adds to the value's group. */
  lemma GroupAdd<K, L>(m: map<K, int>, k: K, v: int, name: K -> L)
    ensures Group(m[k := At(m, k) + v], name) ==
            Group(m, name)[name(k) := At(Group(m, name), name(k)) + v]
  {
    hide Sum;
    var m', g := m[k := At(m, k) + v], Group(m, name);
    var g' := Group(m', name);
    assert (set j | j in m' :: name(j)) == (set j | j in m :: name(j)) + {name(k)};
    forall l | l in g' ensures g'[l] == g[name(k) := At(g, name(k)) + v][l] {
      if l == name(k) {
        assert Part(m', name, l) == Part(m, name, l)[k := At(m, k) + v];
        SumUpdate(Part(m, name, l), k, At(m, k) + v);
        GroupAt(m, name, l);
      } else {
        assert Part(m', name, l) == Part(m, name, l);
        assert l in g;
      }
    }
  }

  lemma GroupAt<K, L>(m: map<K, int>, name: K -> L, l: L)
    ensures At(Group(m, name), l) == Sum(Part(m, name, l))
  {
    if l !in Group(m, name) {
      assert forall k :: k in m ==> name(k) in (set j | j in m :: name(j));
      assert Part(m, name, l) == map[];
    }
  }

  /** Grouping loses nothing: the groups sum to the whole. */
  lemma {:induction false} GroupTotal<K, L>(m: map<K, int>, name: K -> L)
    ensures Sum(Group(m, name)) == Sum(m)
    decreases |m|
  {
    hide Group;
    if k :| k in m {
      var rest := m - {k};
      GroupTotal(rest, name);
      assert m == rest[k := At(rest, k) + m[k]];
      GroupAdd(rest, k, m[k], name);
      SumUpdate(Group(rest, name), name(k), At(Group(rest, name), name(k)) + m[k]);
      SumRemove(m, k);
    } else {
      assert m == map[];
      GroupEmpty<K, L>(name);
    }
  }

  lemma GroupEmpty<K, L>(name: K -> L)
    ensures Group(map[], name) == map[]
  {
  }

  /** Grouping by a coarser label is grouping the groups. */
  lemma {:induction false} GroupOfGroups<K, L, C>(m: map<K, int>, name: K -> L, coarse: L -> C, both: K -> C)
    requires forall k :: k in m ==> both(k) == coarse(name(k))
    ensures Group(Group(m, name), coarse) == Group(m, both)
    decreases |m|
  {
    hide Group;
    if k :| k in m {
      var rest := m - {k};
      GroupOfGroups(rest, name, coarse, both);
      assert m == rest[k := At(rest, k) + m[k]];
      GroupAdd(rest, k, m[k], name);
      GroupAdd(rest, k, m[k], both);
      GroupAdd(Group(rest, name), name(k), m[k], coarse);
    } else {
      assert m == map[];
      GroupEmpty<K, L>(name);
      GroupEmpty<K, C>(both);
      GroupEmpty<L, C>(coarse);
    }
  }

  /** Map iteration comes in no particular order. */
  method AnyOf<T>(todo: set<T>) returns (t: T)
    requires todo != {}
    ensures t in todo
  {
    t :| t in todo;
  }

  lemma Member<T>(s: set<T>) returns (x: T)
    requires s != {}
    ensures x in s
  {
    x :| x in s;
  }

  lemma MinusMore<K, V>(m: map<K, V>, gone: set<K>, k: K)
    ensures m - gone - {k} == m - (gone + {k})
  {
  }
}
