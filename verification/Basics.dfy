/** Shared vocabulary of the model. */
module Basics {

  datatype Option<+T> = None | Some(value: T)

  /** `std::unordered_map::emplace`: an existing key keeps its value. */
  function Emplace<K, V>(m: map<K, V>, k: K, v: V): (r: map<K, V>)
    ensures k in r && r[k] == if k in m then m[k] else v
    ensures r.Keys == m.Keys + {k}
    ensures forall x :: x in m ==> r[x] == m[x]
  {
    if k in m then m else m[k := v]
  }

  function Min(a: nat, b: nat): (r: nat)
    ensures r <= a && r <= b && (r == a || r == b)
  {
    if a <= b then a else b
  }

  function Max(a: nat, b: nat): (r: nat)
    ensures r >= a && r >= b && (r == a || r == b)
  {
    if a >= b then a else b
  }

  /** ceil(a / b) */
  function CeilDiv(a: nat, b: nat): (r: nat)
    requires b > 0
    ensures a <= r * b && (r > 0 ==> (r - 1) * b < a)
  {
    if a == 0 then 0 else (a - 1) / b + 1
  }

  /** An injective map has as many values as keys. */
  lemma {:induction false} InjectiveMapSize<A, B>(m: map<A, B>)
    requires forall a, b :: a in m && b in m && m[a] == m[b] ==> a == b
    ensures |m.Keys| == |m.Values|
    decreases |m|
  {
    if m == map[] {
      assert m.Keys == {} && m.Values == {};
    } else {
      var x :| x in m;
      var rest := m - {x};
      assert rest.Keys == m.Keys - {x};
      assert |rest.Keys| == |m.Keys| - 1;
      assert rest.Values == m.Values - {m[x]} by {
        forall v | v in m.Values && v != m[x] ensures v in rest.Values {
          var y :| y in m && m[y] == v;
          assert y in rest && rest[y] == v;
        }
        forall v | v in rest.Values ensures v in m.Values && v != m[x] {
          var y :| y in rest && rest[y] == v;
          assert y in m && m[y] == v;
        }
      }
      InjectiveMapSize(rest);
    }
  }

  lemma SubsetSize<T>(a: set<T>, b: set<T>)
    requires a <= b
    ensures |a| <= |b|
  {
    assert b == a + (b - a);
  }

  /** Two subsets that are together larger than the whole share an element. */
  lemma SetsMeet<T>(all: set<T>, a: set<T>, b: set<T>) returns (x: T)
    requires a <= all && b <= all && |a| + |b| > |all|
    ensures x in a && x in b
  {
    SubsetSize(a + b, all);
    assert |a + b| + |a * b| == |a| + |b|;
    x :| x in a * b;
  }
}
