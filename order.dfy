/**
 * Ascending key order of the outcome store. Keys are compared byte by byte; comparing the
 * code points of a string in order gives the same result as comparing its UTF-8 bytes, and
 * a proper prefix sorts first.
 */
module KeyOrder {

  /** `a` sorts at or before `b`. */
  predicate LexLe(a: string, b: string)
    decreases |a|
  {
    |a| == 0 || (|b| > 0 && (a[0] < b[0] || (a[0] == b[0] && LexLe(a[1..], b[1..]))))
  }

  lemma {:induction false} LexLeReflexive(a: string)
    ensures LexLe(a, a)
    decreases |a|
  {
    if |a| > 0 {
      LexLeReflexive(a[1..]);
    }
  }

  lemma {:induction false} LexLeTotal(a: string, b: string)
    ensures LexLe(a, b) || LexLe(b, a)
    decreases |a|
  {
    if |a| > 0 && |b| > 0 && a[0] == b[0] {
      LexLeTotal(a[1..], b[1..]);
    }
  }

  lemma {:induction false} LexLeAntisymmetric(a: string, b: string)
    requires LexLe(a, b) && LexLe(b, a)
    ensures a == b
    decreases |a|
  {
    if |a| > 0 {
      LexLeAntisymmetric(a[1..], b[1..]);
      assert a == [a[0]] + a[1..] && b == [b[0]] + b[1..];
    }
  }

  lemma {:induction false} LexLeTransitive(a: string, b: string, c: string)
    requires LexLe(a, b) && LexLe(b, c)
    ensures LexLe(a, c)
    decreases |a|
  {
    if |a| > 0 && a[0] == b[0] && b[0] == c[0] {
      LexLeTransitive(a[1..], b[1..], c[1..]);
    }
  }

  /** `m` is the first of `keys` in ascending order. */
  predicate IsLeast(m: string, keys: set<string>)
  {
    m in keys && forall k | k in keys :: LexLe(m, k)
  }

  /** Some member of a non-empty set. */
  ghost function Pick(keys: set<string>): (k: string)
    requires keys != {}
    ensures k in keys
  {
    var k :| k in keys; k
  }

  /** The smallest key: what an ascending range over the store yields first. */
  ghost function MinKey(keys: set<string>): (m: string)
    requires keys != {}
    ensures m in keys
    decreases keys
  {
    var x := Pick(keys);
    if keys == {x} then x
    else
      var m := MinKey(keys - {x});
      if LexLe(x, m) then x else m
  }

  lemma {:induction false} MinKeyIsLeast(keys: set<string>)
    requires keys != {}
    ensures IsLeast(MinKey(keys), keys)
    decreases keys
  {
    var x := Pick(keys);
    if keys == {x} {
      LexLeReflexive(x);
    } else {
      var rest := keys - {x};
      MinKeyIsLeast(rest);
      var m := MinKey(rest);
      if LexLe(x, m) {
        forall k | k in keys
          ensures LexLe(x, k)
        {
          if k == x {
            LexLeReflexive(x);
          } else {
            LexLeTransitive(x, m, k);
          }
        }
      } else {
        LexLeTotal(x, m);
      }
    }
  }

  /** The first key is unique, so any way of finding it finds `MinKey`. */
  lemma LeastIsMinKey(m: string, keys: set<string>)
    requires IsLeast(m, keys)
    ensures m == MinKey(keys)
  {
    MinKeyIsLeast(keys);
    LexLeAntisymmetric(m, MinKey(keys));
  }
}
