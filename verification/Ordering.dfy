/** The order Go gives strings, sorted enumerations of sets of strings, and small
    facts about maps that several modules count with. */
module Ordering {

  /** Go's `<` on strings: the first difference decides, a proper prefix comes first. */
  predicate Less(a: string, b: string) {
    if a == [] then b != []
    else b != [] && (a[0] < b[0] || (a[0] == b[0] && Less(a[1..], b[1..])))
  }

  /** Less holds exactly if `a` is a proper prefix of `b` or is smaller at the first place, after k equal
      ones, where they differ. */
  lemma {:induction false} LessIsLexicographic(a: string, b: string, k: nat)
    requires k <= |a| && k <= |b| && a[..k] == b[..k]
    requires k == |a| || k == |b| || a[k] != b[k]
    ensures Less(a, b) <==> k < |b| && (k == |a| || a[k] < b[k])
    decreases k
  {
    if k > 0 {
      assert a[0] == a[..k][0] == b[0];
      assert a[1..][..k - 1] == a[..k][1..] == b[1..][..k - 1];
      LessIsLexicographic(a[1..], b[1..], k - 1);
    }
  }

  lemma {:induction false} LessIsTotal(a: string, b: string)
    ensures Less(a, b) || Less(b, a) || a == b
  {
    if a != [] && b != [] && a[0] == b[0] {
      LessIsTotal(a[1..], b[1..]);
      assert a == [a[0]] + a[1..] && b == [b[0]] + b[1..];
    }
  }

  lemma {:induction false} LessIsTransitive(a: string, b: string, c: string)
    requires Less(a, b) && Less(b, c)
    ensures Less(a, c)
  {
    if a != [] && a[0] == b[0] && b[0] == c[0] {
      LessIsTransitive(a[1..], b[1..], c[1..]);
    }
  }

  lemma {:induction false} LessIsAsymmetric(a: string, b: string)
    requires Less(a, b)
    ensures !Less(b, a)
  {
    if a != [] && a[0] == b[0] {
      LessIsAsymmetric(a[1..], b[1..]);
    }
  }

  ghost predicate StrictlySorted(xs: seq<string>) {
    forall i, j :: 0 <= i < j < |xs| ==> Less(xs[i], xs[j])
  }

  ghost function Elements<T>(xs: seq<T>): set<T> {
    set x | x in xs
  }

  ghost predicate Distinct<T>(xs: seq<T>) {
    forall i, j :: 0 <= i < j < |xs| ==> xs[i] != xs[j]
  }

  /** `xs` is the sorted enumeration of `keys`. */
  ghost predicate Enumerates(xs: seq<string>, keys: set<string>) {
    StrictlySorted(xs) && Elements(xs) == keys
  }

  lemma SortedIsDistinct(xs: seq<string>)
    requires StrictlySorted(xs)
    ensures Distinct(xs)
  {
    forall i, j | 0 <= i < j < |xs| ensures xs[i] != xs[j] {
      LessIsAsymmetric(xs[i], xs[j]);
    }
  }

  /** A set has only one sorted enumeration. */
  lemma {:induction false} EnumerationIsUnique(xs: seq<string>, ys: seq<string>, keys: set<string>)
    requires Enumerates(xs, keys) && Enumerates(ys, keys)
    ensures xs == ys
  {
    assert forall x :: x in xs <==> x in Elements(xs);
    assert forall i :: 0 <= i < |ys| ==> ys[i] in Elements(ys) && ys[i] in xs;
    if xs != [] {
      assert xs[0] in Elements(xs);
      var i :| 0 <= i < |ys| && ys[i] == xs[0];
      var j :| 0 <= j < |xs| && xs[j] == ys[0];
      if i != 0 && j != 0 {
        LessIsAsymmetric(ys[0], ys[i]);
        assert false;
      }
      SortedIsDistinct(xs);
      SortedIsDistinct(ys);
      assert xs == [xs[0]] + xs[1..] && ys == [ys[0]] + ys[1..];
      assert Elements(xs[1..]) == keys - {xs[0]};
      assert Elements(ys[1..]) == keys - {xs[0]};
      EnumerationIsUnique(xs[1..], ys[1..], keys - {xs[0]});
    }
  }

  /** sort.Strings on a slice without repetitions. */
  function SortStrings(xs: seq<string>): (sorted: seq<string>)
    requires Distinct(xs)
    ensures Enumerates(sorted, Elements(xs)) && |sorted| == |xs|
  {
    if xs == [] then [] else
      assert xs == [xs[0]] + xs[1..];
      var tail := SortStrings(xs[1..]);
      assert xs[0] !in xs[1..];
      assert xs[0] !in Elements(tail);
      Insert(xs[0], tail)
  }

  function Insert(x: string, xs: seq<string>): (sorted: seq<string>)
    requires StrictlySorted(xs) && x !in xs
    ensures Enumerates(sorted, Elements(xs) + {x}) && |sorted| == |xs| + 1
  {
    if xs == [] then [x]
    else if Less(x, xs[0]) then
      InsertFront(x, xs);
      [x] + xs
    else
      assert xs == [xs[0]] + xs[1..];
      var tail := Insert(x, xs[1..]);
      InsertBehind(x, xs, tail);
      [xs[0]] + tail
  }

  lemma InsertFront(x: string, xs: seq<string>)
    requires StrictlySorted(xs) && xs != [] && Less(x, xs[0])
    ensures Enumerates([x] + xs, Elements(xs) + {x})
  {
    forall j | 0 < j < |xs| ensures Less(x, xs[j]) {
      LessIsTransitive(x, xs[0], xs[j]);
    }
  }

  lemma InsertBehind(x: string, xs: seq<string>, tail: seq<string>)
    requires StrictlySorted(xs) && xs != [] && !Less(x, xs[0]) && x !in xs
    requires Enumerates(tail, Elements(xs[1..]) + {x})
    ensures Enumerates([xs[0]] + tail, Elements(xs) + {x})
  {
    LessIsTotal(x, xs[0]);
    forall j | 0 <= j < |tail| ensures Less(xs[0], tail[j]) {
      assert tail[j] in Elements(tail);
    }
    assert xs == [xs[0]] + xs[1..];
    var all := [xs[0]] + tail;
    assert Elements(all) == Elements(tail) + {xs[0]};
  }

  /** Ranging over the keys of a Go map: each once, in an arbitrary order. */
  method InSomeOrder(keys: set<string>) returns (ids: seq<string>)
    ensures Distinct(ids) && Elements(ids) == keys
  {
    ids := [];
    var todo := keys;
    while todo != {}
      invariant todo <= keys && Distinct(ids) && Elements(ids) == keys - todo
    {
      var id :| id in todo;
      assert id !in Elements(ids) && Elements(ids + [id]) == Elements(ids) + {id};
      ids := ids + [id];
      todo := todo - {id};
    }
  }

  /** The sorted enumeration of a set. */
  ghost function Sorted(keys: set<string>): (xs: seq<string>)
    ensures Enumerates(xs, keys)
  {
    EnumerationExists(keys);
    var xs :| Enumerates(xs, keys);
    xs
  }

  lemma EnumerationExists(keys: set<string>)
    ensures exists xs :: Enumerates(xs, keys)
  {
    if keys == {} {
      assert Enumerates([], keys);
    } else {
      var k :| k in keys;
      EnumerationExists(keys - {k});
      var xs :| Enumerates(xs, keys - {k});
      assert k !in Elements(xs);
      assert Enumerates(Insert(k, xs), keys);
    }
  }

  /** How many keys of a map carry a given value. */
  ghost function Count<K, V>(m: map<K, V>, v: V): nat {
    |set k | k in m && m[k] == v|
  }

  lemma CountAfterUpdate<K, V>(m: map<K, V>, k: K, now: V, v: V)
    ensures Count(m[k := now], v) == Count(m, v)
                                   - (if k in m && m[k] == v then 1 else 0)
                                   + (if now == v then 1 else 0)
  {
    var next := m[k := now];
    var before := set x | x in m && m[x] == v;
    var others := set x | x in m && m[x] == v && x != k;
    CountIs(m, v, before);
    if k in before { OneMore(others, before, k); } else { assert others == before; }
    if now == v {
      CountIs(next, v, others + {k});
    } else {
      CountIs(next, v, others);
    }
  }

  lemma CountIs<K, V>(m: map<K, V>, v: V, carriers: set<K>)
    requires forall k :: k in carriers <==> k in m && m[k] == v
    ensures Count(m, v) == |carriers|
  {
    var counted := set k | k in m && m[k] == v;
    assert counted == carriers;
  }

  lemma OneMore<T>(before: set<T>, after: set<T>, x: T)
    requires x !in before && forall y :: y in after <==> y in before || y == x
    ensures |after| == |before| + 1
  {
    assert after == before + {x};
  }
}
