/** The bound on a decoded subscription's nesting and size (validateStructure of
    internal/subscription/parse.go). */
module Structure {
  const MAX_DEPTH: nat := 32
  const MAX_VALUES: nat := 100000

  /** A decoded value; an object's values stand in an arbitrary order. */
  datatype Value = Scalar | Object(children: seq<Value>) | Array(children: seq<Value>)

  ghost function Children(v: Value): seq<Value> {
    match v
    case Scalar => []
    case Object(children) => children
    case Array(children) => children
  }

  /** How many levels lie below the value. */
  ghost function Height(v: Value): nat
    decreases v, 0
  {
    match v
    case Scalar => 0
    case Object(children) => HeightOver(children)
    case Array(children) => HeightOver(children)
  }

  /** One more than the greatest height among the values, 0 if there are none. */
  ghost function HeightOver(vs: seq<Value>): nat
    decreases vs, 1
  {
    if vs == [] then 0
    else
      var rest := HeightOver(vs[1..]);
      if Height(vs[0]) + 1 > rest then Height(vs[0]) + 1 else rest
  }

  /** How many values the tree has, itself included. */
  ghost function Size(v: Value): nat
    decreases v, 0
  {
    match v
    case Scalar => 1
    case Object(children) => 1 + TotalSize(children)
    case Array(children) => 1 + TotalSize(children)
  }

  ghost function TotalSize(vs: seq<Value>): nat
    decreases vs, 1
  {
    if vs == [] then 0 else Size(vs[0]) + TotalSize(vs[1..])
  }

  ghost function Without(vs: seq<Value>, i: nat): seq<Value>
    requires i < |vs|
  {
    vs[..i] + vs[i + 1..]
  }

  /** Taking one value out of a list, wherever it stands. */
  lemma {:induction false} TakeOut(vs: seq<Value>, i: nat)
    requires i < |vs|
    ensures TotalSize(vs) == Size(vs[i]) + TotalSize(Without(vs, i))
    ensures var rest := HeightOver(Without(vs, i));
      HeightOver(vs) == if Height(vs[i]) + 1 > rest then Height(vs[i]) + 1 else rest
    decreases |vs|
  {
    if i == 0 {
      assert Without(vs, 0) == vs[1..];
    } else {
      TakeOut(vs[1..], i - 1);
      assert Without(vs, i) == [vs[0]] + Without(vs[1..], i - 1);
    }
  }

  class Walker {
    var count: nat

    constructor ()
      ensures count == 0
    {
      count := 0;
    }

    /** The recursive walk: it accepts exactly if the subtree fits below `depth` and its values fit
        under the limit with those counted before, in whatever order objects are visited. */
    method Walk(value: Value, depth: nat) returns (ok: bool)
      requires count <= MAX_VALUES
      modifies this
      ensures ok <==> depth + Height(value) <= MAX_DEPTH && old(count) + Size(value) <= MAX_VALUES
      ensures ok ==> count == old(count) + Size(value)
      ensures count <= MAX_VALUES + 1
      decreases value
    {
      if depth > MAX_DEPTH {
        return false;
      }
      count := count + 1;
      if count > MAX_VALUES {
        return false;
      }
      var remaining := match value
        case Scalar => []
        case Object(children) => children
        case Array(children) => children;
      while remaining != []
        invariant depth <= MAX_DEPTH && count <= MAX_VALUES
        invariant forall i :: 0 <= i < |remaining| ==> remaining[i] in Children(value)
        invariant count + TotalSize(remaining) == old(count) + Size(value)
        invariant depth + Height(value) <= MAX_DEPTH <==> depth + HeightOver(remaining) <= MAX_DEPTH
        decreases |remaining|
      {
        var i: nat := 0;
        if value.Object? {
          i :| 0 <= i < |remaining|;
        }
        TakeOut(remaining, i);
        var child := remaining[i];
        assert child in Children(value);
        var fits := Walk(child, depth + 1);
        if !fits {
          return false;
        }
        remaining := remaining[..i] + remaining[i + 1..];
      }
      ok := true;
    }
  }

  /** A subscription is accepted exactly if it is at most MAX_DEPTH levels deep and has at most
      MAX_VALUES values; and the walk never counts more than one value past the limit. */
  method ValidateStructure(root: Value) returns (ok: bool, counted: nat)
    ensures ok <==> Height(root) <= 32 && Size(root) <= 100000
    ensures counted <= 100001 && (ok ==> counted == Size(root))
  {
    var walker := new Walker();
    ok := walker.Walk(root, 0);
    counted := walker.count;
  }
}
