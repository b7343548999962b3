/** The binary search tree script: nodes linked on the heap, values inserted in place. */
module SearchTree {

  predicate Increasing(s: seq<int>) {
    forall i, j | 0 <= i < j < |s| :: s[i] < s[j]
  }

  predicate AllBelow(s: seq<int>, x: int) {
    forall i | 0 <= i < |s| :: s[i] < x
  }

  predicate AllAbove(s: seq<int>, x: int) {
    forall i | 0 <= i < |s| :: s[i] > x
  }

  // A value put at its place in an increasing sequence, unless it is there.
  function Inserted(s: seq<int>, v: int): seq<int> {
    if s == [] then [v]
    else if v < s[0] then [v] + s
    else if v == s[0] then s
    else [s[0]] + Inserted(s[1..], v)
  }

  lemma {:induction false} InsertedHas(s: seq<int>, v: int)
    ensures forall x :: x in Inserted(s, v) <==> x in s || x == v
  {
    if s != [] && v > s[0] {
      InsertedHas(s[1..], v);
      assert s == [s[0]] + s[1..];
    }
  }

  // Insertion goes to one side of the root and leaves the rest alone.
  lemma {:induction false} InsertedLeft(l: seq<int>, x: int, r: seq<int>, v: int)
    requires v < x
    ensures Inserted(l + [x] + r, v) == Inserted(l, v) + [x] + r
  {
    var s := l + [x] + r;
    if l == [] {
      assert s == [x] + r;
      assert [v] + s == [v] + [x] + r;
    } else {
      assert s[1..] == l[1..] + [x] + r;
      if v < l[0] {
        assert [v] + s == ([v] + l) + [x] + r;
      } else if v > l[0] {
        InsertedLeft(l[1..], x, r, v);
        assert [l[0]] + (Inserted(l[1..], v) + [x] + r) == [l[0]] + Inserted(l[1..], v) + [x] + r;
      }
    }
  }

  lemma {:induction false} InsertedRight(l: seq<int>, x: int, r: seq<int>, v: int)
    requires v > x && AllBelow(l, x)
    ensures Inserted(l + [x] + r, v) == l + [x] + Inserted(r, v)
  {
    var s := l + [x] + r;
    if l == [] {
      assert s[1..] == r;
      assert [] + [x] + Inserted(r, v) == [x] + Inserted(r, v);
    } else {
      assert s[1..] == l[1..] + [x] + r;
      InsertedRight(l[1..], x, r, v);
      assert [l[0]] + (l[1..] + [x] + Inserted(r, v)) == l + [x] + Inserted(r, v);
    }
  }

  lemma {:induction false} InsertedPresent(l: seq<int>, x: int, r: seq<int>)
    requires AllBelow(l, x)
    ensures Inserted(l + [x] + r, x) == l + [x] + r
  {
    var s := l + [x] + r;
    if l != [] {
      assert s[1..] == l[1..] + [x] + r;
      InsertedPresent(l[1..], x, r);
      assert [s[0]] + s[1..] == s;
    }
  }

  lemma {:induction false} JoinIncreasing(l: seq<int>, x: int, r: seq<int>)
    requires Increasing(l) && Increasing(r) && AllBelow(l, x) && AllAbove(r, x)
    ensures Increasing(l + [x] + r)
  {}

  // The values of a node after inserting into its left, or its right, subtree.
  lemma {:induction false} LeftUpdated(l: seq<int>, x: int, r: seq<int>, v: int)
    requires v < x && AllBelow(l, x)
    ensures AllBelow(Inserted(l, v), x) && Inserted(l, v) + [x] + r == Inserted(l + [x] + r, v)
  {
    InsertedLeft(l, x, r, v);
    InsertedHas(l, v);
    var t := Inserted(l, v);
    assert forall i | 0 <= i < |t| :: t[i] in t;
  }

  lemma {:induction false} RightUpdated(l: seq<int>, x: int, r: seq<int>, v: int)
    requires v > x && AllBelow(l, x) && AllAbove(r, x)
    ensures AllAbove(Inserted(r, v), x) && l + [x] + Inserted(r, v) == Inserted(l + [x] + r, v)
  {
    InsertedRight(l, x, r, v);
    InsertedHas(r, v);
    var t := Inserted(r, v);
    assert forall i | 0 <= i < |t| :: t[i] in t;
  }

  class Node {
    var value: int
    var left: Node?
    var right: Node?
    ghost var repr: set<object>
    ghost var elems: seq<int>  // the values below this node, in order

    ghost predicate Valid()
      reads this, repr
      decreases repr
    {
      && this in repr
      && (left != null ==> left in repr && left.repr < repr && this !in left.repr && left.Valid())
      && (right != null ==> right in repr && right.repr < repr && this !in right.repr && right.Valid())
      && (left != null && right != null ==> left.repr !! right.repr)
      && AllBelow(Below(left), value) && AllAbove(Below(right), value)
      && elems == Below(left) + [value] + Below(right)
    }

    constructor (value: int)
      ensures Valid() && repr == {this} && elems == [value] && fresh(this)
    {
      this.value := value;
      left, right := null, null;
      repr, elems := {this}, [value];
    }

    method InsertRecursive(v: int)
      requires Valid()
      modifies repr
      ensures Valid() && fresh(repr - old(repr)) && old(repr) <= repr
      ensures elems == Inserted(old(elems), v)
      decreases repr, 1
    {
      if v < value {
        if left == null { AddLeft(v); } else { InsertLeft(v); }
      } else if v > value {
        if right == null { AddRight(v); } else { InsertRight(v); }
      } else {
        InsertedPresent(Below(left), value, Below(right));
      }
    }

    // The source's two branches on each side: a new leaf, or one level further down.
    method AddLeft(v: int)
      requires Valid() && v < value && left == null
      modifies this
      ensures Valid() && fresh(repr - old(repr)) && old(repr) <= repr
      ensures elems == Inserted(old(elems), v)
    {
      LeftUpdated([], value, Below(right), v);
      left := new Node(v);
      repr := repr + left.repr;
      elems := left.elems + [value] + Below(right);
    }

    method InsertLeft(v: int)
      requires Valid() && v < value && left != null
      modifies repr
      ensures Valid() && fresh(repr - old(repr)) && old(repr) <= repr
      ensures elems == Inserted(old(elems), v)
      decreases repr, 0
    {
      ghost var r := Below(right);
      LeftUpdated(left.elems, value, r, v);
      ghost var l := left;
      left.InsertRecursive(v);
      assert left == l && l.Valid() && (right != null ==> right.Valid() && right.repr !! l.repr);
      repr := repr + left.repr;
      elems := left.elems + [value] + r;
    }

    method AddRight(v: int)
      requires Valid() && v > value && right == null
      modifies this
      ensures Valid() && fresh(repr - old(repr)) && old(repr) <= repr
      ensures elems == Inserted(old(elems), v)
    {
      RightUpdated(Below(left), value, [], v);
      right := new Node(v);
      repr := repr + right.repr;
      elems := Below(left) + [value] + right.elems;
    }

    method InsertRight(v: int)
      requires Valid() && v > value && right != null
      modifies repr
      ensures Valid() && fresh(repr - old(repr)) && old(repr) <= repr
      ensures elems == Inserted(old(elems), v)
      decreases repr, 0
    {
      ghost var l := Below(left);
      RightUpdated(l, value, right.elems, v);
      right.InsertRecursive(v);
      repr := repr + right.repr;
      elems := l + [value] + right.elems;
    }

    method InOrderRecursive(result: seq<int>) returns (r: seq<int>)
      requires Valid()
      ensures r == result + elems
      decreases repr
    {
      r := result;
      Regrouped(result, Below(left), value, Below(right));
      if left != null {
        r := left.InOrderRecursive(r);
      }
      r := r + [value];
      if right != null {
        r := right.InOrderRecursive(r);
      }
    }
  }

  lemma {:induction false} Regrouped(s: seq<int>, l: seq<int>, x: int, r: seq<int>)
    ensures s + l + [x] + r == s + (l + [x] + r)
    ensures s + [] == s && s + [x] + r + [] == s + [x] + r
  {}

  // The values of a possibly missing subtree.
  ghost function Below(n: Node?): seq<int>
    reads n
  {
    if n == null then [] else n.elems
  }

  // The search-tree bounds of the nodes make the whole traversal increase.
  lemma {:induction false} TraversalIncreases(n: Node?)
    requires n != null ==> n.Valid()
    ensures Increasing(Below(n))
    decreases if n == null then {} else n.repr
  {
    if n != null {
      TraversalIncreases(n.left);
      TraversalIncreases(n.right);
      JoinIncreasing(Below(n.left), n.value, Below(n.right));
    }
  }

  predicate SearchRecursive(n: Node?, v: int)
    requires n != null ==> n.Valid()
    reads n, if n == null then {} else n.repr
    ensures SearchRecursive(n, v) <==> v in Below(n)
    decreases if n == null then {} else n.repr
  {
    if n == null then false
    else if v == n.value then true
    else if v < n.value then SearchRecursive(n.left, v)
    else SearchRecursive(n.right, v)
  }

  class BinarySearchTree {
    var root: Node?

    ghost predicate Valid()
      reads this, root, if root == null then {} else root.repr
    {
      root != null ==> root.Valid() && this !in root.repr
    }

    ghost function Values(): seq<int>
      reads this, root
    {
      Below(root)
    }

    constructor ()
      ensures Valid() && Values() == [] && root == null
    {
      root := null;
    }

    method Insert(v: int)
      requires Valid()
      modifies this, if root == null then {} else root.repr
      ensures Valid() && Values() == Inserted(old(Values()), v)
      ensures root != null && fresh(root.repr - if old(root) == null then {} else old(root.repr))
    {
      if root == null {
        root := new Node(v);
      } else {
        root.InsertRecursive(v);
      }
    }

    method Search(v: int) returns (found: bool)
      requires Valid()
      ensures found <==> v in Values()
    {
      found := SearchRecursive(root, v);
    }

    method InOrderTraversal() returns (result: seq<int>)
      requires Valid()
      ensures result == Values() && Increasing(result)
    {
      result := [];
      TraversalIncreases(root);
      if root != null {
        result := root.InOrderRecursive(result);
      }
    }
  }

  /** Whatever is inserted in whatever order, the tree holds exactly those values, in order, once each. */
  method Build(values: seq<int>) returns (t: BinarySearchTree)
    ensures t.Valid() && Increasing(t.Values())
    ensures forall x :: x in t.Values() <==> x in values
  {
    t := new BinarySearchTree();
    for i := 0 to |values|
      invariant fresh(t) && t.Valid() && (t.root != null ==> fresh(t.root.repr))
      invariant forall x :: x in t.Values() <==> x in values[..i]
    {
      InsertedHas(t.Values(), values[i]);
      assert values[..i + 1] == values[..i] + [values[i]];
      t.Insert(values[i]);
    }
    assert values[..|values|] == values;
    TraversalIncreases(t.root);
  }
}
