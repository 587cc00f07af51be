/**
 * The designer's tree of mock components, as values.
 *
 * A component is a node with its instance name, its property store and its
 * children in display order.  The search `Find` mirrors the recursive
 * depth-first lookup by instance name of MockCompositeArrangement; `Subtrees`
 * is the pre-order list of all components of a subtree, against which the
 * search is specified; `Deliver` hands a property value to the component the
 * search finds.
 */
module ComponentTree {
  import opened Wrappers

  datatype Node = Node(name: string, props: map<string, string>, children: seq<Node>)

  /** What can be seen of one component without its children. */
  datatype Label = Label(name: string, props: map<string, string>)

  // ---------------------------------------------------------------------
  // Search by instance name
  // ---------------------------------------------------------------------

  /** Depth-first search: the node itself first, then each child in order. */
  function Find(t: Node, n: string): (r: Option<Node>)
    ensures t.name == n ==> r == Some(t)
    ensures r.Some? ==> r.value.name == n
    decreases t
  {
    if t.name == n then Some(t) else FindIn(t.children, n)
  }

  /** Search the children in sequence order; the first non-empty result wins. */
  function FindIn(cs: seq<Node>, n: string): (r: Option<Node>)
    ensures r.Some? ==> r.value.name == n
    decreases cs
  {
    if cs == [] then None
    else match Find(cs[0], n)
      case Some(x) => Some(x)
      case None => FindIn(cs[1..], n)
  }

  // ---------------------------------------------------------------------
  // Pre-order enumeration and the reference search over it
  // ---------------------------------------------------------------------

  /** Every component of the subtree rooted at t, in pre-order. */
  function Subtrees(t: Node): (s: seq<Node>)
    ensures |s| > 0 && s[0] == t
    decreases t
  {
    [t] + SubtreesIn(t.children)
  }

  function SubtreesIn(cs: seq<Node>): seq<Node>
    decreases cs
  {
    if cs == [] then [] else Subtrees(cs[0]) + SubtreesIn(cs[1..])
  }

  /** Index of the first node of s named n, or |s| when there is none. */
  function FirstNamedIndex(s: seq<Node>, n: string): (k: nat)
    ensures k <= |s|
    ensures forall j :: 0 <= j < k ==> s[j].name != n
    ensures k < |s| ==> s[k].name == n
  {
    if s == [] then 0
    else if s[0].name == n then 0
    else 1 + FirstNamedIndex(s[1..], n)
  }

  /** Reference search: linear scan of a sequence for the first node named n. */
  function FirstNamed(s: seq<Node>, n: string): Option<Node>
  {
    var k := FirstNamedIndex(s, n);
    if k < |s| then Some(s[k]) else None
  }

  lemma {:induction false} FirstNamedIndexAppend(a: seq<Node>, b: seq<Node>, n: string)
    ensures FirstNamedIndex(a + b, n)
         == if FirstNamedIndex(a, n) < |a| then FirstNamedIndex(a, n) else |a| + FirstNamedIndex(b, n)
  {
    if a == [] {
      assert a + b == b;
    } else {
      assert (a + b)[0] == a[0];
      assert (a + b)[1..] == a[1..] + b;
      if a[0].name != n {
        FirstNamedIndexAppend(a[1..], b, n);
      }
    }
  }

  lemma FirstNamedAppend(a: seq<Node>, b: seq<Node>, n: string)
    ensures FirstNamed(a + b, n) == if FirstNamed(a, n).Some? then FirstNamed(a, n) else FirstNamed(b, n)
  {
    FirstNamedIndexAppend(a, b, n);
    var k := FirstNamedIndex(a, n);
    if k == |a| {
      var m := FirstNamedIndex(b, n);
      if m < |b| {
        assert (a + b)[|a| + m] == b[m];
      }
    }
  }

  /** The search returns the first component named n in pre-order, or None if none is. */
  lemma {:induction false} FindIsFirst(t: Node, n: string)
    ensures Find(t, n) == FirstNamed(Subtrees(t), n)
    decreases t
  {
    FirstNamedAppend([t], SubtreesIn(t.children), n);
    if t.name != n {
      FindInIsFirst(t.children, n);
    }
  }

  lemma {:induction false} FindInIsFirst(cs: seq<Node>, n: string)
    ensures FindIn(cs, n) == FirstNamed(SubtreesIn(cs), n)
    decreases cs
  {
    if cs != [] {
      FirstNamedAppend(Subtrees(cs[0]), SubtreesIn(cs[1..]), n);
      FindIsFirst(cs[0], n);
      FindInIsFirst(cs[1..], n);
    }
  }

  /** Soundness: a found component is in the searched subtree and carries the name. */
  lemma FindSound(t: Node, n: string)
    ensures Find(t, n).Some? ==> Find(t, n).value in Subtrees(t) && Find(t, n).value.name == n
  {
    FindIsFirst(t, n);
  }

  /** Completeness: the search comes back empty exactly when no component has the name. */
  lemma FindNoneIff(t: Node, n: string)
    ensures Find(t, n).None? <==> forall x :: x in Subtrees(t) ==> x.name != n
  {
    FindIsFirst(t, n);
    var s := Subtrees(t);
    var k := FirstNamedIndex(s, n);
    if k < |s| {
      assert s[k] in s;
    }
  }

  /** Children are tried in order: the first child whose subtree has a match decides. */
  lemma {:induction false} FindInFirstChild(cs: seq<Node>, n: string, i: nat)
    requires i < |cs|
    requires forall j :: 0 <= j < i ==> Find(cs[j], n).None?
    requires Find(cs[i], n).Some?
    ensures FindIn(cs, n) == Find(cs[i], n)
    decreases i
  {
    if i > 0 {
      assert Find(cs[0], n).None?;
      FindInFirstChild(cs[1..], n, i - 1);
    }
  }

  /** No child subtree has a match exactly when the search of the children fails. */
  lemma {:induction false} FindInNoneIff(cs: seq<Node>, n: string)
    ensures FindIn(cs, n).None? <==> forall j :: 0 <= j < |cs| ==> Find(cs[j], n).None?
    decreases cs
  {
    if cs != [] {
      FindInNoneIff(cs[1..], n);
      assert forall j :: 1 <= j < |cs| ==> cs[j] == cs[1..][j - 1];
    }
  }

  // ---------------------------------------------------------------------
  // Handing a property value to the component the search finds
  // ---------------------------------------------------------------------

  /** The component x after its handler received value v for property p. */
  function Updated(x: Node, p: string, v: string): Node
  {
    x.(props := x.props[p := v])
  }

  /** The tree after the component that Find(t, n) returns received p := v. */
  function Deliver(t: Node, n: string, p: string, v: string): (r: Node)
    requires Find(t, n).Some?
    ensures r.name == t.name && |r.children| == |t.children|
    decreases t
  {
    if t.name == n then Updated(t, p, v)
    else Node(t.name, t.props, DeliverIn(t.children, n, p, v))
  }

  function DeliverIn(cs: seq<Node>, n: string, p: string, v: string): (r: seq<Node>)
    requires FindIn(cs, n).Some?
    ensures |r| == |cs|
    decreases cs
  {
    if Find(cs[0], n).Some? then [Deliver(cs[0], n, p, v)] + cs[1..]
    else [cs[0]] + DeliverIn(cs[1..], n, p, v)
  }

  /** After delivery the search finds the same component, now holding the new value. */
  lemma {:induction false} DeliverReaches(t: Node, n: string, p: string, v: string)
    requires Find(t, n).Some?
    ensures Deliver(t, n, p, v).name == t.name
    ensures Find(Deliver(t, n, p, v), n) == Some(Updated(Find(t, n).value, p, v))
    decreases t
  {
    if t.name != n {
      DeliverInReaches(t.children, n, p, v);
    }
  }

  lemma {:induction false} DeliverInReaches(cs: seq<Node>, n: string, p: string, v: string)
    requires FindIn(cs, n).Some?
    ensures FindIn(DeliverIn(cs, n, p, v), n) == Some(Updated(FindIn(cs, n).value, p, v))
    decreases cs
  {
    var d := DeliverIn(cs, n, p, v);
    if Find(cs[0], n).Some? {
      DeliverReaches(cs[0], n, p, v);
      assert d[0] == Deliver(cs[0], n, p, v);
    } else {
      DeliverInReaches(cs[1..], n, p, v);
      assert d[0] == cs[0] && d[1..] == DeliverIn(cs[1..], n, p, v);
    }
  }

  /** Delivery renames nothing: every name is found afterwards exactly when before. */
  lemma {:induction false} DeliverKeepsNames(t: Node, n: string, p: string, v: string, m: string)
    requires Find(t, n).Some?
    ensures Deliver(t, n, p, v).name == t.name
    ensures Find(Deliver(t, n, p, v), m).Some? == Find(t, m).Some?
    decreases t
  {
    if t.name != n {
      DeliverInKeepsNames(t.children, n, p, v, m);
    }
  }

  lemma {:induction false} DeliverInKeepsNames(cs: seq<Node>, n: string, p: string, v: string, m: string)
    requires FindIn(cs, n).Some?
    ensures FindIn(DeliverIn(cs, n, p, v), m).Some? == FindIn(cs, m).Some?
    decreases cs
  {
    var d := DeliverIn(cs, n, p, v);
    if Find(cs[0], n).Some? {
      DeliverKeepsNames(cs[0], n, p, v, m);
      assert d[0] == Deliver(cs[0], n, p, v) && d[1..] == cs[1..];
    } else {
      DeliverInKeepsNames(cs[1..], n, p, v, m);
      assert d[0] == cs[0] && d[1..] == DeliverIn(cs[1..], n, p, v);
    }
  }

  // ---------------------------------------------------------------------
  // Nothing but the found component changes
  // ---------------------------------------------------------------------

  /** Names and property stores of a sequence of components, element by element. */
  function Labels(s: seq<Node>): (r: seq<Label>)
    ensures |r| == |s|
    ensures forall i :: 0 <= i < |s| ==> r[i] == Label(s[i].name, s[i].props)
  {
    seq(|s|, i requires 0 <= i < |s| => Label(s[i].name, s[i].props))
  }

  /** The label sequence l with entry k having received p := v. */
  function Patch(l: seq<Label>, k: nat, p: string, v: string): (r: seq<Label>)
    requires k < |l|
  {
    l[k := Label(l[k].name, l[k].props[p := v])]
  }

  lemma LabelsAppend(a: seq<Node>, b: seq<Node>)
    ensures Labels(a + b) == Labels(a) + Labels(b)
  {
  }

  lemma PatchAppend(a: seq<Label>, b: seq<Label>, k: nat, p: string, v: string)
    requires k < |a| + |b|
    ensures k < |a| ==> Patch(a + b, k, p, v) == Patch(a, k, p, v) + b
    ensures k >= |a| ==> Patch(a + b, k, p, v) == a + Patch(b, k - |a|, p, v)
  {
  }

  /**
   * Delivery changes exactly one entry of the pre-order listing of the tree:
   * the first component named n gets p := v; every other component keeps its
   * name and its property store, and the listing keeps its length.
   */
  lemma {:induction false} DeliverOnlyFirst(t: Node, n: string, p: string, v: string)
    requires Find(t, n).Some?
    ensures FirstNamedIndex(Subtrees(t), n) < |Subtrees(t)|
    ensures Labels(Subtrees(Deliver(t, n, p, v)))
         == Patch(Labels(Subtrees(t)), FirstNamedIndex(Subtrees(t), n), p, v)
    decreases t
  {
    FindIsFirst(t, n);
    var d := Deliver(t, n, p, v);
    var rest := Labels(SubtreesIn(t.children));
    FirstNamedIndexAppend([t], SubtreesIn(t.children), n);
    LabelsAppend([t], SubtreesIn(t.children));
    if t.name == n {
      assert d.children == t.children;
      LabelsAppend([d], SubtreesIn(t.children));
      PatchAppend(Labels([t]), rest, 0, p, v);
    } else {
      var k := FirstNamedIndex(SubtreesIn(t.children), n);
      assert FirstNamedIndex(Subtrees(t), n) == 1 + k;
      DeliverInOnlyFirst(t.children, n, p, v);
      LabelsAppend([d], SubtreesIn(d.children));
      assert Labels([d]) == Labels([t]);
      PatchAppend(Labels([t]), rest, 1 + k, p, v);
    }
  }

  lemma {:induction false} DeliverInOnlyFirst(cs: seq<Node>, n: string, p: string, v: string)
    requires FindIn(cs, n).Some?
    ensures FirstNamedIndex(SubtreesIn(cs), n) < |SubtreesIn(cs)|
    ensures Labels(SubtreesIn(DeliverIn(cs, n, p, v)))
         == Patch(Labels(SubtreesIn(cs)), FirstNamedIndex(SubtreesIn(cs), n), p, v)
    decreases cs
  {
    FindInIsFirst(cs, n);
    var d := DeliverIn(cs, n, p, v);
    var a, b := Subtrees(cs[0]), SubtreesIn(cs[1..]);
    FirstNamedIndexAppend(a, b, n);
    FindIsFirst(cs[0], n);
    LabelsAppend(a, b);
    if Find(cs[0], n).Some? {
      assert d[0] == Deliver(cs[0], n, p, v) && d[1..] == cs[1..];
      DeliverOnlyFirst(cs[0], n, p, v);
      LabelsAppend(Subtrees(d[0]), b);
      PatchAppend(Labels(a), Labels(b), FirstNamedIndex(a, n), p, v);
    } else {
      assert d[0] == cs[0] && d[1..] == DeliverIn(cs[1..], n, p, v);
      DeliverInOnlyFirst(cs[1..], n, p, v);
      LabelsAppend(a, SubtreesIn(d[1..]));
      PatchAppend(Labels(a), Labels(b), |a| + FirstNamedIndex(b, n), p, v);
    }
  }

  // ---------------------------------------------------------------------
  // Delivery keeps the tree's shape
  // ---------------------------------------------------------------------

  /** A component tree with the property stores left out. */
  datatype Shape = Shape(name: string, children: seq<Shape>)

  function Erase(t: Node): Shape
    decreases t
  {
    Shape(t.name, EraseIn(t.children))
  }

  function EraseIn(cs: seq<Node>): (r: seq<Shape>)
    ensures |r| == |cs|
    decreases cs
  {
    if cs == [] then [] else [Erase(cs[0])] + EraseIn(cs[1..])
  }

  /** Delivery changes property stores only: names, nesting and child order stay as they were. */
  lemma {:induction false} DeliverKeepsShape(t: Node, n: string, p: string, v: string)
    requires Find(t, n).Some?
    ensures Erase(Deliver(t, n, p, v)) == Erase(t)
    decreases t
  {
    if t.name != n {
      DeliverInKeepsShape(t.children, n, p, v);
    }
  }

  lemma {:induction false} DeliverInKeepsShape(cs: seq<Node>, n: string, p: string, v: string)
    requires FindIn(cs, n).Some?
    ensures EraseIn(DeliverIn(cs, n, p, v)) == EraseIn(cs)
    decreases cs
  {
    var d := DeliverIn(cs, n, p, v);
    if Find(cs[0], n).Some? {
      DeliverKeepsShape(cs[0], n, p, v);
      assert d[0] == Deliver(cs[0], n, p, v) && d[1..] == cs[1..];
    } else {
      DeliverInKeepsShape(cs[1..], n, p, v);
      assert d[0] == cs[0] && d[1..] == DeliverIn(cs[1..], n, p, v);
    }
  }
}
