/** The XML documents exchanged with the service, as trees. Parsing and
    printing of XML text belong to the XML library and are not modelled;
    responses are read namespace-tolerantly, so a tag here is the local
    name of the element. */
module Xml {
  import opened Results

  /** An element: its tag, its text content and its child elements in
      document order. */
  datatype Node = Node(tag: string, text: string, children: seq<Node>)

  /** A request document: the root element and the default namespace
      declared on it. */
  datatype Document = Document(namespace: string, root: Node)

  function Leaf(tag: string, text: string): Node
  {
    Node(tag, text, [])
  }

  function FirstIndexFrom(ns: seq<Node>, tag: string, from: nat): (r: Option<nat>)
    ensures r.Some? ==> from <= r.value < |ns| && ns[r.value].tag == tag
    ensures r.Some? ==> forall k :: from <= k < r.value ==> ns[k].tag != tag
    ensures r.None? ==> forall k :: from <= k < |ns| ==> ns[k].tag != tag
    decreases |ns| - from
  {
    if from >= |ns| then None
    else if ns[from].tag == tag then Some(from)
    else FirstIndexFrom(ns, tag, from + 1)
  }

  predicate HasChild(n: Node, tag: string)
  {
    exists k :: 0 <= k < |n.children| && n.children[k].tag == tag
  }

  /** The first child element named `tag` (a relative path of one step). */
  function Child(n: Node, tag: string): (r: Option<Node>)
    ensures r.Some? <==> HasChild(n, tag)
    ensures r.Some? ==> r.value.tag == tag && r.value in n.children
  {
    match FirstIndexFrom(n.children, tag, 0)
    case None => None
    case Some(k) => Some(n.children[k])
  }

  /** The text of the first child element named `tag`. */
  function ChildText(n: Node, tag: string): Option<string>
  {
    match Child(n, tag)
    case None => None
    case Some(c) => Some(c.text)
  }

  /** The elements of `ns` named `tag`, in order. */
  function Named(ns: seq<Node>, tag: string): (r: seq<Node>)
    ensures forall m :: m in r ==> m.tag == tag && m in ns
    ensures |r| <= |ns|
  {
    if |ns| == 0 then []
    else (if ns[0].tag == tag then [ns[0]] else []) + Named(ns[1..], tag)
  }

  lemma {:induction false} NamedOfUniform(ns: seq<Node>, tag: string)
    requires forall k :: 0 <= k < |ns| ==> ns[k].tag == tag
    ensures Named(ns, tag) == ns
  {
    if |ns| > 0 {
      NamedOfUniform(ns[1..], tag);
      assert ns == [ns[0]] + ns[1..];
    }
  }

  /** A prefix holding no element named `tag` adds nothing to `Named`. */
  lemma {:induction false} NamedSkip(ns: seq<Node>, k: nat, tag: string)
    requires k <= |ns|
    requires forall j :: 0 <= j < k ==> ns[j].tag != tag
    ensures Named(ns, tag) == Named(ns[k..], tag)
  {
    if k > 0 {
      NamedSkip(ns[1..], k - 1, tag);
      assert ns[1..][k - 1..] == ns[k..];
    }
  }

  /** Children named `tag` of every node of `ns`, concatenated in order. */
  function ChildrenOfAll(ns: seq<Node>, tag: string): (r: seq<Node>)
    ensures forall m :: m in r ==> m.tag == tag
  {
    if |ns| == 0 then []
    else Named(ns[0].children, tag) + ChildrenOfAll(ns[1..], tag)
  }

  lemma ChildrenOfPair(a: Node, b: Node, tag: string)
    ensures ChildrenOfAll([a, b], tag) == Named(a.children, tag) + Named(b.children, tag)
  {
    assert [a, b][1..] == [b] && [b][1..] == [];
    assert ChildrenOfAll([b], tag) == Named(b.children, tag) + ChildrenOfAll([], tag);
    assert ChildrenOfAll([a, b], tag) == Named(a.children, tag) + ChildrenOfAll([b], tag);
  }

  /** The relative two-step path `outer/inner`. */
  function Path2(n: Node, outer: string, inner: string): seq<Node>
  {
    ChildrenOfAll(Named(n.children, outer), inner)
  }

  /** The absolute path `//tag` evaluated in the tree rooted at `n`: every
      element named `tag`, `n` included, in document order. */
  function Descendants(n: Node, tag: string): (r: seq<Node>)
    ensures forall m :: m in r ==> m.tag == tag
    decreases n
  {
    (if n.tag == tag then [n] else []) + DescendantsOfAll(n.children, tag)
  }

  function DescendantsOfAll(ns: seq<Node>, tag: string): (r: seq<Node>)
    ensures forall m :: m in r ==> m.tag == tag
    decreases ns
  {
    if |ns| == 0 then []
    else Descendants(ns[0], tag) + DescendantsOfAll(ns[1..], tag)
  }

  /** Every element of the tree rooted at `n`, in document order: `n`
      first, then the elements under each child in turn. */
  function Subtrees(n: Node): (r: seq<Node>)
    ensures 0 < |r| && r[0] == n
    decreases n
  {
    [n] + SubtreesOfAll(n.children)
  }

  function SubtreesOfAll(ns: seq<Node>): seq<Node>
    decreases ns
  {
    if |ns| == 0 then [] else Subtrees(ns[0]) + SubtreesOfAll(ns[1..])
  }

  lemma {:induction false} NamedAppend(xs: seq<Node>, ys: seq<Node>, tag: string)
    ensures Named(xs + ys, tag) == Named(xs, tag) + Named(ys, tag)
  {
    if |xs| == 0 {
      assert xs + ys == ys;
    } else {
      assert (xs + ys)[0] == xs[0];
      assert (xs + ys)[1..] == xs[1..] + ys;
      NamedAppend(xs[1..], ys, tag);
    }
  }

  /** `//tag` yields exactly the elements of the tree that carry the tag,
      each once, in document order. */
  lemma {:induction false} DescendantsArePreorderNamed(n: Node, tag: string)
    ensures Descendants(n, tag) == Named(Subtrees(n), tag)
    decreases n, 1
  {
    NamedAppend([n], SubtreesOfAll(n.children), tag);
    DescendantsOfAllArePreorderNamed(n.children, tag);
    assert [n][1..] == [];
  }

  lemma {:induction false} DescendantsOfAllArePreorderNamed(ns: seq<Node>, tag: string)
    ensures DescendantsOfAll(ns, tag) == Named(SubtreesOfAll(ns), tag)
    decreases ns, 0
  {
    if |ns| > 0 {
      DescendantsArePreorderNamed(ns[0], tag);
      DescendantsOfAllArePreorderNamed(ns[1..], tag);
      NamedAppend(Subtrees(ns[0]), SubtreesOfAll(ns[1..]), tag);
    }
  }

  /** `Named` drops only the elements with another tag. */
  lemma {:induction false} NamedComplete(ns: seq<Node>, tag: string, m: Node)
    requires m in ns && m.tag == tag
    ensures m in Named(ns, tag)
  {
    if ns[0] != m {
      assert m in ns[1..];
      NamedComplete(ns[1..], tag, m);
    }
  }

  /** Every element of the tree that carries the tag is found by `//tag`. */
  lemma DescendantsComplete(n: Node, tag: string, m: Node)
    requires m in Subtrees(n) && m.tag == tag
    ensures m in Descendants(n, tag)
  {
    DescendantsArePreorderNamed(n, tag);
    NamedComplete(Subtrees(n), tag, m);
  }

  /** The text of the first element of `//tag`. */
  function DescendantText(n: Node, tag: string): Option<string>
  {
    var ds := Descendants(n, tag);
    if |ds| == 0 then None else Some(ds[0].text)
  }

  /** The text contents of `ns`, in order. */
  function Texts(ns: seq<Node>): (r: seq<string>)
    ensures |r| == |ns|
    ensures forall i :: 0 <= i < |ns| ==> r[i] == ns[i].text
  {
    seq(|ns|, i requires 0 <= i < |ns| => ns[i].text)
  }

  /** Sibling leaves named `tag` holding `texts`, in order. */
  function Leaves(tag: string, texts: seq<string>): (r: seq<Node>)
    ensures |r| == |texts|
    ensures forall i :: 0 <= i < |texts| ==> r[i] == Leaf(tag, texts[i])
  {
    if |texts| == 0 then [] else [Leaf(tag, texts[0])] + Leaves(tag, texts[1..])
  }

  /** The child found by `Child` is the first one carrying the tag. */
  lemma ChildAt(n: Node, k: nat, tag: string)
    requires k < |n.children| && n.children[k].tag == tag
    requires forall j :: 0 <= j < k ==> n.children[j].tag != tag
    ensures Child(n, tag) == Some(n.children[k])
    ensures ChildText(n, tag) == Some(n.children[k].text)
  {
  }

  lemma ChildAbsent(n: Node, tag: string)
    requires forall j :: 0 <= j < |n.children| ==> n.children[j].tag != tag
    ensures Child(n, tag) == None && ChildText(n, tag) == None
  {
  }

  lemma {:induction false} DescendantsOfAllAppend(xs: seq<Node>, ys: seq<Node>, tag: string)
    ensures DescendantsOfAll(xs + ys, tag) == DescendantsOfAll(xs, tag) + DescendantsOfAll(ys, tag)
  {
    if |xs| == 0 {
      assert xs + ys == ys;
    } else {
      assert (xs + ys)[0] == xs[0];
      assert (xs + ys)[1..] == xs[1..] + ys;
      DescendantsOfAllAppend(xs[1..], ys, tag);
    }
  }

  lemma {:induction false} DescendantsOfLeaves(tag: string, texts: seq<string>)
    ensures DescendantsOfAll(Leaves(tag, texts), tag) == Leaves(tag, texts)
  {
    if |texts| > 0 {
      var ls := Leaves(tag, texts);
      assert ls[1..] == Leaves(tag, texts[1..]);
      DescendantsOfLeaves(tag, texts[1..]);
      assert Descendants(ls[0], tag) == [ls[0]];
    }
  }

  /** No element named `tag` anywhere in the tree rooted at `n`. */
  predicate Lacks(n: Node, tag: string)
    decreases n
  {
    n.tag != tag && forall i :: 0 <= i < |n.children| ==> Lacks(n.children[i], tag)
  }

  lemma {:induction false} DescendantsOfLacking(n: Node, tag: string)
    requires Lacks(n, tag)
    ensures Descendants(n, tag) == []
    decreases n, 1
  {
    DescendantsOfAllLacking(n.children, tag);
  }

  lemma {:induction false} DescendantsOfAllLacking(ns: seq<Node>, tag: string)
    requires forall i :: 0 <= i < |ns| ==> Lacks(ns[i], tag)
    ensures DescendantsOfAll(ns, tag) == []
    decreases ns, 0
  {
    if |ns| > 0 {
      DescendantsOfLacking(ns[0], tag);
      DescendantsOfAllLacking(ns[1..], tag);
    }
  }

  lemma DescendantsOfSingleChild(n: Node, tag: string)
    requires |n.children| == 1 && n.tag != tag
    ensures Descendants(n, tag) == Descendants(n.children[0], tag)
  {
    assert n.children[1..] == [];
    assert DescendantsOfAll(n.children[1..], tag) == [];
    assert DescendantsOfAll(n.children, tag)
        == Descendants(n.children[0], tag) + DescendantsOfAll(n.children[1..], tag);
  }

  /** When exactly one element of `ns` carries `tag`, `Named` finds it alone. */
  lemma {:induction false} NamedSingle(ns: seq<Node>, k: nat, tag: string)
    requires k < |ns| && ns[k].tag == tag
    requires forall j :: 0 <= j < |ns| && j != k ==> ns[j].tag != tag
    ensures Named(ns, tag) == [ns[k]]
  {
    if k == 0 {
      NamedNone(ns[1..], tag);
    } else {
      NamedSingle(ns[1..], k - 1, tag);
    }
  }

  lemma {:induction false} NamedNone(ns: seq<Node>, tag: string)
    requires forall j :: 0 <= j < |ns| ==> ns[j].tag != tag
    ensures Named(ns, tag) == []
  {
    if |ns| > 0 {
      NamedNone(ns[1..], tag);
    }
  }

  lemma Path2Single(n: Node, k: nat, outer: string, inner: string)
    requires k < |n.children| && n.children[k].tag == outer
    requires forall j :: 0 <= j < |n.children| && j != k ==> n.children[j].tag != outer
    ensures Path2(n, outer, inner) == Named(n.children[k].children, inner)
  {
    NamedSingle(n.children, k, outer);
    var one := [n.children[k]];
    assert one[1..] == [];
    assert ChildrenOfAll(one, inner) == Named(one[0].children, inner) + ChildrenOfAll(one[1..], inner);
  }
}
