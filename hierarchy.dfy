// Extension methods over IHierarchy: full paths, and the parent and child
// closures of a node ordered by full path.
module Hierarchy {
  import opened Wrappers
  import opened Text
  import opened Lists

  /** A node of the hierarchy, by position. */
  type Node = nat

  /**
   * The nodes' Name, GetParent() and GetChildren(). A parent is either the
   * node itself or numbered before it, and a child is either the node itself
   * or numbered after it, so no other cycle exists.
   */
  datatype Forest = Forest(names: seq<string>, parent: seq<Option<Node>>, children: seq<seq<Node>>)
  {
    function Count(): nat
    {
      |names|
    }

    predicate Valid()
    {
      |parent| == |names| && |children| == |names| &&
      (forall t :: 0 <= t < |parent| && parent[t].Some? ==> parent[t].value <= t) &&
      (forall t, k :: 0 <= t < |children| && 0 <= k < |children[t]| ==>
         children[t][k] == t || t < children[t][k] < |names|)
    }

    /** GetParent() is null or the node itself. */
    predicate AtTop(t: Node)
      requires Valid() && t < Count()
    {
      parent[t].None? || parent[t].value == t
    }
  }

  const DefaultSeparator: string := " > "

  /** GetFullPath(separator) of a node: its Name, after its parent's path when it has a distinct parent. */
  function FullPath(f: Forest, t: Node, separator: string): string
    requires f.Valid() && t < f.Count()
    decreases t
  {
    if f.AtTop(t) then f.names[t]
    else FullPath(f, f.parent[t].value, separator) + separator + f.names[t]
  }

  /** GetFullPath on a possibly null node: null has no path. */
  function GetFullPath(f: Forest, node: Option<Node>, separator: string): (r: Option<string>)
    requires f.Valid() && (node.Some? ==> node.value < f.Count())
    ensures node.None? <==> r.None?
    ensures node.Some? && f.AtTop(node.value) ==> r == Some(f.names[node.value])
  {
    match node
    case None => None
    case Some(t) => Some(FullPath(f, t, separator))
  }

  /** IsRootNode: GetParent() is null. */
  predicate IsRootNode(f: Forest, t: Node)
    requires f.Valid() && t < f.Count()
  {
    f.parent[t].None?
  }

  /** A root yields its Name as its full path; a node at the top by self-parenting does too. */
  lemma RootPath(f: Forest, t: Node, separator: string)
    requires f.Valid() && t < f.Count()
    ensures IsRootNode(f, t) ==> FullPath(f, t, separator) == f.names[t]
    ensures IsRootNode(f, t) <==> f.parent[t].None?
  {
  }

  // ---------------------------------------------------------------------------
  // Full paths as joined names
  // ---------------------------------------------------------------------------

  /** The nodes from the top of t's chain down to t. */
  function Ancestry(f: Forest, t: Node): (r: seq<Node>)
    requires f.Valid() && t < f.Count()
    ensures |r| >= 1 && r[|r| - 1] == t
    ensures forall k :: 0 <= k < |r| ==> r[k] <= t
    decreases t
  {
    if f.AtTop(t) then [t] else Ancestry(f, f.parent[t].value) + [t]
  }

  function NamesOf(f: Forest, nodes: seq<Node>): (r: seq<string>)
    requires forall k :: 0 <= k < |nodes| ==> nodes[k] < |f.names|
    ensures |r| == |nodes| && forall k :: 0 <= k < |nodes| ==> r[k] == f.names[nodes[k]]
  {
    if nodes == [] then [] else [f.names[nodes[0]]] + NamesOf(f, nodes[1..])
  }

  lemma {:induction false} JoinAppend(parts: seq<string>, last: string, separator: string)
    requires parts != []
    ensures Join(parts + [last], separator) == Join(parts, separator) + separator + last
  {
    if |parts| == 1 {
      assert (parts + [last])[1..] == [last];
    } else {
      assert (parts + [last])[1..] == parts[1..] + [last];
      JoinAppend(parts[1..], last, separator);
    }
  }

  /** The full path is the Names from the top of the chain down to the node, joined by the separator. */
  lemma {:induction false} FullPathIsJoinedNames(f: Forest, t: Node, separator: string)
    requires f.Valid() && t < f.Count()
    ensures FullPath(f, t, separator) == Join(NamesOf(f, Ancestry(f, t)), separator)
    decreases t
  {
    if !f.AtTop(t) {
      var p := f.parent[t].value;
      FullPathIsJoinedNames(f, p, separator);
      var above := Ancestry(f, p);
      assert NamesOf(f, above + [t]) == NamesOf(f, above) + [f.names[t]];
      JoinAppend(NamesOf(f, above), f.names[t], separator);
    }
  }

  // ---------------------------------------------------------------------------
  // OrderBy(GetFullPath())
  // ---------------------------------------------------------------------------

  /** Ordinal string order. */
  predicate Before(a: string, b: string)
  {
    if a == [] then b != []
    else if b == [] then false
    else a[0] < b[0] || (a[0] == b[0] && Before(a[1..], b[1..]))
  }

  lemma {:induction false} BeforeTransitive(a: string, b: string, c: string)
    requires Before(a, b) && Before(b, c)
    ensures Before(a, c)
  {
    if a != [] && b != [] && c != [] && a[0] == b[0] == c[0] {
      BeforeTransitive(a[1..], b[1..], c[1..]);
    }
  }

  lemma {:induction false} BeforeIrreflexive(a: string)
    ensures !Before(a, a)
  {
    if a != [] {
      BeforeIrreflexive(a[1..]);
    }
  }

  function PathKey(f: Forest, t: Node): string
    requires f.Valid() && t < f.Count()
  {
    FullPath(f, t, DefaultSeparator)
  }

  predicate InForest(f: Forest, s: seq<Node>)
  {
    forall k :: 0 <= k < |s| ==> s[k] < |f.names|
  }

  /** Ordered by full path: no later node has a path before an earlier one. */
  predicate SortedByPath(f: Forest, s: seq<Node>)
    requires f.Valid() && InForest(f, s)
  {
    forall i, j :: 0 <= i < j < |s| ==> !Before(PathKey(f, s[j]), PathKey(f, s[i]))
  }

  /** Put x after every node whose path is not after its own. */
  function InsertByPath(f: Forest, x: Node, s: seq<Node>): (r: seq<Node>)
    requires f.Valid() && x < f.Count() && InForest(f, s) && SortedByPath(f, s)
    ensures InForest(f, r) && SortedByPath(f, r)
    ensures multiset(r) == multiset(s) + multiset{x}
  {
    if s == [] then [x]
    else if Before(PathKey(f, x), PathKey(f, s[0])) then
      forall k | 0 <= k < |s|
        ensures !Before(PathKey(f, s[k]), PathKey(f, x))
      {
        if Before(PathKey(f, s[k]), PathKey(f, x)) {
          BeforeTransitive(PathKey(f, s[k]), PathKey(f, x), PathKey(f, s[0]));
          if k == 0 { BeforeIrreflexive(PathKey(f, s[0])); }
        }
      }
      [x] + s
    else
      var rest := InsertByPath(f, x, s[1..]);
      assert s == [s[0]] + s[1..];
      forall y | y in rest
        ensures !Before(PathKey(f, y), PathKey(f, s[0]))
      {
        assert y in multiset(rest);
        if y != x {
          assert y in s[1..];
          var k :| 0 <= k < |s[1..]| && s[1..][k] == y;
          assert s[k + 1] == y;
        }
      }
      [s[0]] + rest
  }

  /** OrderBy(i => i.GetFullPath()): a stable insertion sort by full path. */
  function SortByPath(f: Forest, s: seq<Node>): (r: seq<Node>)
    requires f.Valid() && InForest(f, s)
    ensures InForest(f, r) && SortedByPath(f, r)
    ensures multiset(r) == multiset(s)
    ensures forall x :: x in r <==> x in s
  {
    if s == [] then []
    else
      var init := s[..|s| - 1];
      assert s == init + [s[|s| - 1]];
      var r := InsertByPath(f, s[|s| - 1], SortByPath(f, init));
      assert forall x :: x in r <==> x in multiset(r);
      assert forall x :: x in s <==> x in multiset(s);
      r
  }

  // ---------------------------------------------------------------------------
  // Parents
  // ---------------------------------------------------------------------------

  /** GetAllParents: nothing at the top, otherwise the parent with all its parents. */
  function GetAllParents(f: Forest, t: Node): (r: seq<Node>)
    requires f.Valid() && t < f.Count()
    ensures InForest(f, r) && SortedByPath(f, r)
    ensures f.AtTop(t) ==> r == []
    ensures forall x :: x in r ==> x < t
    decreases t, 0
  {
    if f.AtTop(t) then []
    else SortByPath(f, WithAllParents(f, f.parent[t].value))
  }

  /** WithAllParents: the node and all its parents, ordered by full path. */
  function WithAllParents(f: Forest, t: Node): (r: seq<Node>)
    requires f.Valid() && t < f.Count()
    ensures InForest(f, r) && SortedByPath(f, r)
    ensures t in r
    ensures forall x :: x in r ==> x <= t
    decreases t, 1
  {
    SortByPath(f, GetAllParents(f, t) + [t])
  }

  /** The parents of a node are exactly the nodes above it in its chain, each once. */
  lemma {:induction false} ParentsAreAncestry(f: Forest, t: Node)
    requires f.Valid() && t < f.Count()
    ensures multiset(WithAllParents(f, t)) == multiset(Ancestry(f, t))
    decreases t
  {
    var above := GetAllParents(f, t);
    if !f.AtTop(t) {
      ParentsAreAncestry(f, f.parent[t].value);
    }
    assert multiset(WithAllParents(f, t)) == multiset(above + [t]);
  }

  // ---------------------------------------------------------------------------
  // Children
  // ---------------------------------------------------------------------------

  /** GetChildren().Except(node): the children other than the node itself, each once, in first-occurrence order. */
  function OtherChildren(kids: seq<Node>, t: Node): (r: seq<Node>)
    ensures forall x :: x in r <==> x in kids && x != t
    ensures Distinct(r)
  {
    if kids == [] then []
    else
      var init := kids[..|kids| - 1];
      var last := kids[|kids| - 1];
      var before := OtherChildren(init, t);
      assert forall x :: x in kids <==> x in init || x == last;
      before + (if last == t || last in init then [] else [last])
  }

  /** x is reached from t by one or more steps to a child other than the node itself. */
  ghost predicate Descendant(f: Forest, t: Node, x: Node)
    requires f.Valid() && t < f.Count()
    decreases f.Count() - t
  {
    exists c :: c in f.children[t] && c != t && (c == x || Descendant(f, c, x))
  }

  /** SelectMany(c => c.WithAllChildren()) over some of t's children. */
  function Descend(f: Forest, t: Node, kids: seq<Node>): (r: seq<Node>)
    requires f.Valid() && t < f.Count()
    requires forall x :: x in kids ==> t < x < f.Count()
    ensures InForest(f, r)
    ensures forall x :: x in r ==> t < x
    ensures forall c :: c in kids ==> c in r
    decreases f.Count() - t, 0, |kids|
  {
    if kids == [] then []
    else
      var last := kids[|kids| - 1];
      var init := kids[..|kids| - 1];
      assert forall x :: x in kids <==> x in init || x == last;
      assert last in kids;
      Descend(f, t, init) + WithAllChildren(f, last)
  }

  /** GetAllChildren: every descendant, ordered by full path. */
  function GetAllChildren(f: Forest, t: Node): (r: seq<Node>)
    requires f.Valid() && t < f.Count()
    ensures InForest(f, r) && SortedByPath(f, r)
    ensures forall x :: x in r ==> t < x
    ensures forall c :: c in f.children[t] && c != t ==> c in r
    decreases f.Count() - t, 1
  {
    var kids := OtherChildren(f.children[t], t);
    assert forall x :: x in kids ==> t < x < f.Count() by {
      forall x | x in kids
        ensures t < x < f.Count()
      {
        var k :| 0 <= k < |f.children[t]| && f.children[t][k] == x;
      }
    }
    SortByPath(f, Descend(f, t, kids))
  }

  /** WithAllChildren: the node and every descendant, ordered by full path. */
  function WithAllChildren(f: Forest, t: Node): (r: seq<Node>)
    requires f.Valid() && t < f.Count()
    ensures InForest(f, r) && SortedByPath(f, r)
    ensures t in r
    ensures forall x :: x in r ==> t <= x
    ensures multiset(r) == multiset(GetAllChildren(f, t)) + multiset{t}
    decreases f.Count() - t, 2
  {
    var all := GetAllChildren(f, t);
    var s := all + [t];
    assert forall x :: x in s <==> x in all || x == t;
    assert InForest(f, s) by {
      forall k | 0 <= k < |s|
        ensures s[k] < |f.names|
      {
        if k < |all| {
          assert s[k] == all[k];
        }
      }
    }
    assert multiset(s) == multiset(all) + multiset{t};
    SortByPath(f, s)
  }

  /** Membership of one more child's closure appended to Descend's prefix. */
  lemma DescendStep(f: Forest, t: Node, init: seq<Node>, last: Node, before: seq<Node>, after: seq<Node>)
    requires f.Valid() && t < f.Count()
    requires forall x :: x in init ==> t < x < f.Count()
    requires t < last < f.Count()
    requires forall x :: x in before <==> exists c :: c in init && (x == c || Descendant(f, c, x))
    requires forall x :: x in after <==> x == last || Descendant(f, last, x)
    ensures forall x :: x in before + after <==> exists c :: c in init + [last] && (x == c || Descendant(f, c, x))
  {
    var kids := init + [last];
    assert forall c :: c in kids <==> c in init || c == last;
    forall x | x in before + after
      ensures exists c :: c in kids && (x == c || Descendant(f, c, x))
    {
      if x in before {
        var c :| c in init && (x == c || Descendant(f, c, x));
        assert c in kids;
      } else {
        assert last in kids;
      }
    }
    forall x | exists c :: c in kids && (x == c || Descendant(f, c, x))
      ensures x in before + after
    {
      var c :| c in kids && (x == c || Descendant(f, c, x));
      if c != last {
        assert c in init;
      }
    }
  }

  /** The children other than the node itself lie below it. */
  lemma OtherChildrenBelow(f: Forest, t: Node)
    requires f.Valid() && t < f.Count()
    ensures forall x :: x in OtherChildren(f.children[t], t) ==> t < x < f.Count()
  {
    forall x | x in OtherChildren(f.children[t], t)
      ensures t < x < f.Count()
    {
      var k :| 0 <= k < |f.children[t]| && f.children[t][k] == x;
    }
  }

  /** WithAllChildren adds just the node itself to GetAllChildren's members. */
  lemma WithMembers(f: Forest, t: Node)
    requires f.Valid() && t < f.Count()
    ensures forall x :: x in WithAllChildren(f, t) <==> x == t || x in GetAllChildren(f, t)
  {
    var with, all := WithAllChildren(f, t), GetAllChildren(f, t);
    assert forall x :: x in with <==> x in multiset(with);
    assert forall x :: x in all <==> x in multiset(all);
  }

  /** GetAllChildren of c holds exactly its descendants. */
  ghost predicate ClosureExact(f: Forest, c: Node)
    requires f.Valid() && c < f.Count()
  {
    forall x :: x in GetAllChildren(f, c) <==> Descendant(f, c, x)
  }

  /** Descend over some of t's children holds exactly those children and their descendants. */
  lemma {:induction false} DescendMembers(f: Forest, t: Node, kids: seq<Node>)
    requires f.Valid() && t < f.Count()
    requires forall x :: x in kids ==> t < x < f.Count()
    requires forall c :: c in kids ==> ClosureExact(f, c)
    ensures forall x :: x in Descend(f, t, kids) <==> exists c :: c in kids && (x == c || Descendant(f, c, x))
    decreases |kids|
  {
    if kids != [] {
      var init, last := kids[..|kids| - 1], kids[|kids| - 1];
      assert kids == init + [last];
      assert forall c :: c in init ==> c in kids;
      assert last in kids;
      assert Descend(f, t, kids) == Descend(f, t, init) + WithAllChildren(f, last);
      DescendMembers(f, t, init);
      assert ClosureExact(f, last);
      WithMembers(f, last);
      DescendStep(f, t, init, last, Descend(f, t, init), WithAllChildren(f, last));
    }
  }

  /** One step of Descendant goes to a child other than the node itself. */
  lemma DescendantUnfold(f: Forest, t: Node, x: Node)
    requires f.Valid() && t < f.Count()
    ensures Descendant(f, t, x) <==>
            exists c :: c in OtherChildren(f.children[t], t) && (x == c || Descendant(f, c, x))
  {
    OtherChildrenBelow(f, t);
  }

  /**
   * GetAllChildren holds exactly the descendants of the node, and
   * WithAllChildren the node and its descendants.
   */
  lemma {:induction false} ChildrenAreDescendants(f: Forest, t: Node)
    requires f.Valid() && t < f.Count()
    ensures forall x :: x in GetAllChildren(f, t) <==> Descendant(f, t, x)
    ensures forall x :: x in WithAllChildren(f, t) <==> x == t || Descendant(f, t, x)
    decreases f.Count() - t
  {
    var kids := OtherChildren(f.children[t], t);
    OtherChildrenBelow(f, t);
    forall c | c in kids
      ensures ClosureExact(f, c)
    {
      ChildrenAreDescendants(f, c);
    }
    DescendMembers(f, t, kids);
    assert GetAllChildren(f, t) == SortByPath(f, Descend(f, t, kids));
    forall x
      ensures x in GetAllChildren(f, t) <==> Descendant(f, t, x)
    {
      DescendantUnfold(f, t, x);
    }
    WithMembers(f, t);
  }

  /** A node appears once in its own closures, and a node at the top has no parents. */
  lemma ClosureHoldsNodeOnce(f: Forest, t: Node)
    requires f.Valid() && t < f.Count()
    ensures multiset(WithAllChildren(f, t))[t] == 1
    ensures multiset(WithAllParents(f, t))[t] == 1
    ensures f.AtTop(t) ==> WithAllParents(f, t) == [t]
  {
    var below := GetAllChildren(f, t);
    assert t !in multiset(below) by { assert t !in below; }
    var above := GetAllParents(f, t);
    assert t !in multiset(above) by { assert t !in above; }
    var w := WithAllParents(f, t);
    assert multiset(w) == multiset(above) + multiset{t} by {
      assert multiset(w) == multiset(above + [t]);
    }
    if f.AtTop(t) {
      assert multiset(w) == multiset{t};
      assert |w| == 1;
      assert w[0] in multiset(w);
    }
  }
}
