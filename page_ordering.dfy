/**
 * The page-ordering rules of 2024/05_2024.  Every page of an update line
 * is filed into a binary tree: a page goes after a node whose rule list
 * names it, before a node that its own rule list names, and is refused
 * otherwise.  The in-order walk of the tree is the corrected line; the
 * middle pages of the unchanged and of the corrected lines are summed.
 */
module PageOrdering {
  import opened Wrappers

  /** The pages that must come after `value`: its rule list, or none when it has no rules. */
  function ChildrenFor(value: int, priorities: map<int, seq<int>>): (c: seq<int>)
    ensures value in priorities ==> c == priorities[value]
    ensures value !in priorities ==> c == []
  {
    if value !in priorities then [] else priorities[value]
  }

  // ------------------------------------------------------------------
  // The tree as a value

  /** A precedence tree: each node holds a page and the pages its rules send after it. */
  datatype Tree = Leaf | Branch(before: Tree, value: int, children: seq<int>, after: Tree)

  /** The pages in order: the before-subtree, the node, the after-subtree. */
  function Walk(t: Tree): seq<int>
  {
    match t
    case Leaf => []
    case Branch(b, x, _, a) => Walk(b) + [x] + Walk(a)
  }

  /** The (page, rule list) pairs held in the tree's nodes. */
  function Nodes(t: Tree): set<(int, seq<int>)>
  {
    match t
    case Leaf => {}
    case Branch(b, x, xc, a) => Nodes(b) + {(x, xc)} + Nodes(a)
  }

  /**
   * Files page `v` with rule list `vc` into the tree: into the after
   * side of a node whose rules name `v`, else into the before side of a
   * node that `vc` names, else nowhere (the source raises ValueError).
   * An empty slot takes the new node as a leaf.
   */
  function Insert(t: Tree, v: int, vc: seq<int>): Option<Tree>
  {
    match t
    case Leaf => Some(Branch(Leaf, v, vc, Leaf))
    case Branch(b, x, xc, a) =>
      if v in xc then
        var a' := Insert(a, v, vc);
        if a'.None? then None else Some(Branch(b, x, xc, a'.value))
      else if x in vc then
        var b' := Insert(b, v, vc);
        if b'.None? then None else Some(Branch(b'.value, x, xc, a))
      else None
  }

  /** Filing a page adds it to the walk and drops no page. */
  lemma {:induction false} InsertKeepsPages(t: Tree, v: int, vc: seq<int>)
    requires Insert(t, v, vc).Some?
    ensures multiset(Walk(Insert(t, v, vc).value)) == multiset(Walk(t)) + multiset{v}
  {
    match t
    case Leaf =>
    case Branch(b, x, xc, a) =>
      if v in xc {
        InsertKeepsPages(a, v, vc);
        var a' := Insert(a, v, vc).value;
        assert Walk(Insert(t, v, vc).value) == Walk(b) + [x] + Walk(a');
      } else {
        InsertKeepsPages(b, v, vc);
        var b' := Insert(b, v, vc).value;
        assert Walk(Insert(t, v, vc).value) == Walk(b') + [x] + Walk(a);
      }
  }

  /** Filing a page adds its node to the tree and drops no node. */
  lemma {:induction false} InsertAddsNode(t: Tree, v: int, vc: seq<int>)
    requires Insert(t, v, vc).Some?
    ensures Nodes(Insert(t, v, vc).value) == Nodes(t) + {(v, vc)}
  {
    match t
    case Leaf =>
    case Branch(b, x, xc, a) =>
      if v in xc {
        InsertAddsNode(a, v, vc);
      } else {
        InsertAddsNode(b, v, vc);
      }
  }

  /** Filing after a node whose rules name the page changes only its after side. */
  lemma InsertAfterSide(b: Tree, x: int, xc: seq<int>, a: Tree, v: int, vc: seq<int>)
    requires v in xc
    ensures Insert(Branch(b, x, xc, a), v, vc)
      == if Insert(a, v, vc).None? then None else Some(Branch(b, x, xc, Insert(a, v, vc).value))
  {
  }

  /** Filing before a node that the page's rules name changes only its before side. */
  lemma InsertBeforeSide(b: Tree, x: int, xc: seq<int>, a: Tree, v: int, vc: seq<int>)
    requires v !in xc && x in vc
    ensures Insert(Branch(b, x, xc, a), v, vc)
      == if Insert(b, v, vc).None? then None else Some(Branch(Insert(b, v, vc).value, x, xc, a))
  {
  }

  /**
   * The placement invariant: below every node, the before side holds
   * only pages whose rules name the node's page and which its rules do
   * not name, and the after side only pages its rules name.
   */
  ghost predicate Placed(t: Tree)
  {
    match t
    case Leaf => true
    case Branch(b, x, xc, a) =>
      (forall n | n in Nodes(b) :: x in n.1 && n.0 !in xc) &&
      (forall n | n in Nodes(a) :: n.0 in xc) &&
      Placed(b) && Placed(a)
  }

  /** Filing a page keeps every node on the side its rules demand. */
  lemma {:induction false} InsertPlaced(t: Tree, v: int, vc: seq<int>)
    requires Placed(t) && Insert(t, v, vc).Some?
    ensures Placed(Insert(t, v, vc).value)
  {
    match t
    case Leaf =>
    case Branch(b, x, xc, a) =>
      if v in xc {
        InsertPlaced(a, v, vc);
        InsertAddsNode(a, v, vc);
      } else {
        InsertPlaced(b, v, vc);
        InsertAddsNode(b, v, vc);
      }
  }

  /** A page that every node's rules name goes to the far end of the walk. */
  lemma {:induction false} InsertAtEnd(t: Tree, v: int, vc: seq<int>)
    requires forall n | n in Nodes(t) :: v in n.1
    ensures Insert(t, v, vc).Some? && Walk(Insert(t, v, vc).value) == Walk(t) + [v]
  {
    match t
    case Leaf =>
    case Branch(b, x, xc, a) =>
      assert (x, xc) in Nodes(t);
      InsertAtEnd(a, v, vc);
  }

  // ------------------------------------------------------------------
  // Sorting one line, as values

  /** The tree built from the pages of `line`, filed in order, or None when a page is refused. */
  function Build(line: seq<int>, priorities: map<int, seq<int>>): Option<Tree>
  {
    if line == [] then Some(Leaf)
    else
      var k := |line| - 1;
      match Build(line[..k], priorities)
      case None => None
      case Some(t) => Insert(t, line[k], ChildrenFor(line[k], priorities))
  }

  /** A built tree holds exactly the pages of the line, each with the rules the map gives it. */
  lemma {:induction false} BuildKeepsPages(line: seq<int>, priorities: map<int, seq<int>>)
    requires Build(line, priorities).Some?
    ensures multiset(Walk(Build(line, priorities).value)) == multiset(line)
    ensures forall n | n in Nodes(Build(line, priorities).value) :: n.0 in line && n.1 == ChildrenFor(n.0, priorities)
  {
    if line != [] {
      var k := |line| - 1;
      assert line == line[..k] + [line[k]];
      BuildKeepsPages(line[..k], priorities);
      var t := Build(line[..k], priorities).value;
      InsertKeepsPages(t, line[k], ChildrenFor(line[k], priorities));
      InsertAddsNode(t, line[k], ChildrenFor(line[k], priorities));
    }
  }

  /** The line `_sort_line` returns, or None when the tree refuses a page. */
  function SortLineSpec(line: seq<int>, priorities: map<int, seq<int>>): (r: Option<seq<int>>)
    ensures r.Some? ==> multiset(r.value) == multiset(line) && |r.value| == |line|
  {
    match Build(line, priorities)
    case None => None
    case Some(t) =>
      BuildKeepsPages(line, priorities);
      assert |Walk(t)| == |multiset(Walk(t))| == |multiset(line)| == |line|;
      Some(Walk(t))
  }

  /** Every tree the line builds keeps the placement invariant. */
  lemma {:induction false} BuildPlaced(line: seq<int>, priorities: map<int, seq<int>>)
    requires Build(line, priorities).Some?
    ensures Placed(Build(line, priorities).value)
  {
    if line != [] {
      var k := |line| - 1;
      BuildPlaced(line[..k], priorities);
      InsertPlaced(Build(line[..k], priorities).value, line[k], ChildrenFor(line[k], priorities));
    }
  }

  /** Every page's rules name every page after it. */
  predicate InOrder(line: seq<int>, priorities: map<int, seq<int>>)
  {
    forall i, j | 0 <= i < j < |line| :: line[j] in ChildrenFor(line[i], priorities)
  }

  /** A line already in rule order comes back unchanged. */
  lemma {:induction false} OrderedLineUnchanged(line: seq<int>, priorities: map<int, seq<int>>)
    requires InOrder(line, priorities)
    ensures Build(line, priorities).Some? && Walk(Build(line, priorities).value) == line
    ensures SortLineSpec(line, priorities) == Some(line)
  {
    if line != [] {
      var k := |line| - 1;
      var front := line[..k];
      assert InOrder(front, priorities);
      OrderedLineUnchanged(front, priorities);
      var t := Build(front, priorities).value;
      BuildKeepsPages(front, priorities);
      var vc := ChildrenFor(line[k], priorities);
      forall n | n in Nodes(t) ensures line[k] in n.1 {
        var i :| 0 <= i < |front| && front[i] == n.0;
        assert line[i] == n.0;
      }
      InsertAtEnd(t, line[k], vc);
      BuildStep(line, priorities, k);
      assert line[..k + 1] == line;
      assert Walk(Build(line, priorities).value) == front + [line[k]];
    }
  }

  /** Building one more page of a line files that page into the tree built so far. */
  lemma BuildStep(line: seq<int>, priorities: map<int, seq<int>>, k: nat)
    requires k < |line|
    ensures Build(line[..k + 1], priorities) ==
      if Build(line[..k], priorities).None? then None
      else Insert(Build(line[..k], priorities).value, line[k], ChildrenFor(line[k], priorities))
  {
    assert line[..k + 1][..k] == line[..k];
  }

  // ------------------------------------------------------------------
  // The tree as linked nodes

  class Node {
    var value: int
    var children: seq<int>
    var before: Node?
    var after: Node?
    ghost var Repr: set<object>
    ghost var Shape: Tree

    ghost predicate Valid()
      reads this, Repr
      decreases Repr
    {
      this in Repr &&
      (before != null ==>
        before in Repr && before.Repr <= Repr && this !in before.Repr && before.Valid()) &&
      (after != null ==>
        after in Repr && after.Repr <= Repr && this !in after.Repr && after.Valid()) &&
      (before != null && after != null ==> before.Repr !! after.Repr) &&
      Shape == Branch(if before == null then Leaf else before.Shape, value, children,
                      if after == null then Leaf else after.Shape)
    }

    constructor (value: int, children: seq<int>)
      ensures Valid() && fresh(Repr) && Repr == {this}
      ensures this.value == value && this.children == children && before == null && after == null
      ensures Shape == Branch(Leaf, value, children, Leaf)
    {
      this.value := value;
      this.children := children;
      before := null;
      after := null;
      Repr := {this};
      Shape := Branch(Leaf, value, children, Leaf);
    }

    /** Whether this node's rules send page `v` after it. */
    function IsThisMyChild(v: int): (b: bool)
      reads this, Repr
      requires Valid()
      ensures b <==> v in Shape.children
    {
      v in children
    }

    /**
     * Files a lone new node below this one.  On success the tree is the
     * one Insert describes and holds the new node; when no rule applies
     * (the source's ValueError) nothing changes.
     */
    method Add(node: Node) returns (ok: bool)
      requires Valid() && node.Valid() && node.Repr == {node} && node !in Repr
      requires node.before == null && node.after == null
      modifies Repr
      decreases Repr, 1
      ensures Valid()
      ensures Insert(old(Shape), node.value, node.children) == (if ok then Some(Shape) else None)
      ensures if ok then Repr == old(Repr) + {node} else Repr == old(Repr) && Shape == old(Shape)
    {
      if IsThisMyChild(node.value) {
        ok := AddAfter(node);
      } else if node.IsThisMyChild(value) {
        ok := AddBefore(node);
      } else {
        ok := false;
      }
    }

    /** Puts the node in the empty before slot, or files it into the before subtree. */
    method AddBefore(node: Node) returns (ok: bool)
      requires Valid() && node.Valid() && node.Repr == {node} && node !in Repr
      requires node.before == null && node.after == null
      requires value in node.children
      requires node.value !in children
      modifies Repr
      decreases Repr, 0
      ensures Valid()
      ensures Insert(old(Shape), node.value, node.children) == (if ok then Some(Shape) else None)
      ensures if ok then Repr == old(Repr) + {node} else Repr == old(Repr) && Shape == old(Shape)
    {
      ghost var a := if after == null then Leaf else after.Shape;
      InsertBeforeSide(if before == null then Leaf else before.Shape, value, children, a, node.value, node.children);
      if before == null {
        before := node;
        Repr := Repr + {node};
        Shape := Branch(node.Shape, value, children, a);
        return true;
      }
      ok := before.Add(node);
      assert after != null ==> after.Valid() && after.Shape == a && after.Repr !! before.Repr;
      if ok {
        Repr := Repr + {node};
        Shape := Branch(before.Shape, value, children, a);
      }
    }

    /** Puts the node in the empty after slot, or files it into the after subtree. */
    method AddAfter(node: Node) returns (ok: bool)
      requires Valid() && node.Valid() && node.Repr == {node} && node !in Repr
      requires node.before == null && node.after == null
      requires node.value in children
      modifies Repr
      decreases Repr, 0
      ensures Valid()
      ensures Insert(old(Shape), node.value, node.children) == (if ok then Some(Shape) else None)
      ensures if ok then Repr == old(Repr) + {node} else Repr == old(Repr) && Shape == old(Shape)
    {
      ghost var b := if before == null then Leaf else before.Shape;
      InsertAfterSide(b, value, children, if after == null then Leaf else after.Shape, node.value, node.children);
      if after == null {
        after := node;
        Repr := Repr + {node};
        Shape := Branch(b, value, children, node.Shape);
        return true;
      }
      ok := after.Add(node);
      assert before != null ==> before.Valid() && before.Shape == b && before.Repr !! after.Repr;
      if ok {
        Repr := Repr + {node};
        Shape := Branch(b, value, children, after.Shape);
      }
    }

    /** The pages of this subtree in order. */
    method WalkInOrder() returns (s: seq<int>)
      requires Valid()
      ensures s == Walk(Shape)
      decreases Repr
    {
      s := [];
      if before != null {
        s := before.WalkInOrder();
      }
      s := s + [value];
      if after != null {
        var rest := after.WalkInOrder();
        s := s + rest;
      }
    }
  }

  /** Builds the tree for one line, starting from its first page, and walks it. */
  method SortLine(line: seq<int>, priorities: map<int, seq<int>>) returns (r: Option<seq<int>>)
    requires |line| > 0
    ensures r == SortLineSpec(line, priorities)
  {
    var value := line[0];
    var children := ChildrenFor(value, priorities);
    var head := new Node(value, children);
    assert line[..1] == [] + [line[0]];
    for k := 1 to |line|
      invariant head.Valid() && fresh(head.Repr)
      invariant Build(line[..k], priorities) == Some(head.Shape)
    {
      var newNode := new Node(line[k], ChildrenFor(line[k], priorities));
      BuildStep(line, priorities, k);
      var ok := head.Add(newNode);
      if !ok {
        BuildStopsOnRefusal(line, priorities, k + 1);
        return None;
      }
      assert Build(line[..k + 1], priorities) == Some(head.Shape);
    }
    assert line[..|line|] == line;
    var walk := head.WalkInOrder();
    return Some(walk);
  }

  /** Once a page is refused, the longer line is refused too. */
  lemma {:induction false} BuildStopsOnRefusal(line: seq<int>, priorities: map<int, seq<int>>, k: nat)
    requires k <= |line| && Build(line[..k], priorities) == None
    ensures Build(line, priorities) == None
    decreases |line| - k
  {
    if k < |line| {
      BuildStep(line, priorities, k);
      BuildStopsOnRefusal(line, priorities, k + 1);
    } else {
      assert line[..k] == line;
    }
  }

  // ------------------------------------------------------------------
  // Medians

  /** The middle page of an odd-length line, the lower middle one of an even-length line. */
  function Median(line: seq<int>): int
    requires |line| > 0
  {
    if |line| % 2 != 0 then line[|line| / 2] else line[|line| / 2 - 1]
  }

  /** Both cases of Median pick the lower middle entry. */
  lemma LowerMiddle(line: seq<int>)
    requires |line| > 0
    ensures Median(line) == line[(|line| - 1) / 2]
  {
  }

  function MedianSum(lines: seq<seq<int>>): int
    requires forall i | 0 <= i < |lines| :: |lines[i]| > 0
  {
    if lines == [] then 0
    else MedianSum(lines[..|lines| - 1]) + Median(lines[|lines| - 1])
  }

  /** Adds up the medians of all lines. */
  method ComputeMedianSum(updates: seq<seq<int>>) returns (ans: int)
    requires forall i | 0 <= i < |updates| :: |updates[i]| > 0
    ensures ans == MedianSum(updates)
  {
    ans := 0;
    for n := 0 to |updates|
      invariant ans == MedianSum(updates[..n])
    {
      var line := updates[n];
      assert updates[..n + 1][..n] == updates[..n];
      if |line| % 2 != 0 {
        ans := ans + line[|line| / 2];
      } else {
        ans := ans + line[|line| / 2 - 1];
      }
    }
    assert updates[..|updates|] == updates;
  }

  lemma MedianSumExample()
    ensures MedianSum([[75, 47, 61, 53, 29], [97, 61, 53, 29, 13], [75, 29, 13]]) == 143
  {
    var lines := [[75, 47, 61, 53, 29], [97, 61, 53, 29, 13], [75, 29, 13]];
    assert lines[..2][..1] == lines[..1];
    assert lines[..1][..0] == lines[..0];
    assert MedianSum(lines[..1]) == 61;
    assert MedianSum(lines[..2]) == 61 + 53;
  }

  // ------------------------------------------------------------------
  // Splitting the updates

  /** Every line's sorting outcome, in input order. */
  function SortAll(updates: seq<seq<int>>, priorities: map<int, seq<int>>): (s: seq<Option<seq<int>>>)
    ensures |s| == |updates|
    ensures forall i | 0 <= i < |updates| :: s[i] == SortLineSpec(updates[i], priorities)
  {
    seq(|updates|, i requires 0 <= i < |updates| => SortLineSpec(updates[i], priorities))
  }

  /**
   * The lines split by whether sorting changed them, given each line's
   * outcome: the unchanged ones in the first list, the corrected ones in
   * the second, each in input order; None when some line is refused.
   */
  function Split(updates: seq<seq<int>>, sorted: seq<Option<seq<int>>>): (r: Option<(seq<seq<int>>, seq<seq<int>>)>)
    requires |sorted| == |updates|
    ensures r.Some? ==> |r.value.0| + |r.value.1| == |updates|
  {
    if updates == [] then Some(([], []))
    else
      var k := |updates| - 1;
      var rest := Split(updates[..k], sorted[..k]);
      if rest.None? || sorted[k].None? then None
      else if updates[k] == sorted[k].value then Some((rest.value.0 + [sorted[k].value], rest.value.1))
      else Some((rest.value.0, rest.value.1 + [sorted[k].value]))
  }

  /** `sort_update_pages`' split: every line sorted, then divided by whether it changed. */
  function Partition(updates: seq<seq<int>>, priorities: map<int, seq<int>>): Option<(seq<seq<int>>, seq<seq<int>>)>
  {
    Split(updates, SortAll(updates, priorities))
  }

  /** The split fails exactly when some outcome is a refusal. */
  lemma {:induction false} SplitRefuses(updates: seq<seq<int>>, sorted: seq<Option<seq<int>>>)
    requires |sorted| == |updates|
    ensures Split(updates, sorted).None? <==> exists i | 0 <= i < |updates| :: sorted[i].None?
  {
    if updates != [] {
      var k := |updates| - 1;
      SplitRefuses(updates[..k], sorted[..k]);
      if Split(updates[..k], sorted[..k]).None? {
        var i :| 0 <= i < k && sorted[..k][i].None?;
        assert sorted[i].None?;
      } else if sorted[k].Some? {
        forall i | 0 <= i < |updates| ensures sorted[i].Some? {
          if i < k {
            assert sorted[..k][i] == sorted[i];
          }
        }
      }
    }
  }

  /** The first list holds the lines whose outcome is the line itself. */
  lemma {:induction false} SplitUnchanged(updates: seq<seq<int>>, sorted: seq<Option<seq<int>>>)
    requires |sorted| == |updates| && Split(updates, sorted).Some?
    ensures forall x | x in Split(updates, sorted).value.0 :: exists i | 0 <= i < |updates| ::
      updates[i] == x && sorted[i] == Some(x)
  {
    if updates != [] {
      var k := |updates| - 1;
      SplitUnchanged(updates[..k], sorted[..k]);
      forall x | x in Split(updates[..k], sorted[..k]).value.0
        ensures exists i | 0 <= i < |updates| :: updates[i] == x && sorted[i] == Some(x)
      {
        var i :| 0 <= i < k && updates[..k][i] == x && sorted[..k][i] == Some(x);
        assert updates[i] == x && sorted[i] == Some(x);
      }
    }
  }

  /** The second list holds the outcomes that differ from their lines. */
  lemma {:induction false} SplitCorrected(updates: seq<seq<int>>, sorted: seq<Option<seq<int>>>)
    requires |sorted| == |updates| && Split(updates, sorted).Some?
    ensures forall x | x in Split(updates, sorted).value.1 :: exists i | 0 <= i < |updates| ::
      sorted[i] == Some(x) && x != updates[i]
  {
    if updates != [] {
      var k := |updates| - 1;
      SplitCorrected(updates[..k], sorted[..k]);
      forall x | x in Split(updates[..k], sorted[..k]).value.1
        ensures exists i | 0 <= i < |updates| :: sorted[i] == Some(x) && x != updates[i]
      {
        var i :| 0 <= i < k && sorted[..k][i] == Some(x) && x != updates[..k][i];
        assert sorted[i] == Some(x) && x != updates[i];
      }
    }
  }

  /** Every line lands in one of the lists: the first when its outcome is the line itself, else the second. */
  lemma {:induction false} SplitCovers(updates: seq<seq<int>>, sorted: seq<Option<seq<int>>>, i: nat)
    requires |sorted| == |updates| && Split(updates, sorted).Some? && i < |updates|
    ensures sorted[i].Some?
    ensures updates[i] == sorted[i].value ==> sorted[i].value in Split(updates, sorted).value.0
    ensures updates[i] != sorted[i].value ==> sorted[i].value in Split(updates, sorted).value.1
  {
    var k := |updates| - 1;
    if i < k {
      SplitCovers(updates[..k], sorted[..k], i);
      assert updates[..k][i] == updates[i] && sorted[..k][i] == sorted[i];
    }
  }

  /** The lines among the first `n` that are `x` and whose outcome is `x`. */
  ghost function KeptAt(updates: seq<seq<int>>, sorted: seq<Option<seq<int>>>, x: seq<int>, n: nat): set<int>
    requires |sorted| == |updates| && n <= |updates|
  {
    set i | 0 <= i < n && updates[i] == x && sorted[i] == Some(x)
  }

  /** The lines among the first `n` whose outcome is `x` but which differ from `x`. */
  ghost function FixedAt(updates: seq<seq<int>>, sorted: seq<Option<seq<int>>>, x: seq<int>, n: nat): set<int>
    requires |sorted| == |updates| && n <= |updates|
  {
    set i | 0 <= i < n && updates[i] != x && sorted[i] == Some(x)
  }

  /** One more line adds its index to KeptAt exactly when it is `x` with outcome `x`. */
  lemma KeptAtStep(updates: seq<seq<int>>, sorted: seq<Option<seq<int>>>, x: seq<int>, k: nat)
    requires |sorted| == |updates| && k < |updates|
    ensures |KeptAt(updates, sorted, x, k + 1)| ==
      |KeptAt(updates, sorted, x, k)| + if updates[k] == x && sorted[k] == Some(x) then 1 else 0
  {
    if updates[k] == x && sorted[k] == Some(x) {
      assert KeptAt(updates, sorted, x, k + 1) == KeptAt(updates, sorted, x, k) + {k};
    } else {
      assert KeptAt(updates, sorted, x, k + 1) == KeptAt(updates, sorted, x, k);
    }
  }

  /** One more line adds its index to FixedAt exactly when it differs from `x` but has outcome `x`. */
  lemma FixedAtStep(updates: seq<seq<int>>, sorted: seq<Option<seq<int>>>, x: seq<int>, k: nat)
    requires |sorted| == |updates| && k < |updates|
    ensures |FixedAt(updates, sorted, x, k + 1)| ==
      |FixedAt(updates, sorted, x, k)| + if updates[k] != x && sorted[k] == Some(x) then 1 else 0
  {
    if updates[k] != x && sorted[k] == Some(x) {
      assert FixedAt(updates, sorted, x, k + 1) == FixedAt(updates, sorted, x, k) + {k};
    } else {
      assert FixedAt(updates, sorted, x, k + 1) == FixedAt(updates, sorted, x, k);
    }
  }

  /** Split's first list over the first `n` lines holds `x` once per line of KeptAt. */
  lemma {:induction false} SplitKeptUpTo(updates: seq<seq<int>>, sorted: seq<Option<seq<int>>>, x: seq<int>, n: nat)
    requires |sorted| == |updates| && n <= |updates| && Split(updates[..n], sorted[..n]).Some?
    ensures multiset(Split(updates[..n], sorted[..n]).value.0)[x] == |KeptAt(updates, sorted, x, n)|
  {
    if n == 0 {
      assert KeptAt(updates, sorted, x, 0) == {};
    } else {
      var k := n - 1;
      SplitStep(updates, sorted, k);
      SplitKeptUpTo(updates, sorted, x, k);
      KeptAtStep(updates, sorted, x, k);
    }
  }

  /** Split's second list over the first `n` lines holds `x` once per line of FixedAt. */
  lemma {:induction false} SplitFixedUpTo(updates: seq<seq<int>>, sorted: seq<Option<seq<int>>>, x: seq<int>, n: nat)
    requires |sorted| == |updates| && n <= |updates| && Split(updates[..n], sorted[..n]).Some?
    ensures multiset(Split(updates[..n], sorted[..n]).value.1)[x] == |FixedAt(updates, sorted, x, n)|
  {
    if n == 0 {
      assert FixedAt(updates, sorted, x, 0) == {};
    } else {
      var k := n - 1;
      SplitStep(updates, sorted, k);
      SplitFixedUpTo(updates, sorted, x, k);
      FixedAtStep(updates, sorted, x, k);
    }
  }

  /**
   * Every line is filed exactly once: the first list holds `x` once for each
   * line that is `x` with outcome `x`, the second once for each line other
   * than `x` with outcome `x`.
   */
  lemma SplitCounts(updates: seq<seq<int>>, sorted: seq<Option<seq<int>>>, x: seq<int>)
    requires |sorted| == |updates| && Split(updates, sorted).Some?
    ensures multiset(Split(updates, sorted).value.0)[x] ==
      |set i | 0 <= i < |updates| && updates[i] == x && sorted[i] == Some(x)|
    ensures multiset(Split(updates, sorted).value.1)[x] ==
      |set i | 0 <= i < |updates| && updates[i] != x && sorted[i] == Some(x)|
  {
    assert updates[..|updates|] == updates && sorted[..|updates|] == sorted;
    SplitKeptUpTo(updates, sorted, x, |updates|);
    SplitFixedUpTo(updates, sorted, x, |updates|);
  }

  /** The split fails exactly when some line is refused. */
  lemma PartitionRefuses(updates: seq<seq<int>>, priorities: map<int, seq<int>>)
    ensures Partition(updates, priorities).None? <==>
      exists i | 0 <= i < |updates| :: SortLineSpec(updates[i], priorities).None?
  {
    SplitRefuses(updates, SortAll(updates, priorities));
  }

  /** The first list holds input lines that sorting leaves as they are. */
  lemma PartitionUnchanged(updates: seq<seq<int>>, priorities: map<int, seq<int>>)
    requires Partition(updates, priorities).Some?
    ensures forall x | x in Partition(updates, priorities).value.0 ::
      x in updates && SortLineSpec(x, priorities) == Some(x)
  {
    SplitUnchanged(updates, SortAll(updates, priorities));
  }

  /** The second list holds the sorted forms of input lines that sorting changed. */
  lemma PartitionCorrected(updates: seq<seq<int>>, priorities: map<int, seq<int>>)
    requires Partition(updates, priorities).Some?
    ensures forall x | x in Partition(updates, priorities).value.1 :: exists i | 0 <= i < |updates| ::
      SortLineSpec(updates[i], priorities) == Some(x) && x != updates[i]
  {
    SplitCorrected(updates, SortAll(updates, priorities));
  }

  /** Every input line is filed: in the first list when sorting leaves it as it is, else its sorted form in the second. */
  lemma PartitionCovers(updates: seq<seq<int>>, priorities: map<int, seq<int>>, i: nat)
    requires Partition(updates, priorities).Some? && i < |updates|
    ensures SortLineSpec(updates[i], priorities).Some?
    ensures var s := SortLineSpec(updates[i], priorities).value;
      (s == updates[i] ==> updates[i] in Partition(updates, priorities).value.0) &&
      (s != updates[i] ==> s in Partition(updates, priorities).value.1)
  {
    SplitCovers(updates, SortAll(updates, priorities), i);
  }

  /** The unchanged list holds `x` once for each input line equal to `x` that sorting leaves as it is. */
  lemma PartitionCountsUnchanged(updates: seq<seq<int>>, priorities: map<int, seq<int>>, x: seq<int>)
    requires Partition(updates, priorities).Some?
    ensures multiset(Partition(updates, priorities).value.0)[x] ==
      |set i | 0 <= i < |updates| && updates[i] == x && SortLineSpec(updates[i], priorities) == Some(x)|
  {
    var sorted := SortAll(updates, priorities);
    SplitCounts(updates, sorted, x);
    assert (set i | 0 <= i < |updates| && updates[i] == x && sorted[i] == Some(x)) ==
      (set i | 0 <= i < |updates| && updates[i] == x && SortLineSpec(updates[i], priorities) == Some(x));
  }

  /** The corrected list holds `x` once for each input line, other than `x`, that sorts to `x`. */
  lemma PartitionCountsCorrected(updates: seq<seq<int>>, priorities: map<int, seq<int>>, x: seq<int>)
    requires Partition(updates, priorities).Some?
    ensures multiset(Partition(updates, priorities).value.1)[x] ==
      |set i | 0 <= i < |updates| && updates[i] != x && SortLineSpec(updates[i], priorities) == Some(x)|
  {
    var sorted := SortAll(updates, priorities);
    SplitCounts(updates, sorted, x);
    assert (set i | 0 <= i < |updates| && updates[i] != x && sorted[i] == Some(x)) ==
      (set i | 0 <= i < |updates| && updates[i] != x && SortLineSpec(updates[i], priorities) == Some(x));
  }

  /** When no input line is empty, no line of either list is empty. */
  lemma PartitionNonEmpty(updates: seq<seq<int>>, priorities: map<int, seq<int>>)
    requires forall i | 0 <= i < |updates| :: |updates[i]| > 0
    requires Partition(updates, priorities).Some?
    ensures forall x | x in Partition(updates, priorities).value.0 :: |x| > 0
    ensures forall x | x in Partition(updates, priorities).value.1 :: |x| > 0
  {
    var sorted := SortAll(updates, priorities);
    SplitUnchanged(updates, sorted);
    SplitCorrected(updates, sorted);
    forall x | x in Partition(updates, priorities).value.1 ensures |x| > 0 {
      var i :| 0 <= i < |updates| && sorted[i] == Some(x) && x != updates[i];
      assert |x| == |updates[i]|;
    }
  }

  /** Splitting one more line files that line's outcome behind the split so far. */
  lemma SplitStep(updates: seq<seq<int>>, sorted: seq<Option<seq<int>>>, n: nat)
    requires |sorted| == |updates| && n < |updates|
    ensures var rest := Split(updates[..n], sorted[..n]);
      Split(updates[..n + 1], sorted[..n + 1]) ==
        if rest.None? || sorted[n].None? then None
        else if updates[n] == sorted[n].value then Some((rest.value.0 + [sorted[n].value], rest.value.1))
        else Some((rest.value.0, rest.value.1 + [sorted[n].value]))
  {
    assert updates[..n + 1][..n] == updates[..n] && sorted[..n + 1][..n] == sorted[..n];
  }

  /** The loop of `sort_update_pages`: sorts every line and files it by whether it changed. */
  method SplitUpdates(updates: seq<seq<int>>, priorities: map<int, seq<int>>)
    returns (r: Option<(seq<seq<int>>, seq<seq<int>>)>)
    requires forall i | 0 <= i < |updates| :: |updates[i]| > 0
    ensures r == Partition(updates, priorities)
  {
    ghost var sorted := SortAll(updates, priorities);
    var unchangedUpdates: seq<seq<int>> := [];
    var correctedUpdates: seq<seq<int>> := [];
    for n := 0 to |updates|
      invariant Split(updates[..n], sorted[..n]) == Some((unchangedUpdates, correctedUpdates))
    {
      var line := updates[n];
      SplitStep(updates, sorted, n);
      var processed := SortLine(line, priorities);
      assert processed == sorted[n];
      if processed.None? {
        SplitRefuses(updates, sorted);
        return None;
      }
      if line == processed.value {
        unchangedUpdates := unchangedUpdates + [processed.value];
      } else {
        correctedUpdates := correctedUpdates + [processed.value];
      }
    }
    assert updates[..|updates|] == updates && sorted[..|updates|] == sorted;
    return Some((unchangedUpdates, correctedUpdates));
  }

  /** Splits the updates, then sums the medians of each group. */
  method SortUpdatePages(updates: seq<seq<int>>, priorities: map<int, seq<int>>) returns (r: Option<(int, int)>)
    requires forall i | 0 <= i < |updates| :: |updates[i]| > 0
    ensures r.None? <==> Partition(updates, priorities).None?
    ensures r.Some? ==> forall x | x in Partition(updates, priorities).value.0 :: |x| > 0
    ensures r.Some? ==> forall x | x in Partition(updates, priorities).value.1 :: |x| > 0
    ensures r.Some? ==>
      r.value == (MedianSum(Partition(updates, priorities).value.0), MedianSum(Partition(updates, priorities).value.1))
  {
    var parts := SplitUpdates(updates, priorities);
    if parts.None? {
      return None;
    }
    PartitionNonEmpty(updates, priorities);
    var sumUnchanged := ComputeMedianSum(parts.value.0);
    var sumCorrected := ComputeMedianSum(parts.value.1);
    return Some((sumUnchanged, sumCorrected));
  }
}
