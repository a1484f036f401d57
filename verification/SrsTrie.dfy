/** The compiled domain matcher of a binary rule set: a breadth-first tree of labels and a bitmap, and the
    check that accepts exactly the well-formed ones (internal/lists/native_srs.go). */
module SrsTrie {
  import opened Options

  type Label = b: int | 0 <= b < 256

  const MAX_DEPTH := 256
  const MAX_VALUES := 200000
  const MAX_RECOVERED := 0x80_0000

  /** An ordered tree; the edges of a node carry labels. */
  datatype Tree = Node(edges: Edges)
  datatype Edges = NoEdge | Edge(key: Label, child: Tree, others: Edges)

  // ---------------------------------------------------------------- size

  function Weight(t: Tree): nat
    decreases t, 1
  {
    1 + EdgesWeight(t.edges)
  }

  function EdgesWeight(edges: Edges): nat
    decreases edges, 0
  {
    match edges
    case NoEdge => 0
    case Edge(_, child, others) => 1 + Weight(child) + EdgesWeight(others)
  }

  function QueueWeight(queue: seq<Tree>): nat {
    if queue == [] then 0 else Weight(queue[0]) + QueueWeight(queue[1..])
  }

  lemma {:induction false} QueueWeightSnoc(queue: seq<Tree>, t: Tree)
    ensures QueueWeight(queue + [t]) == QueueWeight(queue) + Weight(t)
    decreases |queue|
  {
    if queue == [] {
      assert [t][1..] == [];
    } else {
      assert (queue + [t])[1..] == queue[1..] + [t];
      QueueWeightSnoc(queue[1..], t);
    }
  }

  // ---------------------------------------------------------------- breadth-first code of a tree

  /** One step of a breadth-first walk: the first edge of the head goes to the end of the queue. */
  function Advance(queue: seq<Tree>): (rest: seq<Tree>)
    requires queue != [] && queue[0].edges.Edge?
    ensures |rest| == |queue| + 1 && QueueWeight(rest) == QueueWeight(queue) - 1
  {
    var head := queue[0];
    QueueWeightSnoc([Node(head.edges.others)] + queue[1..], head.edges.child);
    assert ([Node(head.edges.others)] + queue[1..])[1..] == queue[1..];
    assert EdgesWeight(head.edges) == 1 + Weight(head.edges.child) + EdgesWeight(head.edges.others);
    assert Weight(Node(head.edges.others)) == 1 + EdgesWeight(head.edges.others);
    [Node(head.edges.others)] + queue[1..] + [head.edges.child]
  }

  /** Labels in discovery order; a zero for every edge and a one after the edges of every node. */
  datatype Code = Code(labels: seq<Label>, bits: seq<bool>)

  function Encode(queue: seq<Tree>): Code
    decreases QueueWeight(queue)
  {
    if queue == [] then Code([], [])
    else if queue[0].edges.NoEdge? then
      var rest := Encode(queue[1..]);
      Code(rest.labels, [true] + rest.bits)
    else
      var rest := Encode(Advance(queue));
      Code([queue[0].edges.key] + rest.labels, [false] + rest.bits)
  }

  /** Different trees have different codes. */
  lemma {:induction false} EncodeInjective(xs: seq<Tree>, ys: seq<Tree>)
    requires |xs| == |ys| && Encode(xs) == Encode(ys)
    ensures xs == ys
    decreases QueueWeight(xs)
  {
    if xs != [] {
      SameFirstBit(xs, ys);
      if xs[0].edges.NoEdge? {
        EncodeInjective(xs[1..], ys[1..]);
        assert xs == [xs[0]] + xs[1..] && ys == [ys[0]] + ys[1..];
      } else {
        EncodeInjective(Advance(xs), Advance(ys));
        AdvanceInjective(xs, ys);
      }
    }
  }

  lemma {:induction false} SameFirstBit(xs: seq<Tree>, ys: seq<Tree>)
    requires xs != [] && ys != [] && Encode(xs) == Encode(ys)
    ensures (xs[0].edges.NoEdge?) == (ys[0].edges.NoEdge?)
    ensures xs[0].edges.NoEdge? ==> Encode(xs[1..]) == Encode(ys[1..])
    ensures xs[0].edges.Edge? ==>
              Encode(Advance(xs)) == Encode(Advance(ys)) && xs[0].edges.key == ys[0].edges.key
  {
    var x, y := Encode(xs), Encode(ys);
    assert x.bits[0] == (xs[0].edges.NoEdge?) && y.bits[0] == (ys[0].edges.NoEdge?);
    if xs[0].edges.NoEdge? {
      assert Encode(xs[1..]) == Code(x.labels, x.bits[1..]) && Encode(ys[1..]) == Code(y.labels, y.bits[1..]);
    } else {
      assert x.labels[0] == xs[0].edges.key && y.labels[0] == ys[0].edges.key;
      assert Encode(Advance(xs)) == Code(x.labels[1..], x.bits[1..]);
      assert Encode(Advance(ys)) == Code(y.labels[1..], y.bits[1..]);
    }
  }

  lemma {:induction false} AdvanceInjective(xs: seq<Tree>, ys: seq<Tree>)
    requires |xs| == |ys| && xs != [] && xs[0].edges.Edge? && ys[0].edges.Edge?
    requires Advance(xs) == Advance(ys) && xs[0].edges.key == ys[0].edges.key
    ensures xs == ys
  {
    var x, y := xs[0], ys[0];
    assert Advance(xs)[0] == Node(x.edges.others) && Advance(ys)[0] == Node(y.edges.others);
    assert Advance(xs)[|xs|] == x.edges.child && Advance(ys)[|xs|] == y.edges.child;
    assert Advance(xs)[1..|xs|] == xs[1..] && Advance(ys)[1..|xs|] == ys[1..];
    assert xs == [x] + xs[1..] && ys == [y] + ys[1..];
  }

  // ---------------------------------------------------------------- what the check reads

  /** Reads bits one by one. `pending` are the depths of the nodes found and not yet finished, `last`
      is the previous label of the current node. */
  predicate Accepts(pending: seq<nat>, last: int, labels: seq<Label>, bits: seq<bool>)
    decreases |bits|
  {
    if pending == [] then labels == [] && bits == []
    else if bits == [] then false
    else if bits[0] then Accepts(pending[1..], -1, labels, bits[1..])
    else
      && labels != [] && last < labels[0] && pending[0] + 1 <= MAX_DEPTH
      && Accepts(pending + [pending[0] + 1], labels[0], labels[1..], bits[1..])
  }

  /** Depths in discovery order. */
  function FoundDepths(pending: seq<nat>, bits: seq<bool>): seq<nat>
    decreases |bits|
  {
    if pending == [] || bits == [] then []
    else if bits[0] then FoundDepths(pending[1..], bits[1..])
    else [pending[0] + 1] + FoundDepths(pending + [pending[0] + 1], bits[1..])
  }

  // ---------------------------------------------------------------- the trees it stands for

  predicate Ordered(t: Tree, last: int)
    decreases t, 1
  {
    EdgesOrdered(t.edges, last)
  }

  predicate EdgesOrdered(edges: Edges, last: int)
    decreases edges, 0
  {
    match edges
    case NoEdge => true
    case Edge(key, child, others) => last < key && Ordered(child, -1) && EdgesOrdered(others, key)
  }

  predicate AllOrdered(queue: seq<Tree>, last: int) {
    queue != [] ==> Ordered(queue[0], last) && AllOrdered(queue[1..], -1)
  }

  function Height(t: Tree): nat
    decreases t, 1
  {
    EdgesHeight(t.edges)
  }

  function EdgesHeight(edges: Edges): nat
    decreases edges, 0
  {
    match edges
    case NoEdge => 0
    case Edge(_, child, others) =>
      if 1 + Height(child) < EdgesHeight(others) then EdgesHeight(others) else 1 + Height(child)
  }

  predicate Fits(queue: seq<Tree>, pending: seq<nat>) {
    && |queue| == |pending|
    && (queue != [] ==> pending[0] + Height(queue[0]) <= MAX_DEPTH && Fits(queue[1..], pending[1..]))
  }

  lemma {:induction false} FitsSnoc(queue: seq<Tree>, pending: seq<nat>, t: Tree, d: nat)
    requires |queue| == |pending|
    ensures Fits(queue + [t], pending + [d]) <==> Fits(queue, pending) && d + Height(t) <= MAX_DEPTH
    decreases |queue|
  {
    if queue == [] {
      assert [t][1..] == [] && [d][1..] == [];
    } else {
      assert (queue + [t])[1..] == queue[1..] + [t] && (pending + [d])[1..] == pending[1..] + [d];
      FitsSnoc(queue[1..], pending[1..], t, d);
    }
  }

  lemma {:induction false} OrderedSnoc(queue: seq<Tree>, last: int, t: Tree)
    requires queue != []
    ensures AllOrdered(queue + [t], last) <==> AllOrdered(queue, last) && Ordered(t, -1)
    decreases |queue|
  {
    assert (queue + [t])[1..] == queue[1..] + [t];
    if |queue| == 1 {
      assert queue[1..] == [] && queue[1..] + [t] == [t] && [t][1..] == [];
    } else {
      OrderedSnoc(queue[1..], -1, t);
    }
  }

  /** A queue the walk may be in when it has read everything before `labels` and `bits`. */
  ghost predicate Describes(queue: seq<Tree>, pending: seq<nat>, last: int, labels: seq<Label>, bits: seq<bool>) {
    Encode(queue) == Code(labels, bits) && AllOrdered(queue, last) && Fits(queue, pending)
  }

  lemma {:induction false} DescribesStep(queue: seq<Tree>, pending: seq<nat>, last: int, labels: seq<Label>, bits: seq<bool>)
    requires queue != [] && |queue| == |pending| && queue[0].edges.Edge?
    ensures Describes(queue, pending, last, labels, bits) <==>
            && bits != [] && !bits[0] && labels != [] && labels[0] == queue[0].edges.key
            && last < labels[0] && pending[0] + 1 <= MAX_DEPTH
            && Describes(Advance(queue), pending + [pending[0] + 1], labels[0], labels[1..], bits[1..])
  {
    var head := queue[0];
    var kept := [Node(head.edges.others)] + queue[1..];
    var rest := Encode(Advance(queue));
    assert kept[1..] == queue[1..];
    var shorter := Node(head.edges.others);
    assert EdgesHeight(head.edges) == if 1 + Height(head.edges.child) < Height(shorter) then Height(shorter) else 1 + Height(head.edges.child);
    assert EdgesOrdered(head.edges, last) ==
           (last < head.edges.key && Ordered(head.edges.child, -1) && Ordered(shorter, head.edges.key));
    FitsSnoc(kept, pending, head.edges.child, pending[0] + 1);
    OrderedSnoc(kept, head.edges.key, head.edges.child);
    var code := Code([head.edges.key] + rest.labels, [false] + rest.bits);
    assert Encode(queue) == code && code.labels[1..] == rest.labels && code.bits[1..] == rest.bits;
    assert labels != [] ==> labels == [labels[0]] + labels[1..];
    assert bits != [] ==> bits == [bits[0]] + bits[1..];
  }

  lemma {:induction false} DescribesEnd(queue: seq<Tree>, pending: seq<nat>, last: int, labels: seq<Label>, bits: seq<bool>)
    requires queue != [] && |queue| == |pending| && queue[0].edges.NoEdge?
    ensures Describes(queue, pending, last, labels, bits) <==>
            && bits != [] && bits[0] && pending[0] <= MAX_DEPTH
            && Describes(queue[1..], pending[1..], -1, labels, bits[1..])
  {
    var rest := Encode(queue[1..]);
    var code := Code(rest.labels, [true] + rest.bits);
    assert Encode(queue) == code && code.bits[1..] == rest.bits;
    assert bits != [] ==> bits == [bits[0]] + bits[1..];
  }

  predicate AllWithin(pending: seq<nat>) {
    pending != [] ==> pending[0] <= MAX_DEPTH && AllWithin(pending[1..])
  }

  lemma {:induction false} AllWithinSnoc(pending: seq<nat>, d: nat)
    ensures AllWithin(pending + [d]) <==> AllWithin(pending) && d <= MAX_DEPTH
    decreases |pending|
  {
    if pending == [] {
      assert [d][1..] == [];
    } else {
      assert (pending + [d])[1..] == pending[1..] + [d];
      AllWithinSnoc(pending[1..], d);
    }
  }

  /** What the reader accepts, read back as trees. */
  lemma {:induction false} AcceptedQueue(pending: seq<nat>, last: int, labels: seq<Label>, bits: seq<bool>)
    returns (queue: seq<Tree>)
    requires Accepts(pending, last, labels, bits) && AllWithin(pending)
    ensures |queue| == |pending| && Describes(queue, pending, last, labels, bits)
    decreases |bits|
  {
    if pending == [] {
      queue := [];
    } else if bits[0] {
      var rest := AcceptedQueue(pending[1..], -1, labels, bits[1..]);
      queue := [Node(NoEdge)] + rest;
      assert queue[1..] == rest;
      DescribesEnd(queue, pending, last, labels, bits);
    } else {
      AllWithinSnoc(pending, pending[0] + 1);
      var rest := AcceptedQueue(pending + [pending[0] + 1], labels[0], labels[1..], bits[1..]);
      var n := |pending|;
      queue := [Node(Edge(labels[0], rest[n], rest[0].edges))] + rest[1..n];
      assert queue[0].edges.others == rest[0].edges && queue[1..] == rest[1..n];
      assert Advance(queue) == [rest[0]] + rest[1..n] + [rest[n]] == rest;
      DescribesStep(queue, pending, last, labels, bits);
    }
  }

  lemma {:induction false} DescribedIsAccepted(queue: seq<Tree>, pending: seq<nat>, last: int, labels: seq<Label>, bits: seq<bool>)
    requires |queue| == |pending| && Describes(queue, pending, last, labels, bits)
    ensures Accepts(pending, last, labels, bits)
    decreases |bits|
  {
    if queue != [] {
      if queue[0].edges.NoEdge? {
        DescribesEnd(queue, pending, last, labels, bits);
        DescribedIsAccepted(queue[1..], pending[1..], -1, labels, bits[1..]);
      } else {
        DescribesStep(queue, pending, last, labels, bits);
        DescribedIsAccepted(Advance(queue), pending + [pending[0] + 1], labels[0], labels[1..], bits[1..]);
      }
    }
  }

  /** The tree a matcher stands for: its code is what was read, labels of one node rise, and it is not too deep. */
  ghost predicate IsTreeOf(t: Tree, labels: seq<Label>, bits: seq<bool>) {
    Encode([t]) == Code(labels, bits) && Ordered(t, -1) && Height(t) <= MAX_DEPTH
  }

  lemma {:induction false} RootQueue(t: Tree, labels: seq<Label>, bits: seq<bool>)
    ensures IsTreeOf(t, labels, bits) <==> Describes([t], [0], -1, labels, bits)
  {
    var queue, pending: seq<nat> := [t], [0];
    assert queue[1..] == [] && pending[1..] == [];
    assert Fits(queue, pending) == (Height(t) <= MAX_DEPTH);
    assert AllOrdered(queue, -1) == Ordered(t, -1);
  }

  /** The reader accepts exactly the codes of trees, and no code is the code of two trees. */
  lemma {:induction false} AcceptedExactlyTrees(labels: seq<Label>, bits: seq<bool>)
    ensures Accepts([0], -1, labels, bits) <==> exists t :: IsTreeOf(t, labels, bits)
    ensures forall t, u :: IsTreeOf(t, labels, bits) && IsTreeOf(u, labels, bits) ==> t == u
  {
    if Accepts([0], -1, labels, bits) {
      assert [0][1..] == [];
      var queue := AcceptedQueue([0], -1, labels, bits);
      assert queue == [queue[0]];
      RootQueue(queue[0], labels, bits);
    }
    if t :| IsTreeOf(t, labels, bits) {
      RootQueue(t, labels, bits);
      DescribedIsAccepted([t], [0], -1, labels, bits);
    }
    forall t, u | IsTreeOf(t, labels, bits) && IsTreeOf(u, labels, bits)
      ensures t == u
    {
      EncodeInjective([t], [u]);
      assert [t][0] == [u][0];
    }
  }

  function NodeCount(t: Tree): nat
    decreases t, 1
  {
    1 + EdgesCount(t.edges)
  }

  function EdgesCount(edges: Edges): nat
    decreases edges, 0
  {
    match edges
    case NoEdge => 0
    case Edge(_, child, others) => NodeCount(child) + EdgesCount(others)
  }

  function QueueCount(queue: seq<Tree>): nat {
    if queue == [] then 0 else NodeCount(queue[0]) + QueueCount(queue[1..])
  }

  lemma {:induction false} QueueCountSnoc(queue: seq<Tree>, t: Tree)
    ensures QueueCount(queue + [t]) == QueueCount(queue) + NodeCount(t)
    decreases |queue|
  {
    if queue == [] {
      assert [t][1..] == [];
    } else {
      assert (queue + [t])[1..] == queue[1..] + [t];
      QueueCountSnoc(queue[1..], t);
    }
  }

  /** One label for every node but the roots, and two bits for every node but one for a root. */
  lemma {:induction false} CodeSize(queue: seq<Tree>)
    ensures |Encode(queue).labels| + |queue| == QueueCount(queue)
    ensures |Encode(queue).bits| + |queue| == 2 * QueueCount(queue)
    decreases QueueWeight(queue)
  {
    if queue != [] {
      if queue[0].edges.NoEdge? {
        CodeSize(queue[1..]);
      } else {
        CodeSize(Advance(queue));
        var kept := [Node(queue[0].edges.others)] + queue[1..];
        assert kept[1..] == queue[1..];
        assert EdgesCount(queue[0].edges) == NodeCount(queue[0].edges.child) + EdgesCount(queue[0].edges.others);
        assert NodeCount(Node(queue[0].edges.others)) == 1 + EdgesCount(queue[0].edges.others);
        QueueCountSnoc(kept, queue[0].edges.child);
      }
    }
  }

  // ---------------------------------------------------------------- the label path of every node

  type Path = seq<Label>

  /** A node waiting in the queue, with the labels that lead to it. */
  datatype Placed = Placed(tree: Tree, path: Path)

  function TreesOf(queue: seq<Placed>): (trees: seq<Tree>)
    ensures |trees| == |queue|
    ensures queue != [] ==> trees[0] == queue[0].tree
  {
    if queue == [] then [] else [queue[0].tree] + TreesOf(queue[1..])
  }

  lemma {:induction false} TreesOfSnoc(queue: seq<Placed>, x: Placed)
    ensures TreesOf(queue + [x]) == TreesOf(queue) + [x.tree]
    decreases |queue|
  {
    if queue == [] {
      assert [x][1..] == [];
    } else {
      assert (queue + [x])[1..] == queue[1..] + [x];
      TreesOfSnoc(queue[1..], x);
    }
  }

  function FirstChild(queue: seq<Placed>): Placed
    requires queue != [] && queue[0].tree.edges.Edge?
  {
    Placed(queue[0].tree.edges.child, queue[0].path + [queue[0].tree.edges.key])
  }

  function AdvancePlaced(queue: seq<Placed>): (rest: seq<Placed>)
    requires queue != [] && queue[0].tree.edges.Edge?
    ensures TreesOf(rest) == Advance(TreesOf(queue))
    ensures |rest| == |queue| + 1 && rest[|queue|] == FirstChild(queue)
  {
    var kept := [Placed(Node(queue[0].tree.edges.others), queue[0].path)] + queue[1..];
    TreesOfSnoc(kept, FirstChild(queue));
    assert kept[1..] == queue[1..];
    assert TreesOf(queue)[1..] == TreesOf(queue[1..]);
    kept + [FirstChild(queue)]
  }

  /** Paths of the nodes the walk will still find, in the order it finds them. */
  function Found(queue: seq<Placed>): seq<Path>
    decreases QueueWeight(TreesOf(queue))
  {
    if queue == [] then []
    else if queue[0].tree.edges.NoEdge? then
      assert TreesOf(queue)[1..] == TreesOf(queue[1..]);
      Found(queue[1..])
    else [FirstChild(queue).path] + Found(AdvancePlaced(queue))
  }

  /** Paths of all nodes of a tree in breadth-first order. */
  function NodePaths(t: Tree): seq<Path> {
    [[]] + Found([Placed(t, [])])
  }

  function Lengths(paths: seq<Path>): (out: seq<nat>)
    ensures |out| == |paths|
  {
    if paths == [] then [] else [|paths[0]|] + Lengths(paths[1..])
  }

  function PlacedDepths(queue: seq<Placed>): (out: seq<nat>)
    ensures |out| == |queue|
  {
    if queue == [] then [] else [|queue[0].path|] + PlacedDepths(queue[1..])
  }

  lemma {:induction false} PlacedDepthsSnoc(queue: seq<Placed>, x: Placed)
    ensures PlacedDepths(queue + [x]) == PlacedDepths(queue) + [|x.path|]
    decreases |queue|
  {
    if queue == [] {
      assert [x][1..] == [];
    } else {
      assert (queue + [x])[1..] == queue[1..] + [x];
      PlacedDepthsSnoc(queue[1..], x);
    }
  }

  lemma {:induction false} AdvancedDepths(queue: seq<Placed>)
    requires queue != [] && queue[0].tree.edges.Edge?
    ensures PlacedDepths(AdvancePlaced(queue)) == PlacedDepths(queue) + [|queue[0].path| + 1]
  {
    var kept := [Placed(Node(queue[0].tree.edges.others), queue[0].path)] + queue[1..];
    assert kept[1..] == queue[1..];
    PlacedDepthsSnoc(kept, FirstChild(queue));
  }

  /** The walk goes past a node without edges. */
  lemma {:induction false} DepthsPast(queue: seq<Placed>)
    requires queue != [] && queue[0].tree.edges.NoEdge?
    requires FoundDepths(PlacedDepths(queue[1..]), Encode(TreesOf(queue[1..])).bits) == Lengths(Found(queue[1..]))
    ensures FoundDepths(PlacedDepths(queue), Encode(TreesOf(queue)).bits) == Lengths(Found(queue))
  {
    var depths, bits := PlacedDepths(queue), Encode(TreesOf(queue)).bits;
    assert TreesOf(queue)[1..] == TreesOf(queue[1..]);
    assert depths[1..] == PlacedDepths(queue[1..]);
    assert bits == [true] + Encode(TreesOf(queue[1..])).bits;
    assert bits[1..] == Encode(TreesOf(queue[1..])).bits;
  }

  /** The walk finds a child of the first node. */
  lemma {:induction false} DepthsOn(queue: seq<Placed>)
    requires queue != [] && queue[0].tree.edges.Edge?
    requires var next := AdvancePlaced(queue); FoundDepths(PlacedDepths(next), Encode(TreesOf(next)).bits) == Lengths(Found(next))
    ensures FoundDepths(PlacedDepths(queue), Encode(TreesOf(queue)).bits) == Lengths(Found(queue))
  {
    var next, bits := AdvancePlaced(queue), Encode(TreesOf(queue)).bits;
    assert bits == [false] + Encode(TreesOf(next)).bits;
    assert bits[1..] == Encode(TreesOf(next)).bits;
    AdvancedDepths(queue);
    assert ([FirstChild(queue).path] + Found(next))[1..] == Found(next);
  }

  /** The depths the reader computes are the lengths of the node paths. */
  lemma {:induction false} DepthsAreLengths(queue: seq<Placed>)
    ensures FoundDepths(PlacedDepths(queue), Encode(TreesOf(queue)).bits) == Lengths(Found(queue))
    decreases QueueWeight(TreesOf(queue))
  {
    if queue != [] {
      if queue[0].tree.edges.NoEdge? {
        assert TreesOf(queue)[1..] == TreesOf(queue[1..]);
        DepthsAreLengths(queue[1..]);
        DepthsPast(queue);
      } else {
        DepthsAreLengths(AdvancePlaced(queue));
        DepthsOn(queue);
      }
    }
  }

  // ---------------------------------------------------------------- paths are distinct

  /** Shorter paths first, and paths of one length in the order of their labels. */
  predicate Less(p: Path, q: Path) {
    |p| < |q| || (|p| == |q| && Lex(p, q))
  }

  predicate Lex(p: Path, q: Path)
    requires |p| == |q|
  {
    p != [] && (p[0] < q[0] || (p[0] == q[0] && Lex(p[1..], q[1..])))
  }

  lemma {:induction false} LexTransitive(p: Path, q: Path, r: Path)
    requires |p| == |q| == |r| && Lex(p, q) && Lex(q, r)
    ensures Lex(p, r)
    decreases |p|
  {
    if p[0] == q[0] && q[0] == r[0] {
      LexTransitive(p[1..], q[1..], r[1..]);
    }
  }

  lemma {:induction false} LexIrreflexive(p: Path)
    ensures !Lex(p, p)
    decreases |p|
  {
    if p != [] {
      LexIrreflexive(p[1..]);
    }
  }

  /** Extending both paths by one label. */
  lemma {:induction false} LexSnoc(p: Path, q: Path, k: Label, l: Label)
    requires |p| == |q|
    ensures Lex(p + [k], q + [l]) <==> Lex(p, q) || (p == q && k < l)
    decreases |p|
  {
    if p == [] {
      assert p + [k] == [k] && q + [l] == [l];
    } else {
      assert (p + [k])[1..] == p[1..] + [k] && (q + [l])[1..] == q[1..] + [l];
      LexSnoc(p[1..], q[1..], k, l);
      assert p == [p[0]] + p[1..] && q == [q[0]] + q[1..];
    }
  }

  /** Each path is less than the next one, starting above `low`. */
  predicate RisesFrom(low: Path, paths: seq<Path>)
    decreases |paths|
  {
    paths != [] ==> Less(low, paths[0]) && RisesFrom(paths[0], paths[1..])
  }

  lemma {:induction false} RisesAbove(low: Path, paths: seq<Path>, i: nat)
    requires RisesFrom(low, paths) && i < |paths|
    ensures Less(low, paths[i])
    decreases |paths|
  {
    if i > 0 {
      RisesAbove(paths[0], paths[1..], i - 1);
      if |low| == |paths[0]| == |paths[i]| {
        LexTransitive(low, paths[0], paths[i]);
      }
    }
  }

  lemma {:induction false} RisesDistinct(low: Path, paths: seq<Path>, i: nat, j: nat)
    requires RisesFrom(low, paths) && i < j < |paths|
    ensures paths[i] != paths[j]
    decreases |paths|
  {
    if i > 0 {
      RisesDistinct(paths[0], paths[1..], i - 1, j - 1);
    } else {
      RisesAbove(paths[0], paths[1..], j - 1);
      LexIrreflexive(paths[0]);
    }
  }

  /** The waiting nodes rise, `low` being the path of the node before them. */
  predicate QueueRises(low: Path, queue: seq<Placed>)
    decreases |queue|
  {
    queue != [] ==> Less(low, queue[0].path) && QueueRises(queue[0].path, queue[1..])
  }

  lemma {:induction false} QueueRisesSnoc(low: Path, queue: seq<Placed>, x: Placed)
    requires QueueRises(low, queue)
    requires Less(if queue == [] then low else queue[|queue| - 1].path, x.path)
    ensures QueueRises(low, queue + [x])
    decreases |queue|
  {
    if queue == [] {
      assert [x][1..] == [];
    } else {
      assert (queue + [x])[1..] == queue[1..] + [x];
      QueueRisesSnoc(queue[0].path, queue[1..], x);
    }
  }

  /** The last waiting node is at most one level below the head; if it is, it is a child of the head
      under a label up to `last`, or of an earlier node. */
  predicate Trails(tail: Path, head: Path, last: int) {
    || |tail| <= |head|
    || (|tail| == |head| + 1 &&
        var parent := tail[..|head|];
        Lex(parent, head) || (parent == head && tail[|head|] <= last))
  }

  ghost predicate InLevelOrder(queue: seq<Placed>, last: int) {
    queue != [] ==>
      && QueueRises(queue[0].path, queue[1..])
      && Trails(queue[|queue| - 1].path, queue[0].path, last)
      && AllOrdered(TreesOf(queue), last)
  }

  lemma {:induction false} TrailsBelow(tail: Path, head: Path, last: int, k: Label)
    requires Trails(tail, head, last) && last < k
    ensures Less(tail, head + [k])
    ensures Trails(head + [k], head, k)
  {
    assert (head + [k])[..|head|] == head;
    if |tail| == |head| + 1 {
      LexSnoc(tail[..|head|], head, tail[|head|], k);
      assert tail == tail[..|head|] + [tail[|head|]];
    }
  }

  lemma {:induction false} TrailsOn(tail: Path, head: Path, next: Path, last: int)
    requires Trails(tail, head, last) && Less(head, next)
    ensures Trails(tail, next, -1)
  {
    if |tail| == |head| + 1 && |next| == |head| && Lex(tail[..|head|], head) {
      LexTransitive(tail[..|head|], head, next);
    }
  }

  lemma {:induction false} LevelOrderSteps(queue: seq<Placed>, last: int)
    requires InLevelOrder(queue, last) && queue != []
    ensures queue[0].tree.edges.NoEdge? ==> InLevelOrder(queue[1..], -1)
    ensures queue[0].tree.edges.Edge? ==>
              && InLevelOrder(AdvancePlaced(queue), queue[0].tree.edges.key)
              && Less(queue[|queue| - 1].path, FirstChild(queue).path)
  {
    var head, tail := queue[0], queue[|queue| - 1].path;
    assert TreesOf(queue)[1..] == TreesOf(queue[1..]);
    if head.tree.edges.NoEdge? {
      if |queue| > 1 {
        TrailsOn(tail, head.path, queue[1].path, last);
      }
    } else {
      var child := FirstChild(queue);
      var kept := [Placed(Node(head.tree.edges.others), head.path)] + queue[1..];
      AdvanceOrdered(TreesOf(queue), last);
      TrailsBelow(tail, head.path, last, head.tree.edges.key);
      QueueRisesSnoc(head.path, queue[1..], child);
      assert AdvancePlaced(queue) == kept + [child];
      assert AdvancePlaced(queue)[1..] == queue[1..] + [child];
    }
  }

  lemma {:induction false} AdvanceOrdered(queue: seq<Tree>, last: int)
    requires queue != [] && queue[0].edges.Edge? && AllOrdered(queue, last)
    ensures last < queue[0].edges.key && AllOrdered(Advance(queue), queue[0].edges.key)
  {
    var head := queue[0];
    var kept := [Node(head.edges.others)] + queue[1..];
    assert kept[1..] == queue[1..];
    assert EdgesOrdered(head.edges, last) ==
           (last < head.edges.key && Ordered(head.edges.child, -1) && Ordered(Node(head.edges.others), head.edges.key));
    OrderedSnoc(kept, head.edges.key, head.edges.child);
  }

  lemma {:induction false} FoundRises(queue: seq<Placed>, last: int, low: Path)
    requires InLevelOrder(queue, last) && (queue != [] ==> low == queue[|queue| - 1].path)
    ensures RisesFrom(low, Found(queue))
    decreases QueueWeight(TreesOf(queue))
  {
    if queue != [] {
      LevelOrderSteps(queue, last);
      assert TreesOf(queue)[1..] == TreesOf(queue[1..]);
      if queue[0].tree.edges.NoEdge? {
        FoundRises(queue[1..], -1, low);
      } else {
        var child := FirstChild(queue).path;
        FoundRises(AdvancePlaced(queue), queue[0].tree.edges.key, child);
        assert ([child] + Found(AdvancePlaced(queue)))[1..] == Found(AdvancePlaced(queue));
      }
    }
  }

  // ---------------------------------------------------------------- paths are walks from the root

  /** The node a path leads to. */
  function Walk(t: Tree, path: Path): Option<Tree>
    decreases |path|
  {
    if path == [] then Some(t)
    else
      var next := Follow(t.edges, path[0]);
      if next.None? then None else Walk(next.value, path[1..])
  }

  function Follow(edges: Edges, k: Label): Option<Tree> {
    match edges
    case NoEdge => None
    case Edge(key, child, others) => if key == k then Some(child) else Follow(others, k)
  }

  lemma {:induction false} WalkSnoc(t: Tree, path: Path, k: Label)
    requires Walk(t, path).Some?
    ensures Walk(t, path + [k]) == Follow(Walk(t, path).value.edges, k)
    decreases |path|
  {
    if path == [] {
      assert [k][1..] == [];
    } else {
      assert (path + [k])[1..] == path[1..] + [k];
      WalkSnoc(Follow(t.edges, path[0]).value, path[1..], k);
    }
  }

  /** The waiting node is what its path leads to; of the head only edges up to `last` are gone. */
  predicate Rooted(root: Tree, x: Placed, last: int) {
    && Walk(root, x.path).Some?
    && Agree(Walk(root, x.path).value.edges, x.tree.edges, last)
  }

  predicate Agree(all: Edges, left: Edges, last: int) {
    all == left || (all.Edge? && all.key <= last && Agree(all.others, left, last))
  }

  lemma {:induction false} AgreeFollow(all: Edges, left: Edges, last: int)
    requires Agree(all, left, last) && left.Edge? && last < left.key
    ensures Follow(all, left.key) == Some(left.child)
    ensures Agree(all, left.others, left.key)
  {
    if all != left {
      AgreeFollow(all.others, left, last);
    }
  }

  predicate AllRooted(root: Tree, queue: seq<Placed>, last: int) {
    queue != [] ==> Rooted(root, queue[0], last) && AllRooted(root, queue[1..], -1)
  }

  lemma {:induction false} AllRootedSnoc(root: Tree, queue: seq<Placed>, last: int, x: Placed)
    requires AllRooted(root, queue, last) && Rooted(root, x, -1) && queue != []
    ensures AllRooted(root, queue + [x], last)
    decreases |queue|
  {
    assert (queue + [x])[1..] == queue[1..] + [x];
    if |queue| == 1 {
      assert queue[1..] + [x] == [x] && [x][1..] == [];
    } else {
      AllRootedSnoc(root, queue[1..], -1, x);
    }
  }

  lemma {:induction false} RootedSteps(root: Tree, queue: seq<Placed>, last: int)
    requires AllRooted(root, queue, last) && queue != [] && queue[0].tree.edges.Edge?
    requires last < queue[0].tree.edges.key
    ensures AllRooted(root, AdvancePlaced(queue), queue[0].tree.edges.key)
    ensures Walk(root, FirstChild(queue).path) == Some(FirstChild(queue).tree)
  {
    var head := queue[0];
    var edges := head.tree.edges;
    AgreeFollow(Walk(root, head.path).value.edges, edges, last);
    WalkSnoc(root, head.path, edges.key);
    var kept := [Placed(Node(edges.others), head.path)] + queue[1..];
    assert kept[1..] == queue[1..];
    AllRootedSnoc(root, kept, edges.key, FirstChild(queue));
  }

  /** Every path found leads somewhere. */
  lemma {:induction false} FoundIsWalked(root: Tree, queue: seq<Placed>, last: int, path: Path)
    requires AllRooted(root, queue, last) && AllOrdered(TreesOf(queue), last) && path in Found(queue)
    ensures Walk(root, path).Some?
    decreases QueueWeight(TreesOf(queue))
  {
    assert TreesOf(queue)[1..] == TreesOf(queue[1..]);
    if queue[0].tree.edges.NoEdge? {
      FoundIsWalked(root, queue[1..], -1, path);
    } else {
      AdvanceOrdered(TreesOf(queue), last);
      RootedSteps(root, queue, last);
      if path != FirstChild(queue).path {
        FoundIsWalked(root, AdvancePlaced(queue), queue[0].tree.edges.key, path);
      }
    }
  }

  /** Every way down from a waiting node is found. */
  lemma {:induction false} WalkIsFound(queue: seq<Placed>, i: nat, path: Path)
    requires i < |queue| && path != [] && Walk(queue[i].tree, path).Some?
    ensures queue[i].path + path in Found(queue)
    decreases QueueWeight(TreesOf(queue))
  {
    assert TreesOf(queue)[1..] == TreesOf(queue[1..]);
    var head := queue[0];
    if head.tree.edges.NoEdge? {
      assert i > 0;
      WalkIsFound(queue[1..], i - 1, path);
    } else {
      var rest := AdvancePlaced(queue);
      if i > 0 {
        assert rest[i] == queue[i];
        WalkIsFound(rest, i, path);
      } else if path[0] == head.tree.edges.key {
        var child := FirstChild(queue);
        assert head.path + path == child.path + path[1..];
        if |path| > 1 {
          WalkIsFound(rest, |queue|, path[1..]);
        } else {
          assert head.path + path == child.path;
        }
      } else {
        assert Walk(Node(head.tree.edges.others), path).Some?;
        assert rest[0] == Placed(Node(head.tree.edges.others), head.path);
        WalkIsFound(rest, 0, path);
      }
    }
  }

  /** The nodes of an ordered tree are listed once each: paths rise level by level, no two are equal, and
      they are exactly the paths that lead from the root to a node. */
  lemma {:induction false} PathsAreNodes(t: Tree)
    requires Ordered(t, -1)
    ensures forall i, j :: 0 <= i < j < |NodePaths(t)| ==> NodePaths(t)[i] != NodePaths(t)[j]
    ensures forall path :: path in NodePaths(t) <==> Walk(t, path).Some?
  {
    var queue := [Placed(t, [])];
    var paths := NodePaths(t);
    assert queue[1..] == [] && TreesOf(queue) == [t] && [t][1..] == [];
    FoundRises(queue, -1, []);
    forall i, j | 0 <= i < j < |paths|
      ensures paths[i] != paths[j]
    {
      if i == 0 {
        RisesAbove([], Found(queue), j - 1);
      } else {
        RisesDistinct([], Found(queue), i - 1, j - 1);
      }
    }
    forall path
      ensures path in paths <==> Walk(t, path).Some?
    {
      if path != [] && Walk(t, path).Some? {
        WalkIsFound(queue, 0, path);
        assert queue[0].path + path == path;
      }
      if path in Found(queue) {
        FoundIsWalked(t, queue, -1, path);
      }
    }
  }

  lemma {:induction false} PathCount(queue: seq<Placed>)
    ensures |Found(queue)| == |Encode(TreesOf(queue)).labels|
    decreases QueueWeight(TreesOf(queue))
  {
    if queue != [] {
      assert TreesOf(queue)[1..] == TreesOf(queue[1..]);
      if queue[0].tree.edges.NoEdge? {
        PathCount(queue[1..]);
      } else {
        PathCount(AdvancePlaced(queue));
      }
    }
  }

  // ---------------------------------------------------------------- the check

  /** Bits of a list of 64-bit words; a position past the end reads as zero. */
  type Bits = bits: seq<bool> | |bits| % 64 == 0

  predicate BitAt(bits: seq<bool>, i: nat) {
    i < |bits| && bits[i]
  }

  function WordsFor(n: nat): nat {
    (n + 63) / 64
  }

  /** No bit from position `i` on. */
  predicate ClearFrom(bits: seq<bool>, i: nat)
    decreases |bits| - i
  {
    i < |bits| ==> !bits[i] && ClearFrom(bits, i + 1)
  }

  function Leaves(bits: seq<bool>, n: nat): nat {
    if n == 0 then 0 else Leaves(bits, n - 1) + if BitAt(bits, n - 1) then 1 else 0
  }

  /** Characters of the names that end in leaves. */
  function LeafLengths(bits: seq<bool>, depths: seq<nat>, n: nat): nat
    requires n <= |depths|
  {
    if n == 0 then 0 else LeafLengths(bits, depths, n - 1) + if BitAt(bits, n - 1) then depths[n - 1] else 0
  }

  /** The bitmap words hold the code and nothing else, and the root is no leaf. */
  predicate ShapeOk(labels: seq<Label>, leaves: Bits, bitmap: Bits) {
    var nodes := |labels| + 1;
    && labels != []
    && |leaves| == 64 * WordsFor(nodes) && |bitmap| == 64 * WordsFor(2 * |labels| + 1)
    && !leaves[0]
    && ClearFrom(leaves, nodes) && ClearFrom(bitmap, 2 * |labels| + 1)
  }

  function CodeBits(labels: seq<Label>, bitmap: Bits): seq<bool>
    requires |bitmap| == 64 * WordsFor(2 * |labels| + 1)
  {
    bitmap[..2 * |labels| + 1]
  }

  /** A well-formed matcher of any size. */
  predicate WellFormed(labels: seq<Label>, leaves: Bits, bitmap: Bits) {
    ShapeOk(labels, leaves, bitmap) && Accepts([0], -1, labels, CodeBits(labels, bitmap))
  }

  function DepthsOf(labels: seq<Label>, bitmap: Bits): seq<nat>
    requires |bitmap| == 64 * WordsFor(2 * |labels| + 1)
  {
    [0] + FoundDepths([0], CodeBits(labels, bitmap))
  }

  /** What reading the whole matcher comes to: whether it is accepted, and the depths of its nodes. */
  datatype Goal = Goal(accepted: bool, depths: seq<nat>)

  ghost function GoalOf(labels: seq<Label>, bits: seq<bool>): Goal {
    Goal(Accepts([0], -1, labels, bits), [0] + FoundDepths([0], bits))
  }

  /** The whole walk as it stands at some point: what is accepted from here on, and all depths. */
  ghost predicate Reached(goal: Goal, labels: seq<Label>, bits: seq<bool>, depths: seq<nat>, node: nat, next: nat, last: int, li: nat, bi: nat)
    requires node <= next <= |depths| && li <= |labels| && bi <= |bits|
  {
    && goal.accepted == Accepts(depths[node..next], last, labels[li..], bits[bi..])
    && goal.depths == depths[..next] + FoundDepths(depths[node..next], bits[bi..])
  }

  lemma {:induction false} ReachedStart(labels: seq<Label>, bits: seq<bool>, depths: seq<nat>)
    requires depths != [] && depths[0] == 0
    ensures Reached(GoalOf(labels, bits), labels, bits, depths, 0, 1, -1, 0, 0)
  {
    assert depths[0..1] == [0] && depths[..1] == [0] && labels[0..] == labels && bits[0..] == bits;
  }

  lemma {:induction false} ReachedEdge(goal: Goal, labels: seq<Label>, bits: seq<bool>, depths: seq<nat>, node: nat, next: nat, last: int, li: nat, bi: nat)
    requires node < next <= |depths| && li <= |labels| && bi < |bits| && !bits[bi]
    requires Reached(goal, labels, bits, depths, node, next, last, li, bi)
    ensures li == |labels| || labels[li] <= last || depths[node] + 1 > MAX_DEPTH ==> !goal.accepted
    ensures li < |labels| && last < labels[li] && depths[node] + 1 <= MAX_DEPTH && next < |depths| ==>
              Reached(goal, labels, bits, depths[next := depths[node] + 1], node, next + 1, labels[li], li + 1, bi + 1)
  {
    assert bits[bi..][1..] == bits[bi + 1..];
    assert li < |labels| ==> labels[li..][1..] == labels[li + 1..];
    if next < |depths| {
      var after := depths[next := depths[node] + 1];
      assert after[node..next + 1] == depths[node..next] + [depths[node] + 1];
      assert after[..next + 1] == depths[..next] + [depths[node] + 1];
    }
  }

  lemma {:induction false} ReachedEnd(goal: Goal, labels: seq<Label>, bits: seq<bool>, depths: seq<nat>, node: nat, next: nat, last: int, li: nat, bi: nat)
    requires node < next <= |depths| && li <= |labels| && bi < |bits| && bits[bi]
    requires Reached(goal, labels, bits, depths, node, next, last, li, bi)
    ensures Reached(goal, labels, bits, depths, node + 1, next, -1, li, bi + 1)
  {
    assert bits[bi..][1..] == bits[bi + 1..];
    assert depths[node..next][1..] == depths[node + 1..next];
  }

  /** Nothing is pending but bits are left. */
  lemma {:induction false} ReachedStuck(goal: Goal, labels: seq<Label>, bits: seq<bool>, depths: seq<nat>, node: nat, last: int, li: nat, bi: nat)
    requires node <= |depths| && li <= |labels| && bi < |bits|
    requires Reached(goal, labels, bits, depths, node, node, last, li, bi)
    ensures !goal.accepted
  {
    assert bits[bi..] != [];
  }

  /** Places a child one below its parent; tells whether that is too deep. */
  method SetDepth(depths: array<nat>, node: nat, next: nat) returns (deep: bool)
    requires node < next < depths.Length
    modifies depths
    ensures depths[..] == old(depths[..])[next := old(depths[node]) + 1]
    ensures deep == (old(depths[node]) + 1 > MAX_DEPTH)
  {
    depths[next] := depths[node] + 1;
    deep := depths[next] > MAX_DEPTH;
  }

  /** One edge to a child: within the tree, in label order and not too deep. */
  method TakeEdge(labels: seq<Label>, depths: array<nat>, node: nat, next: nat, last: int, labelIndex: nat, bitIndex: nat,
                  ghost bits: seq<bool>, ghost goal: Goal)
    returns (ok: bool)
    requires |bits| == 2 * |labels| + 1 && depths.Length == |labels| + 1
    requires node < next <= depths.Length && labelIndex <= |labels| && labelIndex + 1 == next && bitIndex == node + labelIndex
    requires bitIndex < |bits| ==> !bits[bitIndex]
    requires bitIndex <= |bits| && Reached(goal, labels, bits, depths[..], node, next, last, labelIndex, bitIndex)
    modifies depths
    ensures !ok ==> !goal.accepted
    ensures ok ==> next < depths.Length && labelIndex < |labels| && bitIndex < |bits|
    ensures ok ==> Reached(goal, labels, bits, depths[..], node, next + 1, labels[labelIndex], labelIndex + 1, bitIndex + 1)
  {
    if bitIndex >= 2 * |labels| + 1 || labelIndex >= |labels| || next >= |labels| + 1 {
      if bitIndex < |bits| {
        ReachedEdge(goal, labels, bits, depths[..], node, next, last, labelIndex, bitIndex);
      }
      return false;
    }
    ReachedEdge(goal, labels, bits, depths[..], node, next, last, labelIndex, bitIndex);
    if labels[labelIndex] <= last {
      return false;
    }
    var deep := SetDepth(depths, node, next);
    ok := !deep;
  }

  /** Reads the edges of one node up to its closing bit. `found` nodes are known before, `next` after. */
  method ReadNode(labels: seq<Label>, bitmap: Bits, depths: array<nat>, node: nat, found: nat, ghost bits: seq<bool>, ghost goal: Goal)
    returns (ok: bool, next: nat)
    requires |bits| == 2 * |labels| + 1 <= |bitmap| && depths.Length == |labels| + 1
    requires forall k :: 0 <= k < |bits| ==> bitmap[k] == bits[k]
    requires node < found <= depths.Length
    requires Reached(goal, labels, bits, depths[..], node, found, -1, found - 1, node + found - 1)
    modifies depths
    ensures !ok ==> !goal.accepted
    ensures ok ==> found <= next <= depths.Length
    ensures ok ==> Reached(goal, labels, bits, depths[..], node + 1, next, -1, next - 1, node + next)
  {
    var n := |labels|;
    var last: int := -1;
    var labelIndex, bitIndex := found - 1, node + found - 1;
    next := found;
    while !BitAt(bitmap, bitIndex)
      invariant found <= next <= n + 1 && labelIndex + 1 == next && bitIndex == node + labelIndex
      invariant Reached(goal, labels, bits, depths[..], node, next, last, labelIndex, bitIndex)
      decreases n + 1 - next
    {
      var ok := TakeEdge(labels, depths, node, next, last, labelIndex, bitIndex, bits, goal);
      if !ok {
        return false, next;
      }
      last := labels[labelIndex];
      next := next + 1;
      labelIndex := labelIndex + 1;
      bitIndex := bitIndex + 1;
    }
    ReachedEnd(goal, labels, bits, depths[..], node, next, last, labelIndex, bitIndex);
    return true, next;
  }

  /** Walks the bitmap; on success `depths` holds the depth of every node. */
  method CheckStructure(labels: seq<Label>, bitmap: Bits) returns (ok: bool, depths: array<nat>)
    requires |bitmap| == 64 * WordsFor(2 * |labels| + 1)
    ensures ok == Accepts([0], -1, labels, CodeBits(labels, bitmap))
    ensures ok ==> depths[..] == DepthsOf(labels, bitmap)
    ensures fresh(depths) && depths.Length == |labels| + 1
  {
    var nodes := |labels| + 1;
    ghost var bits := CodeBits(labels, bitmap);
    depths := new nat[nodes](_ => 0);
    ReachedStart(labels, bits, depths[..]);
    ghost var goal := GoalOf(labels, bits);
    var next := 1;
    var node := 0;
    while node < nodes
      invariant 0 <= node <= nodes && node <= next <= nodes && next > 0
      invariant Reached(goal, labels, bits, depths[..], node, next, -1, next - 1, node + next - 1)
    {
      if node >= next {
        ReachedStuck(goal, labels, bits, depths[..], node, -1, next - 1, node + next - 1);
        return false, depths;
      }
      ok, next := ReadNode(labels, bitmap, depths, node, next, bits, goal);
      if !ok {
        return false, depths;
      }
      node := node + 1;
    }
    assert depths[..][..nodes] == depths[..];
    ok := next == nodes;
  }

  lemma {:induction false} LeavesGrow(bits: seq<bool>, depths: seq<nat>, m: nat, n: nat)
    requires m <= n <= |depths|
    ensures Leaves(bits, m) <= Leaves(bits, n) && LeafLengths(bits, depths, m) <= LeafLengths(bits, depths, n)
    decreases n - m
  {
    if m < n {
      LeavesGrow(bits, depths, m, n - 1);
    }
  }

  /** Counters shared by the matchers of one rule set. */
  class Preflight {
    var values: nat
    var recoveredBytes: nat

    constructor ()
      ensures values == 0 && recoveredBytes == 0
    {
      values, recoveredBytes := 0, 0;
    }

    predicate Valid()
      reads this
    {
      values <= MAX_VALUES && recoveredBytes <= MAX_RECOVERED
    }

    /** Accepts a matcher exactly when it is the code of a tree, padded with zeros, whose names fit the
        budgets; the budgets are charged one name for every leaf and its true length. */
    method Matcher(labels: seq<Label>, leaves: Bits, bitmap: Bits) returns (ok: bool)
      requires Valid()
      modifies this
      ensures ok ==> Valid()
      ensures ok <==>
              && WellFormed(labels, leaves, bitmap)
              && old(values) + Leaves(leaves, |labels| + 1) <= MAX_VALUES
              && |DepthsOf(labels, bitmap)| == |labels| + 1
              && old(recoveredBytes) + LeafLengths(leaves, DepthsOf(labels, bitmap), |labels| + 1) <= MAX_RECOVERED
      ensures ok ==> values == old(values) + Leaves(leaves, |labels| + 1)
      ensures ok ==> recoveredBytes == old(recoveredBytes) + LeafLengths(leaves, DepthsOf(labels, bitmap), |labels| + 1)
    {
      var n := |labels|;
      if n == 0 {
        return false;
      }
      var nodes := n + 1;
      if |leaves| != 64 * WordsFor(nodes) || |bitmap| != 64 * WordsFor(2 * n + 1) || BitAt(leaves, 0) {
        return false;
      }
      var structured, depths := CheckStructure(labels, bitmap);
      if !structured {
        return false;
      }
      ghost var lengths := depths[..];
      var i := 0;
      while i < nodes
        invariant 0 <= i <= nodes && depths[..] == lengths
        invariant values == old(values) + Leaves(leaves, i)
        invariant recoveredBytes == old(recoveredBytes) + LeafLengths(leaves, lengths, i)
        invariant Valid()
      {
        if BitAt(leaves, i) {
          values := values + 1;
          recoveredBytes := recoveredBytes + depths[i];
          if values > MAX_VALUES || recoveredBytes > MAX_RECOVERED {
            LeavesGrow(leaves, lengths, i + 1, nodes);
            return false;
          }
        }
        i := i + 1;
      }
      while i < |leaves|
        invariant nodes <= i <= |leaves| && ClearFrom(leaves, nodes) == ClearFrom(leaves, i)
      {
        if leaves[i] {
          return false;
        }
        i := i + 1;
      }
      i := 2 * n + 1;
      while i < |bitmap|
        invariant 2 * n + 1 <= i <= |bitmap| && ClearFrom(bitmap, 2 * n + 1) == ClearFrom(bitmap, i)
      {
        if bitmap[i] {
          return false;
        }
        i := i + 1;
      }
      return true;
    }
  }

  // ---------------------------------------------------------------- what acceptance means

  /** A well-formed matcher is the code of one tree only: a rooted tree of all its nodes, whose paths are
      distinct and no longer than the limit, whose depths are those the check computed, and whose own code
      is again what was read. */
  lemma {:induction false} AcceptedIsOneTree(labels: seq<Label>, leaves: Bits, bitmap: Bits) returns (t: Tree)
    requires WellFormed(labels, leaves, bitmap)
    ensures IsTreeOf(t, labels, CodeBits(labels, bitmap))
    ensures forall u :: IsTreeOf(u, labels, CodeBits(labels, bitmap)) ==> u == t
    ensures NodeCount(t) == |labels| + 1 == |NodePaths(t)|
    ensures DepthsOf(labels, bitmap) == Lengths(NodePaths(t))
    ensures forall i, j :: 0 <= i < j < |NodePaths(t)| ==> NodePaths(t)[i] != NodePaths(t)[j]
    ensures forall path :: path in NodePaths(t) <==> Walk(t, path).Some?
  {
    var bits := CodeBits(labels, bitmap);
    AcceptedExactlyTrees(labels, bits);
    t :| IsTreeOf(t, labels, bits);
    PathsAreNodes(t);
    var queue := [Placed(t, [])];
    assert queue[1..] == [] && TreesOf(queue) == [t] && PlacedDepths(queue) == [0];
    DepthsAreLengths(queue);
    PathCount(queue);
    assert NodePaths(t)[1..] == Found(queue);
    CodeSize([t]);
    assert [t][1..] == [] && QueueCount([t]) == NodeCount(t);
  }
}
