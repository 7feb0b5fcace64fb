/** Breadth-first order over the nodes reached from a root. */
module BreadthFirst {
  import opened Options

  /** The children of all nodes, in order. */
  function Expanded<N>(step: N -> seq<N>, nodes: seq<N>): seq<N> {
    if nodes == [] then [] else Expanded(step, nodes[..|nodes| - 1]) + step(nodes[|nodes| - 1])
  }

  /** The nodes at a distance from the root, in breadth-first order. */
  function Level<N>(step: N -> seq<N>, root: N, n: nat): seq<N> {
    if n == 0 then [root] else Expanded(step, Level(step, root, n - 1))
  }

  /** The node reached by a list of turns: which child to take at each step. */
  function Follow<N>(step: N -> seq<N>, root: N, turns: seq<nat>): Option<N> {
    if turns == [] then Some(root)
    else
      match Follow(step, root, turns[..|turns| - 1])
      case None => None
      case Some(node) =>
        var turn := turns[|turns| - 1];
        if turn < |step(node)| then Some(step(node)[turn]) else None
  }

  /** Some node that can be reached is wanted. */
  ghost predicate IsReachable<N>(step: N -> seq<N>, wanted: N -> bool, root: N) {
    exists turns :: Follow(step, root, turns).Some? && wanted(Follow(step, root, turns).value)
  }

  ghost predicate NoneWanted<N>(wanted: N -> bool, nodes: seq<N>) {
    forall k | 0 <= k < |nodes| :: !wanted(nodes[k])
  }

  ghost predicate NoneAbove<N>(step: N -> seq<N>, wanted: N -> bool, root: N, n: nat) {
    forall m: nat | m < n :: NoneWanted(wanted, Level(step, root, m))
  }

  /** The i-th node of level n is wanted, and none before it is. */
  ghost predicate IsFirst<N>(step: N -> seq<N>, wanted: N -> bool, root: N, n: nat, i: nat) {
    var level := Level(step, root, n);
    i < |level| && wanted(level[i]) && NoneAbove(step, wanted, root, n) && NoneWanted(wanted, level[..i])
  }

  lemma {:induction false} ExpandedHas<N>(step: N -> seq<N>, nodes: seq<N>, child: N)
    ensures child in Expanded(step, nodes) <==> exists node | node in nodes :: child in step(node)
    decreases |nodes|
  {
    if nodes != [] {
      var init, last := nodes[..|nodes| - 1], nodes[|nodes| - 1];
      assert nodes == init + [last];
      ExpandedHas(step, init, child);
    }
  }

  /** Every node that can be reached is on its level, */
  lemma {:induction false} TurnsLeadToLevel<N>(step: N -> seq<N>, root: N, turns: seq<nat>)
    requires Follow(step, root, turns).Some?
    ensures Follow(step, root, turns).value in Level(step, root, |turns|)
    decreases |turns|
  {
    if turns != [] {
      var init := turns[..|turns| - 1];
      TurnsLeadToLevel(step, root, init);
      ExpandedHas(step, Level(step, root, |init|), Follow(step, root, turns).value);
    }
  }

  /** and every node on a level can be reached. */
  lemma {:induction false} LevelIsReachable<N>(step: N -> seq<N>, root: N, n: nat, node: N) returns (turns: seq<nat>)
    requires node in Level(step, root, n)
    ensures |turns| == n && Follow(step, root, turns) == Some(node)
    decreases n
  {
    if n == 0 {
      return [];
    }
    ExpandedHas(step, Level(step, root, n - 1), node);
    var parent :| parent in Level(step, root, n - 1) && node in step(parent);
    var before := LevelIsReachable(step, root, n - 1, parent);
    var turn: nat :| turn < |step(parent)| && step(parent)[turn] == node;
    turns := before + [turn];
    assert turns[..|turns| - 1] == before;
  }

  lemma {:induction false} FirstIsReachable<N>(step: N -> seq<N>, wanted: N -> bool, root: N, n: nat, i: nat)
    requires IsFirst(step, wanted, root, n, i)
    ensures IsReachable(step, wanted, root)
  {
    var turns := LevelIsReachable(step, root, n, Level(step, root, n)[i]);
  }

  /** There is only one first node. */
  lemma {:induction false} FirstIsUnique<N>(step: N -> seq<N>, wanted: N -> bool, root: N, n: nat, i: nat, n': nat, i': nat)
    requires IsFirst(step, wanted, root, n, i) && IsFirst(step, wanted, root, n', i')
    ensures n == n' && i == i'
  {
    InFront(wanted, Level(step, root, n), i);
    InFront(wanted, Level(step, root, n'), i');
  }

  lemma {:induction false} InFront<N>(wanted: N -> bool, nodes: seq<N>, i: nat)
    requires i <= |nodes| && NoneWanted(wanted, nodes[..i])
    ensures forall k | 0 <= k < i :: !wanted(nodes[k])
  {
    forall k | 0 <= k < i ensures !wanted(nodes[k]) {
      assert nodes[..i][k] == nodes[k];
    }
  }

  // ----- breadth-first order, told by turns alone -----

  /** Fewer turns come first; of as many, those that take an earlier child where they part. */
  ghost predicate ComesBefore(turns: seq<nat>, others: seq<nat>) {
    || |turns| < |others|
    || (|turns| == |others|
        && exists k | 0 <= k < |turns| :: turns[..k] == others[..k] && turns[k] < others[k])
  }

  /** The place of a node on its level. */
  function Place<N>(step: N -> seq<N>, root: N, turns: seq<nat>): nat {
    if turns == [] then 0
    else
      var init, n := turns[..|turns| - 1], |turns| - 1;
      var before := Place(step, root, init);
      turns[n] + if before <= |Level(step, root, n)| then |Expanded(step, Level(step, root, n)[..before])| else 0
  }

  lemma {:induction false} ExpandedInTwo<N>(step: N -> seq<N>, a: seq<N>, b: seq<N>)
    ensures Expanded(step, a + b) == Expanded(step, a) + Expanded(step, b)
    decreases |b|
  {
    if b == [] {
      assert a + b == a;
    } else {
      assert (a + b)[..|a + b| - 1] == a + b[..|b| - 1];
      ExpandedInTwo(step, a, b[..|b| - 1]);
    }
  }

  /** Where the children of the j-th node stand. */
  lemma {:induction false} ChildrenStand<N>(step: N -> seq<N>, nodes: seq<N>, j: nat)
    requires j < |nodes|
    ensures Expanded(step, nodes[..j + 1]) == Expanded(step, nodes[..j]) + step(nodes[j])
    ensures Expanded(step, nodes[..j + 1]) <= Expanded(step, nodes)
  {
    assert nodes[..j + 1][..j] == nodes[..j];
    assert nodes == nodes[..j + 1] + nodes[j + 1..];
    ExpandedInTwo(step, nodes[..j + 1], nodes[j + 1..]);
  }

  lemma {:induction false} PlaceIsThere<N>(step: N -> seq<N>, root: N, turns: seq<nat>)
    requires Follow(step, root, turns).Some?
    ensures
      var level := Level(step, root, |turns|);
      Place(step, root, turns) < |level| && level[Place(step, root, turns)] == Follow(step, root, turns).value
    decreases |turns|
  {
    if turns != [] {
      var init := turns[..|turns| - 1];
      PlaceIsThere(step, root, init);
      NextPlaceIsThere(step, root, turns, init, turns[|init|], Level(step, root, |init|), Place(step, root, init));
    }
  }

  lemma {:induction false} NextPlaceIsThere<N>(step: N -> seq<N>, root: N, turns: seq<nat>, init: seq<nat>, turn: nat, level: seq<N>, j: nat)
    requires turns == init + [turn] && Follow(step, root, turns).Some?
    requires level == Level(step, root, |init|) && j == Place(step, root, init) < |level|
    requires Follow(step, root, init) == Some(level[j])
    ensures
      var next := Level(step, root, |turns|);
      Place(step, root, turns) < |next| && next[Place(step, root, turns)] == Follow(step, root, turns).value
  {
    assert turns[..|turns| - 1] == init;
    ChildIsThere(step, level, j, turn);
    assert Level(step, root, |turns|) == Expanded(step, level);
  }

  lemma {:induction false} ChildIsThere<N>(step: N -> seq<N>, nodes: seq<N>, j: nat, turn: nat)
    requires j < |nodes| && turn < |step(nodes[j])|
    ensures
      var place := turn + |Expanded(step, nodes[..j])|;
      place < |Expanded(step, nodes)| && Expanded(step, nodes)[place] == step(nodes[j])[turn]
  {
    ChildrenStand(step, nodes, j);
  }

  /** Nodes stand on their level in this order. */
  lemma {:induction false} PlacesAreOrdered<N>(step: N -> seq<N>, root: N, turns: seq<nat>, others: seq<nat>, k: nat)
    requires Follow(step, root, turns).Some? && Follow(step, root, others).Some?
    requires |turns| == |others| && k < |turns| && turns[..k] == others[..k] && turns[k] < others[k]
    ensures Place(step, root, turns) < Place(step, root, others)
    decreases |turns|
  {
    var n := |turns| - 1;
    var a, b := turns[..n], others[..n];
    PlaceIsThere(step, root, a);
    PlaceIsThere(step, root, b);
    if k == n {
      assert a == b;
    } else {
      assert a[..k] == turns[..k] && b[..k] == others[..k];
      PlacesAreOrdered(step, root, a, b, k);
      var level := Level(step, root, n);
      var i, j := Place(step, root, a), Place(step, root, b);
      ChildrenStand(step, level, i);
      ExpandedGrows(step, level, i + 1, j);
    }
  }

  lemma {:induction false} ExpandedGrows<N>(step: N -> seq<N>, nodes: seq<N>, i: nat, j: nat)
    requires i <= j <= |nodes|
    ensures |Expanded(step, nodes[..i])| <= |Expanded(step, nodes[..j])|
  {
    assert nodes[..j] == nodes[..i] + nodes[i..j];
    ExpandedInTwo(step, nodes[..i], nodes[i..j]);
  }

  /** Different turns of the same number part somewhere. */
  lemma {:induction false} TurnsPart(turns: seq<nat>, others: seq<nat>) returns (k: nat)
    requires |turns| == |others| && turns != others
    ensures k < |turns| && turns[..k] == others[..k] && turns[k] != others[k]
    decreases |turns|
  {
    var n := |turns| - 1;
    if turns[..n] == others[..n] {
      k := n;
      assert turns == turns[..n] + [turns[n]] && others == others[..n] + [others[n]];
    } else {
      k := TurnsPart(turns[..n], others[..n]);
      assert turns[..n][..k] == turns[..k] && others[..n][..k] == others[..k];
    }
  }

  /** The first wanted node is reached by turns that come before all others that reach one. */
  lemma {:induction false} FirstComesFirst<N>(step: N -> seq<N>, wanted: N -> bool, root: N, n: nat, i: nat) returns (turns: seq<nat>)
    requires IsFirst(step, wanted, root, n, i)
    ensures |turns| == n && Follow(step, root, turns) == Some(Level(step, root, n)[i])
    ensures forall others :: Follow(step, root, others).Some? && wanted(Follow(step, root, others).value) ==>
      others == turns || ComesBefore(turns, others)
  {
    turns := TurnsTo(step, root, n, i);
    forall others | Follow(step, root, others).Some? && wanted(Follow(step, root, others).value) && others != turns
      ensures ComesBefore(turns, others)
    {
      OthersComeLater(step, wanted, root, n, i, turns, others);
    }
  }

  lemma {:induction false} OthersComeLater<N>(step: N -> seq<N>, wanted: N -> bool, root: N, n: nat, i: nat, turns: seq<nat>, others: seq<nat>)
    requires IsFirst(step, wanted, root, n, i) && |turns| == n && Place(step, root, turns) == i && others != turns
    requires Follow(step, root, turns).Some?
    requires Follow(step, root, others).Some? && wanted(Follow(step, root, others).value)
    ensures ComesBefore(turns, others)
  {
    PlaceIsThere(step, root, others);
    NoneIsAbove(step, wanted, root, n, others);
    if |others| == n {
      InFront(wanted, Level(step, root, n), i);
      var k := TurnsPart(turns, others);
      if others[k] < turns[k] {
        PlacesAreOrdered(step, root, others, turns, k);
      }
    }
  }

  lemma {:induction false} NoneIsAbove<N>(step: N -> seq<N>, wanted: N -> bool, root: N, n: nat, turns: seq<nat>)
    requires NoneAbove(step, wanted, root, n) && Follow(step, root, turns).Some?
    ensures |turns| < n ==> !wanted(Follow(step, root, turns).value)
  {
    PlaceIsThere(step, root, turns);
    if |turns| < n {
      assert NoneWanted(wanted, Level(step, root, |turns|));
    }
  }

  lemma {:induction false} TurnsTo<N>(step: N -> seq<N>, root: N, n: nat, i: nat) returns (turns: seq<nat>)
    requires i < |Level(step, root, n)|
    ensures |turns| == n && Place(step, root, turns) == i && Follow(step, root, turns) == Some(Level(step, root, n)[i])
    decreases n
  {
    if n == 0 {
      return [];
    }
    var level := Level(step, root, n - 1);
    var j, turn := ParentOf(step, level, i);
    var before := TurnsTo(step, root, n - 1, j);
    turns := before + [turn];
    assert turns[..n - 1] == before;
  }

  lemma {:induction false} ParentOf<N>(step: N -> seq<N>, nodes: seq<N>, i: nat) returns (j: nat, turn: nat)
    requires i < |Expanded(step, nodes)|
    ensures j < |nodes| && turn < |step(nodes[j])| && step(nodes[j])[turn] == Expanded(step, nodes)[i]
    ensures i == |Expanded(step, nodes[..j])| + turn
    decreases |nodes|
  {
    var init := nodes[..|nodes| - 1];
    if i < |Expanded(step, init)| {
      j, turn := ParentOf(step, init, i);
      assert init[..j] == nodes[..j];
    } else {
      j, turn := |init|, i - |Expanded(step, init)|;
    }
  }

  // ----- an only child -----

  lemma {:induction false} LevelsOfOnlyChild<N>(step: N -> seq<N>, root: N, child: N, n: nat)
    requires step(root) == [child]
    ensures Level(step, root, n + 1) == Level(step, child, n)
    decreases n
  {
    if n == 0 {
      assert [root][..0] == [];
      assert Expanded(step, [root]) == Expanded(step, [root][..0]) + step(root);
    } else {
      LevelsOfOnlyChild(step, root, child, n - 1);
    }
  }

  /** Below a root that is not wanted and has one child, the search is the child's own. */
  lemma {:induction false} FirstBelowOnlyChild<N>(step: N -> seq<N>, wanted: N -> bool, root: N, child: N, n: nat, i: nat)
    requires step(root) == [child] && !wanted(root)
    ensures IsFirst(step, wanted, root, n + 1, i) <==> IsFirst(step, wanted, child, n, i)
  {
    LevelsOfOnlyChild(step, root, child, n);
    forall m: nat | m < n
      ensures Level(step, root, m + 1) == Level(step, child, m)
    {
      LevelsOfOnlyChild(step, root, child, m);
    }
    if NoneAbove(step, wanted, root, n + 1) {
      forall m: nat | m < n ensures NoneWanted(wanted, Level(step, child, m)) {
        assert NoneWanted(wanted, Level(step, root, m + 1));
      }
    }
    if NoneAbove(step, wanted, child, n) {
      forall m: nat | m < n + 1 ensures NoneWanted(wanted, Level(step, root, m)) {
        if m > 0 {
          assert NoneWanted(wanted, Level(step, child, m - 1));
        }
      }
    }
  }

  // ----- the queue of a search -----

  /** The queue holds the rest of a level, then the children of what was taken from it; nothing
      wanted has been passed over. */
  ghost predicate IsQueue<N>(step: N -> seq<N>, wanted: N -> bool, root: N, n: nat, i: nat, queue: seq<N>) {
    var level := Level(step, root, n);
    && i <= |level| && queue == level[i..] + Expanded(step, level[..i])
    && NoneAbove(step, wanted, root, n) && NoneWanted(wanted, level[..i])
  }

  lemma {:induction false} FirstQueue<N>(step: N -> seq<N>, wanted: N -> bool, root: N)
    ensures IsQueue(step, wanted, root, 0, 0, [root])
  {
  }

  /** The head of the queue is the next node in breadth-first order. */
  lemma {:induction false} QueueHead<N>(step: N -> seq<N>, wanted: N -> bool, root: N, n: nat, i: nat, queue: seq<N>)
    returns (m: nat, j: nat)
    requires IsQueue(step, wanted, root, n, i, queue) && queue != []
    ensures j < |Level(step, root, m)| && queue[0] == Level(step, root, m)[j]
    ensures IsQueue(step, wanted, root, m, j, queue)
    ensures wanted(queue[0]) ==> IsFirst(step, wanted, root, m, j)
    ensures !wanted(queue[0]) ==> IsQueue(step, wanted, root, m, j + 1, queue[1..] + step(queue[0]))
  {
    m, j := n, i;
    if i == |Level(step, root, n)| {
      NextLevel(step, wanted, root, n, queue);
      m, j := n + 1, 0;
    }
    if !wanted(queue[0]) {
      Advance(step, wanted, Level(step, root, m), j, queue);
    }
  }

  lemma {:induction false} NextLevel<N>(step: N -> seq<N>, wanted: N -> bool, root: N, n: nat, queue: seq<N>)
    requires
      var level := Level(step, root, n);
      queue == level[|level|..] + Expanded(step, level[..|level|])
      && NoneWanted(wanted, level[..|level|]) && NoneAbove(step, wanted, root, n)
    ensures queue == Level(step, root, n + 1) && queue == queue[0..] + Expanded(step, queue[..0])
    ensures NoneAbove(step, wanted, root, n + 1) && NoneWanted(wanted, queue[..0])
  {
    var level := Level(step, root, n);
    assert level[..|level|] == level;
  }

  lemma {:induction false} Advance<N>(step: N -> seq<N>, wanted: N -> bool, level: seq<N>, i: nat, queue: seq<N>)
    requires i < |level| && queue == level[i..] + Expanded(step, level[..i])
    requires NoneWanted(wanted, level[..i]) && !wanted(level[i])
    ensures queue[1..] + step(level[i]) == level[i + 1..] + Expanded(step, level[..i + 1])
    ensures NoneWanted(wanted, level[..i + 1])
  {
    assert level[..i + 1][..i] == level[..i];
    assert level[..i + 1] == level[..i] + [level[i]];
  }

  lemma {:induction false} EmptyStaysEmpty<N>(step: N -> seq<N>, root: N, n: nat, m: nat)
    requires Level(step, root, n) == [] && n <= m
    ensures Level(step, root, m) == []
    decreases m
  {
    if m > n {
      EmptyStaysEmpty(step, root, n, m - 1);
    }
  }

  /** When the queue is empty, every node that can be reached has been looked at. */
  lemma {:induction false} NothingLeft<N>(step: N -> seq<N>, wanted: N -> bool, root: N, n: nat, i: nat)
    requires i <= |Level(step, root, n)|
    requires
      var level := Level(step, root, n);
      level[i..] + Expanded(step, level[..i]) == []
      && NoneAbove(step, wanted, root, n) && NoneWanted(wanted, level[..i])
    ensures !IsReachable(step, wanted, root)
  {
    var level := Level(step, root, n);
    assert |level[i..] + Expanded(step, level[..i])| == 0;
    assert level[..i] == level;
    assert Level(step, root, n + 1) == [];
    forall turns | Follow(step, root, turns).Some?
      ensures !wanted(Follow(step, root, turns).value)
    {
      TurnsLeadToLevel(step, root, turns);
      if |turns| > n {
        EmptyStaysEmpty(step, root, n + 1, |turns|);
      } else if |turns| < n {
        assert NoneWanted(wanted, Level(step, root, |turns|));
      }
    }
  }
}
