/** The linearizations that c3.py's own `test()` checks (c3.py:30-50), plus a graph on
    which this merge ignores declared base order. */
module C3Examples {
  import opened Wrappers
  import opened C3

  /** Ranks for the example graphs: leaves at 0, each node above its bases. */
  function Levels(): map<nat, nat> { map[1 := 0, 2 := 0, 3 := 0, 4 := 1, 5 := 1, 6 := 1, 7 := 2] }

  function Levels1(): map<nat, nat> { map[1 := 0, 2 := 0, 3 := 1] }

  function Levels5(): map<nat, nat> { map[1 := 0, 2 := 1, 3 := 2] }

  /** Drop `c` from the front of `l` if it is there (one list's share of `Remove`). */
  function Drop(l: seq<Slot>, c: Slot): seq<Slot>
  {
    if l != [] && l[0] == c then l[1..] else l
  }

  /** One merge round on three lists, spelled out. */
  lemma {:induction false} Round3(l0: seq<Slot>, l1: seq<Slot>, l2: seq<Slot>, c: Slot)
    ensures InTails([l0, l1, l2], c) <==> c in Tail(l0) || c in Tail(l1) || c in Tail(l2)
    ensures Remove([l0, l1, l2], c) == [Drop(l0, c), Drop(l1, c), Drop(l2, c)]
    ensures NoneEmpty([l0, l1, l2]) <==> l0 != [] && l1 != [] && l2 != []
  {
    var m := [l0, l1, l2];
    assert m[1..] == [l1, l2] && m[1..][1..] == [l2] && m[1..][1..][1..] == [];
    assert m[0] == l0 && m[1..][0] == l1 && m[1..][1..][0] == l2;
    assert InTails([l2], c) <==> c in Tail(l2);
    assert InTails([l1, l2], c) <==> c in Tail(l1) || InTails([l2], c);
    assert Remove([l2], c) == [Drop(l2, c)];
    assert Remove([l1, l2], c) == [Drop(l1, c)] + [Drop(l2, c)];
    assert NoneEmpty([l2]) <==> l2 != [];
    assert NoneEmpty([l1, l2]) <==> l1 != [] && NoneEmpty([l2]);
  }

  lemma {:induction false} Pick3(l0: seq<Slot>, l1: seq<Slot>, l2: seq<Slot>)
    requires l0 != [] && l1 != [] && l2 != []
    ensures Pick([l0, l1, l2], 0) ==
      (if !InTails([l0, l1, l2], l0[0]) then Some(l0[0])
       else if !InTails([l0, l1, l2], l1[0]) then Some(l1[0])
       else if !InTails([l0, l1, l2], l2[0]) then Some(l2[0])
       else None)
  {
    var m := [l0, l1, l2];
    assert m[0] == l0 && m[1] == l1 && m[2] == l2;
    assert Pick(m, 3) == None;
    assert Pick(m, 2) == if !InTails(m, l2[0]) then Some(l2[0]) else None;
    assert Pick(m, 1) == if !InTails(m, l1[0]) then Some(l1[0]) else Pick(m, 2);
  }

  lemma {:induction false} Round2(l0: seq<Slot>, l1: seq<Slot>, c: Slot)
    ensures InTails([l0, l1], c) <==> c in Tail(l0) || c in Tail(l1)
    ensures Remove([l0, l1], c) == [Drop(l0, c), Drop(l1, c)]
    ensures NoneEmpty([l0, l1]) <==> l0 != [] && l1 != []
  {
    var m := [l0, l1];
    assert m[1..] == [l1] && m[1..][1..] == [];
    assert m[0] == l0 && m[1..][0] == l1;
    assert InTails([l1], c) <==> c in Tail(l1);
    assert Remove([l1], c) == [Drop(l1, c)];
    assert NoneEmpty([l1]) <==> l1 != [];
  }

  lemma {:induction false} Pick2(l0: seq<Slot>, l1: seq<Slot>)
    requires l0 != [] && l1 != []
    ensures Pick([l0, l1], 0) ==
      (if !InTails([l0, l1], l0[0]) then Some(l0[0])
       else if !InTails([l0, l1], l1[0]) then Some(l1[0])
       else None)
  {
    var m := [l0, l1];
    assert m[0] == l0 && m[1] == l1;
    assert Pick(m, 2) == None;
  }

  lemma {:induction false} LeafPairTraceRound0(n1: nat, n2: nat)
    requires n1 != n2
    ensures NoneEmpty([[Node(n1), End], [Node(n2), End]]) && Pick([[Node(n1), End], [Node(n2), End]], 0) == Some(Node(n1)) && Remove([[Node(n1), End], [Node(n2), End]], Node(n1)) == [[End], [Node(n2), End]]
  {
    Round2([Node(n1), End], [Node(n2), End], Node(n1));
    Round2([Node(n1), End], [Node(n2), End], Node(n2));
    Pick2([Node(n1), End], [Node(n2), End]);
  }

  lemma {:induction false} LeafPairTraceRound1(n1: nat, n2: nat)
    requires n1 != n2
    ensures NoneEmpty([[End], [Node(n2), End]]) && Pick([[End], [Node(n2), End]], 0) == Some(Node(n2)) && Remove([[End], [Node(n2), End]], Node(n2)) == [[End], [End]]
  {
    Round2([End], [Node(n2), End], Node(n2));
    Round2([End], [Node(n2), End], End);
    Pick2([End], [Node(n2), End]);
  }

  lemma {:induction false} LeafPairTraceRound2(n1: nat, n2: nat)
    requires n1 != n2
    ensures NoneEmpty([[End], [End]]) && Pick([[End], [End]], 0) == Some(End) && Remove([[End], [End]], End) == [[], []]
  {
    Round2([End], [End], End);
    Pick2([End], [End]);
  }

  lemma {:induction false} LeafPairTraceFrom3(n1: nat, n2: nat)
    requires n1 != n2
    ensures MergesTo([[], []], [])
  {

  }

  lemma {:induction false} LeafPairTraceFrom2(n1: nat, n2: nat)
    requires n1 != n2
    ensures MergesTo([[End], [End]], [End])
  {
    LeafPairTraceRound2(n1, n2);
    LeafPairTraceFrom3(n1, n2);
    MergesToStep([[End], [End]], End, [], [[], []]);
    assert [End] + [] == [End];
  }

  lemma {:induction false} LeafPairTraceFrom1(n1: nat, n2: nat)
    requires n1 != n2
    ensures MergesTo([[End], [Node(n2), End]], [Node(n2), End])
  {
    LeafPairTraceRound1(n1, n2);
    LeafPairTraceFrom2(n1, n2);
    MergesToStep([[End], [Node(n2), End]], Node(n2), [End], [[End], [End]]);
    assert [Node(n2)] + [End] == [Node(n2), End];
  }

  lemma {:induction false} LeafPairTrace(n1: nat, n2: nat)
    requires n1 != n2
    ensures MergesTo([[Node(n1), End], [Node(n2), End]], [Node(n1), Node(n2), End])
  {
    LeafPairTraceRound0(n1, n2);
    LeafPairTraceFrom1(n1, n2);
    MergesToStep([[Node(n1), End], [Node(n2), End]], Node(n1), [Node(n2), End], [[End], [Node(n2), End]]);
    assert [Node(n1)] + [Node(n2), End] == [Node(n1), Node(n2), End];
  }

  lemma {:induction false} TwoLeaves(a: nat, b: nat)
    requires a != b
    ensures Merge([[Node(a), End], [Node(b), End]]) == Ok([Node(a), Node(b), End])
  {
    var m := [[Node(a), End], [Node(b), End]];
    assert Sentinelled(m[0]) && Sentinelled(m[1]);
    assert AllSentinelled(m);
    LeafPairTrace(a, b);
    MergesToMerge(m, [Node(a), Node(b), End]);
  }

  /** A node with two leaf bases gets itself followed by the bases in order. */
  lemma {:induction false} OverTwoLeavesLin(g: Graph, rank: map<nat, nat>, x: nat, a: nat, b: nat)
    requires Ranked(g, rank) && a != b && Bases(g, x) == [a, b] && Bases(g, a) == [] && Bases(g, b) == []
    ensures Lin(g, rank, x) == Ok([Node(x), Node(a), Node(b), End])
  {
    BaseLinsOf(g, rank, x, [[Node(a), End], [Node(b), End]]);
    TwoLeaves(a, b);
    assert [Node(x)] + [Node(a), Node(b), End] == [Node(x), Node(a), Node(b), End];
  }

  lemma {:induction false} OverTwoLeaves(g: Graph, rank: map<nat, nat>, x: nat, a: nat, b: nat)
    requires Ranked(g, rank) && a != b && Bases(g, x) == [a, b] && Bases(g, a) == [] && Bases(g, b) == []
    ensures Lin(g, rank, x) == Ok([Node(x), Node(a), Node(b), End])
    ensures Linearize(g, rank, x) == Ok([x, a, b])
  {
    OverTwoLeavesLin(g, rank, x, a, b);
    assert Wrap([x, a, b]) == [Node(x), Node(a), Node(b), End];
    LinearizeFromLin(g, rank, x, [x, a, b]);
  }

  function G1(): Graph { map[1 := [], 2 := [], 3 := [1, 2]] }

  /** c3.py:32-34. */
  lemma {:induction false} TestG1()
    ensures Ranked(G1(), Levels1())
    ensures Linearize(G1(), Levels1(), 1) == Ok([1])
    ensures Linearize(G1(), Levels1(), 2) == Ok([2])
    ensures Linearize(G1(), Levels1(), 3) == Ok([3, 1, 2])
  {
    OverTwoLeaves(G1(), Levels1(), 3, 1, 2);
  }

  function G2(): Graph { map[1 := [], 2 := [], 3 := [], 4 := [1, 2], 5 := [2, 3], 6 := [3, 1]] }

  lemma {:induction false} G2Shape()
    ensures Ranked(G2(), Levels())
    ensures Bases(G2(), 1) == [] && Bases(G2(), 2) == [] && Bases(G2(), 3) == []
    ensures Bases(G2(), 4) == [1, 2] && Bases(G2(), 5) == [2, 3] && Bases(G2(), 6) == [3, 1]
  {
  }

  /** c3.py:36-39. */
  lemma {:induction false} TestG2()
    ensures Ranked(G2(), Levels())
    ensures Linearize(G2(), Levels(), 1) == Ok([1])
    ensures Linearize(G2(), Levels(), 4) == Ok([4, 1, 2])
    ensures Linearize(G2(), Levels(), 5) == Ok([5, 2, 3])
    ensures Linearize(G2(), Levels(), 6) == Ok([6, 3, 1])
  {
    G2Shape();
    OverTwoLeaves(G2(), Levels(), 4, 1, 2);
    OverTwoLeaves(G2(), Levels(), 5, 2, 3);
    OverTwoLeaves(G2(), Levels(), 6, 3, 1);
  }

  function G3(): Graph { map[1 := [], 2 := [], 3 := [], 4 := [1, 2], 5 := [2, 3], 6 := [3, 1], 7 := [4, 5, 6]] }

  lemma {:induction false} G3Shape()
    ensures Ranked(G3(), Levels())
    ensures Bases(G3(), 1) == [] && Bases(G3(), 2) == [] && Bases(G3(), 3) == []
    ensures Bases(G3(), 4) == [1, 2] && Bases(G3(), 5) == [2, 3] && Bases(G3(), 6) == [3, 1]
    ensures Bases(G3(), 7) == [4, 5, 6]
  {
  }

  lemma {:induction false} ThreeBaseLins(g: Graph, rank: map<nat, nat>, n1: nat, n2: nat, n3: nat, n4: nat, n5: nat, n6: nat, n7: nat)
    requires Ranked(g, rank) && n1 < n2 < n3 < n4 < n5 < n6
    requires Bases(g, n1) == [] && Bases(g, n2) == [] && Bases(g, n3) == []
    requires Bases(g, n4) == [n1, n2] && Bases(g, n5) == [n2, n3] && Bases(g, n6) == [n3, n1]
    requires Bases(g, n7) == [n4, n5, n6]
    ensures BaseLins(g, rank, n7) == Ok([[Node(n4), Node(n1), Node(n2), End], [Node(n5), Node(n2), Node(n3), End], [Node(n6), Node(n3), Node(n1), End]])
  {
    OverTwoLeaves(g, rank, n4, n1, n2);
    OverTwoLeaves(g, rank, n5, n2, n3);
    OverTwoLeaves(g, rank, n6, n3, n1);
    BaseLins3(g, rank, n7, [Node(n4), Node(n1), Node(n2), End], [Node(n5), Node(n2), Node(n3), End], [Node(n6), Node(n3), Node(n1), End]);
  }

  lemma {:induction false} BaseLins3(g: Graph, rank: map<nat, nat>, x: nat, l0: seq<Slot>, l1: seq<Slot>, l2: seq<Slot>)
    requires Ranked(g, rank) && |Bases(g, x)| == 3
    requires Lin(g, rank, Bases(g, x)[0]) == Ok(l0) && Lin(g, rank, Bases(g, x)[1]) == Ok(l1)
    requires Lin(g, rank, Bases(g, x)[2]) == Ok(l2)
    ensures BaseLins(g, rank, x) == Ok([l0, l1, l2])
  {
    var m := [l0, l1, l2];
    forall i | 0 <= i < |m| ensures Lin(g, rank, Bases(g, x)[i]) == Ok(m[i]) {
      if i == 0 {
        assert m[0] == l0;
      } else if i == 1 {
        assert m[1] == l1;
      } else {
        assert m[2] == l2;
      }
    }
    BaseLinsOf(g, rank, x, m);
  }

  /** The G3 shape on any graph: three leaves, three nodes over two leaves each, and a
      node over those three. */
  lemma {:induction false} StuckOverThree(g: Graph, rank: map<nat, nat>, n1: nat, n2: nat, n3: nat, n4: nat, n5: nat, n6: nat, n7: nat)
    requires Ranked(g, rank) && n1 < n2 < n3 < n4 < n5 < n6
    requires Bases(g, n1) == [] && Bases(g, n2) == [] && Bases(g, n3) == []
    requires Bases(g, n4) == [n1, n2] && Bases(g, n5) == [n2, n3] && Bases(g, n6) == [n3, n1]
    requires Bases(g, n7) == [n4, n5, n6]
    ensures Linearize(g, rank, n7) == Err(NoLegalMro)
  {
    ThreeBaseLins(g, rank, n1, n2, n3, n4, n5, n6, n7);
    ThreeShaped(n1, n2, n3, n4, n5, n6);
    ThreeStuck(n1, n2, n3, n4, n5, n6);
    LinearizeStuck(g, rank, n7, [[Node(n4), Node(n1), Node(n2), End], [Node(n5), Node(n2), Node(n3), End], [Node(n6), Node(n3), Node(n1), End]]);
  }

  /** c3.py:40-45: with `6:[3,1]` node 7 has no legal order. */
  lemma {:induction false} TestG3()
    ensures Ranked(G3(), Levels())
    ensures Linearize(G3(), Levels(), 7) == Err(NoLegalMro)
  {
    G3Shape();
    StuckOverThree(G3(), Levels(), 1, 2, 3, 4, 5, 6, 7);
  }

  lemma {:induction false} ThreeStuckLast(n1: nat, n2: nat, n3: nat, n4: nat, n5: nat, n6: nat)
    requires n1 < n2 < n3 < n4 < n5 < n6
    ensures NoneEmpty([[Node(n1), Node(n2), End], [Node(n2), Node(n3), End], [Node(n3), Node(n1), End]]) && StuckAfter([[Node(n1), Node(n2), End], [Node(n2), Node(n3), End], [Node(n3), Node(n1), End]], [])
  {
    Round3([Node(n1), Node(n2), End], [Node(n2), Node(n3), End], [Node(n3), Node(n1), End], Node(n1));
    Round3([Node(n1), Node(n2), End], [Node(n2), Node(n3), End], [Node(n3), Node(n1), End], Node(n2));
    Round3([Node(n1), Node(n2), End], [Node(n2), Node(n3), End], [Node(n3), Node(n1), End], Node(n3));
    Pick3([Node(n1), Node(n2), End], [Node(n2), Node(n3), End], [Node(n3), Node(n1), End]);
  }

  lemma {:induction false} ThreeStuckRound0(n1: nat, n2: nat, n3: nat, n4: nat, n5: nat, n6: nat)
    requires n1 < n2 < n3 < n4 < n5 < n6
    ensures NoneEmpty([[Node(n4), Node(n1), Node(n2), End], [Node(n5), Node(n2), Node(n3), End], [Node(n6), Node(n3), Node(n1), End]]) && Pick([[Node(n4), Node(n1), Node(n2), End], [Node(n5), Node(n2), Node(n3), End], [Node(n6), Node(n3), Node(n1), End]], 0) == Some(Node(n4)) && Remove([[Node(n4), Node(n1), Node(n2), End], [Node(n5), Node(n2), Node(n3), End], [Node(n6), Node(n3), Node(n1), End]], Node(n4)) == [[Node(n1), Node(n2), End], [Node(n5), Node(n2), Node(n3), End], [Node(n6), Node(n3), Node(n1), End]]
  {
    Round3([Node(n4), Node(n1), Node(n2), End], [Node(n5), Node(n2), Node(n3), End], [Node(n6), Node(n3), Node(n1), End], Node(n4));
    Round3([Node(n4), Node(n1), Node(n2), End], [Node(n5), Node(n2), Node(n3), End], [Node(n6), Node(n3), Node(n1), End], Node(n5));
    Round3([Node(n4), Node(n1), Node(n2), End], [Node(n5), Node(n2), Node(n3), End], [Node(n6), Node(n3), Node(n1), End], Node(n6));
    Pick3([Node(n4), Node(n1), Node(n2), End], [Node(n5), Node(n2), Node(n3), End], [Node(n6), Node(n3), Node(n1), End]);
  }

  lemma {:induction false} ThreeStuckRound1(n1: nat, n2: nat, n3: nat, n4: nat, n5: nat, n6: nat)
    requires n1 < n2 < n3 < n4 < n5 < n6
    ensures NoneEmpty([[Node(n1), Node(n2), End], [Node(n5), Node(n2), Node(n3), End], [Node(n6), Node(n3), Node(n1), End]]) && Pick([[Node(n1), Node(n2), End], [Node(n5), Node(n2), Node(n3), End], [Node(n6), Node(n3), Node(n1), End]], 0) == Some(Node(n5)) && Remove([[Node(n1), Node(n2), End], [Node(n5), Node(n2), Node(n3), End], [Node(n6), Node(n3), Node(n1), End]], Node(n5)) == [[Node(n1), Node(n2), End], [Node(n2), Node(n3), End], [Node(n6), Node(n3), Node(n1), End]]
  {
    Round3([Node(n1), Node(n2), End], [Node(n5), Node(n2), Node(n3), End], [Node(n6), Node(n3), Node(n1), End], Node(n1));
    Round3([Node(n1), Node(n2), End], [Node(n5), Node(n2), Node(n3), End], [Node(n6), Node(n3), Node(n1), End], Node(n5));
    Round3([Node(n1), Node(n2), End], [Node(n5), Node(n2), Node(n3), End], [Node(n6), Node(n3), Node(n1), End], Node(n6));
    Pick3([Node(n1), Node(n2), End], [Node(n5), Node(n2), Node(n3), End], [Node(n6), Node(n3), Node(n1), End]);
  }

  lemma {:induction false} ThreeStuckRound2(n1: nat, n2: nat, n3: nat, n4: nat, n5: nat, n6: nat)
    requires n1 < n2 < n3 < n4 < n5 < n6
    ensures NoneEmpty([[Node(n1), Node(n2), End], [Node(n2), Node(n3), End], [Node(n6), Node(n3), Node(n1), End]]) && Pick([[Node(n1), Node(n2), End], [Node(n2), Node(n3), End], [Node(n6), Node(n3), Node(n1), End]], 0) == Some(Node(n6)) && Remove([[Node(n1), Node(n2), End], [Node(n2), Node(n3), End], [Node(n6), Node(n3), Node(n1), End]], Node(n6)) == [[Node(n1), Node(n2), End], [Node(n2), Node(n3), End], [Node(n3), Node(n1), End]]
  {
    Round3([Node(n1), Node(n2), End], [Node(n2), Node(n3), End], [Node(n6), Node(n3), Node(n1), End], Node(n1));
    Round3([Node(n1), Node(n2), End], [Node(n2), Node(n3), End], [Node(n6), Node(n3), Node(n1), End], Node(n2));
    Round3([Node(n1), Node(n2), End], [Node(n2), Node(n3), End], [Node(n6), Node(n3), Node(n1), End], Node(n6));
    Pick3([Node(n1), Node(n2), End], [Node(n2), Node(n3), End], [Node(n6), Node(n3), Node(n1), End]);
  }

  lemma {:induction false} ThreeShaped(n1: nat, n2: nat, n3: nat, n4: nat, n5: nat, n6: nat)
    ensures Shaped([[Node(n4), Node(n1), Node(n2), End], [Node(n5), Node(n2), Node(n3), End], [Node(n6), Node(n3), Node(n1), End]])
  {
    var m := [[Node(n4), Node(n1), Node(n2), End], [Node(n5), Node(n2), Node(n3), End], [Node(n6), Node(n3), Node(n1), End]];
    assert Sentinelled(m[0]) && Sentinelled(m[1]) && Sentinelled(m[2]);
    assert AllSentinelled(m);
  }

  /** The merge at the top of the G3 shape takes its three bases, then every head is blocked. */
  lemma {:induction false} ThreeStuck(n1: nat, n2: nat, n3: nat, n4: nat, n5: nat, n6: nat)
    requires n1 < n2 < n3 < n4 < n5 < n6
    ensures Merge([[Node(n4), Node(n1), Node(n2), End], [Node(n5), Node(n2), Node(n3), End], [Node(n6), Node(n3), Node(n1), End]]) == Err(NoLegalMro)
  {
    ThreeStuckLast(n1, n2, n3, n4, n5, n6);
    ThreeStuckRound2(n1, n2, n3, n4, n5, n6);
    StuckAfterStep([[Node(n1), Node(n2), End], [Node(n2), Node(n3), End], [Node(n6), Node(n3), Node(n1), End]], Node(n6), [], [[Node(n1), Node(n2), End], [Node(n2), Node(n3), End], [Node(n3), Node(n1), End]]);
    assert [Node(n6)] + [] == [Node(n6)];
    ThreeStuckRound1(n1, n2, n3, n4, n5, n6);
    StuckAfterStep([[Node(n1), Node(n2), End], [Node(n5), Node(n2), Node(n3), End], [Node(n6), Node(n3), Node(n1), End]], Node(n5), [Node(n6)], [[Node(n1), Node(n2), End], [Node(n2), Node(n3), End], [Node(n6), Node(n3), Node(n1), End]]);
    assert [Node(n5)] + [Node(n6)] == [Node(n5), Node(n6)];
    ThreeStuckRound0(n1, n2, n3, n4, n5, n6);
    StuckAfterStep([[Node(n4), Node(n1), Node(n2), End], [Node(n5), Node(n2), Node(n3), End], [Node(n6), Node(n3), Node(n1), End]], Node(n4), [Node(n5), Node(n6)], [[Node(n1), Node(n2), End], [Node(n5), Node(n2), Node(n3), End], [Node(n6), Node(n3), Node(n1), End]]);
    assert [Node(n4)] + [Node(n5), Node(n6)] == [Node(n4), Node(n5), Node(n6)];
    ThreeShaped(n1, n2, n3, n4, n5, n6);
    StuckAfterMerge([[Node(n4), Node(n1), Node(n2), End], [Node(n5), Node(n2), Node(n3), End], [Node(n6), Node(n3), Node(n1), End]], [Node(n4), Node(n5), Node(n6)]);
  }
  function G4(): Graph { map[1 := [], 2 := [], 3 := [], 4 := [1, 2], 5 := [2, 3], 6 := [1, 3], 7 := [4, 5, 6]] }

  lemma {:induction false} G4Shape()
    ensures Ranked(G4(), Levels())
    ensures Bases(G4(), 1) == [] && Bases(G4(), 2) == [] && Bases(G4(), 3) == []
    ensures Bases(G4(), 4) == [1, 2] && Bases(G4(), 5) == [2, 3] && Bases(G4(), 6) == [1, 3]
    ensures Bases(G4(), 7) == [4, 5, 6]
  {
  }

  lemma {:induction false} G4TraceRound0(n1: nat, n2: nat, n3: nat, n4: nat, n5: nat, n6: nat)
    requires n1 < n2 < n3 < n4 < n5 < n6
    ensures NoneEmpty([[Node(n4), Node(n1), Node(n2), End], [Node(n5), Node(n2), Node(n3), End], [Node(n6), Node(n1), Node(n3), End]]) && Pick([[Node(n4), Node(n1), Node(n2), End], [Node(n5), Node(n2), Node(n3), End], [Node(n6), Node(n1), Node(n3), End]], 0) == Some(Node(n4)) && Remove([[Node(n4), Node(n1), Node(n2), End], [Node(n5), Node(n2), Node(n3), End], [Node(n6), Node(n1), Node(n3), End]], Node(n4)) == [[Node(n1), Node(n2), End], [Node(n5), Node(n2), Node(n3), End], [Node(n6), Node(n1), Node(n3), End]]
  {
    Round3([Node(n4), Node(n1), Node(n2), End], [Node(n5), Node(n2), Node(n3), End], [Node(n6), Node(n1), Node(n3), End], Node(n4));
    Round3([Node(n4), Node(n1), Node(n2), End], [Node(n5), Node(n2), Node(n3), End], [Node(n6), Node(n1), Node(n3), End], Node(n5));
    Round3([Node(n4), Node(n1), Node(n2), End], [Node(n5), Node(n2), Node(n3), End], [Node(n6), Node(n1), Node(n3), End], Node(n6));
    Pick3([Node(n4), Node(n1), Node(n2), End], [Node(n5), Node(n2), Node(n3), End], [Node(n6), Node(n1), Node(n3), End]);
  }

  lemma {:induction false} G4TraceRound1(n1: nat, n2: nat, n3: nat, n4: nat, n5: nat, n6: nat)
    requires n1 < n2 < n3 < n4 < n5 < n6
    ensures NoneEmpty([[Node(n1), Node(n2), End], [Node(n5), Node(n2), Node(n3), End], [Node(n6), Node(n1), Node(n3), End]]) && Pick([[Node(n1), Node(n2), End], [Node(n5), Node(n2), Node(n3), End], [Node(n6), Node(n1), Node(n3), End]], 0) == Some(Node(n5)) && Remove([[Node(n1), Node(n2), End], [Node(n5), Node(n2), Node(n3), End], [Node(n6), Node(n1), Node(n3), End]], Node(n5)) == [[Node(n1), Node(n2), End], [Node(n2), Node(n3), End], [Node(n6), Node(n1), Node(n3), End]]
  {
    Round3([Node(n1), Node(n2), End], [Node(n5), Node(n2), Node(n3), End], [Node(n6), Node(n1), Node(n3), End], Node(n1));
    Round3([Node(n1), Node(n2), End], [Node(n5), Node(n2), Node(n3), End], [Node(n6), Node(n1), Node(n3), End], Node(n5));
    Round3([Node(n1), Node(n2), End], [Node(n5), Node(n2), Node(n3), End], [Node(n6), Node(n1), Node(n3), End], Node(n6));
    Pick3([Node(n1), Node(n2), End], [Node(n5), Node(n2), Node(n3), End], [Node(n6), Node(n1), Node(n3), End]);
  }

  lemma {:induction false} G4TraceRound2(n1: nat, n2: nat, n3: nat, n4: nat, n5: nat, n6: nat)
    requires n1 < n2 < n3 < n4 < n5 < n6
    ensures NoneEmpty([[Node(n1), Node(n2), End], [Node(n2), Node(n3), End], [Node(n6), Node(n1), Node(n3), End]]) && Pick([[Node(n1), Node(n2), End], [Node(n2), Node(n3), End], [Node(n6), Node(n1), Node(n3), End]], 0) == Some(Node(n6)) && Remove([[Node(n1), Node(n2), End], [Node(n2), Node(n3), End], [Node(n6), Node(n1), Node(n3), End]], Node(n6)) == [[Node(n1), Node(n2), End], [Node(n2), Node(n3), End], [Node(n1), Node(n3), End]]
  {
    Round3([Node(n1), Node(n2), End], [Node(n2), Node(n3), End], [Node(n6), Node(n1), Node(n3), End], Node(n1));
    Round3([Node(n1), Node(n2), End], [Node(n2), Node(n3), End], [Node(n6), Node(n1), Node(n3), End], Node(n2));
    Round3([Node(n1), Node(n2), End], [Node(n2), Node(n3), End], [Node(n6), Node(n1), Node(n3), End], Node(n6));
    Pick3([Node(n1), Node(n2), End], [Node(n2), Node(n3), End], [Node(n6), Node(n1), Node(n3), End]);
  }

  lemma {:induction false} G4TraceRound3(n1: nat, n2: nat, n3: nat, n4: nat, n5: nat, n6: nat)
    requires n1 < n2 < n3 < n4 < n5 < n6
    ensures NoneEmpty([[Node(n1), Node(n2), End], [Node(n2), Node(n3), End], [Node(n1), Node(n3), End]]) && Pick([[Node(n1), Node(n2), End], [Node(n2), Node(n3), End], [Node(n1), Node(n3), End]], 0) == Some(Node(n1)) && Remove([[Node(n1), Node(n2), End], [Node(n2), Node(n3), End], [Node(n1), Node(n3), End]], Node(n1)) == [[Node(n2), End], [Node(n2), Node(n3), End], [Node(n3), End]]
  {
    Round3([Node(n1), Node(n2), End], [Node(n2), Node(n3), End], [Node(n1), Node(n3), End], Node(n1));
    Round3([Node(n1), Node(n2), End], [Node(n2), Node(n3), End], [Node(n1), Node(n3), End], Node(n2));
    Pick3([Node(n1), Node(n2), End], [Node(n2), Node(n3), End], [Node(n1), Node(n3), End]);
  }

  lemma {:induction false} G4TraceRound4(n1: nat, n2: nat, n3: nat, n4: nat, n5: nat, n6: nat)
    requires n1 < n2 < n3 < n4 < n5 < n6
    ensures NoneEmpty([[Node(n2), End], [Node(n2), Node(n3), End], [Node(n3), End]]) && Pick([[Node(n2), End], [Node(n2), Node(n3), End], [Node(n3), End]], 0) == Some(Node(n2)) && Remove([[Node(n2), End], [Node(n2), Node(n3), End], [Node(n3), End]], Node(n2)) == [[End], [Node(n3), End], [Node(n3), End]]
  {
    Round3([Node(n2), End], [Node(n2), Node(n3), End], [Node(n3), End], Node(n2));
    Round3([Node(n2), End], [Node(n2), Node(n3), End], [Node(n3), End], Node(n3));
    Pick3([Node(n2), End], [Node(n2), Node(n3), End], [Node(n3), End]);
  }

  lemma {:induction false} G4TraceRound5(n1: nat, n2: nat, n3: nat, n4: nat, n5: nat, n6: nat)
    requires n1 < n2 < n3 < n4 < n5 < n6
    ensures NoneEmpty([[End], [Node(n3), End], [Node(n3), End]]) && Pick([[End], [Node(n3), End], [Node(n3), End]], 0) == Some(Node(n3)) && Remove([[End], [Node(n3), End], [Node(n3), End]], Node(n3)) == [[End], [End], [End]]
  {
    Round3([End], [Node(n3), End], [Node(n3), End], Node(n3));
    Round3([End], [Node(n3), End], [Node(n3), End], End);
    Pick3([End], [Node(n3), End], [Node(n3), End]);
  }

  lemma {:induction false} G4TraceRound6(n1: nat, n2: nat, n3: nat, n4: nat, n5: nat, n6: nat)
    requires n1 < n2 < n3 < n4 < n5 < n6
    ensures NoneEmpty([[End], [End], [End]]) && Pick([[End], [End], [End]], 0) == Some(End) && Remove([[End], [End], [End]], End) == [[], [], []]
  {
    Round3([End], [End], [End], End);
    Pick3([End], [End], [End]);
  }

  lemma {:induction false} G4TraceFrom7(n1: nat, n2: nat, n3: nat, n4: nat, n5: nat, n6: nat)
    requires n1 < n2 < n3 < n4 < n5 < n6
    ensures MergesTo([[], [], []], [])
  {

  }

  lemma {:induction false} G4TraceFrom6(n1: nat, n2: nat, n3: nat, n4: nat, n5: nat, n6: nat)
    requires n1 < n2 < n3 < n4 < n5 < n6
    ensures MergesTo([[End], [End], [End]], [End])
  {
    G4TraceRound6(n1, n2, n3, n4, n5, n6);
    G4TraceFrom7(n1, n2, n3, n4, n5, n6);
    MergesToStep([[End], [End], [End]], End, [], [[], [], []]);
    assert [End] + [] == [End];
  }

  lemma {:induction false} G4TraceFrom5(n1: nat, n2: nat, n3: nat, n4: nat, n5: nat, n6: nat)
    requires n1 < n2 < n3 < n4 < n5 < n6
    ensures MergesTo([[End], [Node(n3), End], [Node(n3), End]], [Node(n3), End])
  {
    G4TraceRound5(n1, n2, n3, n4, n5, n6);
    G4TraceFrom6(n1, n2, n3, n4, n5, n6);
    MergesToStep([[End], [Node(n3), End], [Node(n3), End]], Node(n3), [End], [[End], [End], [End]]);
    assert [Node(n3)] + [End] == [Node(n3), End];
  }

  lemma {:induction false} G4TraceFrom4(n1: nat, n2: nat, n3: nat, n4: nat, n5: nat, n6: nat)
    requires n1 < n2 < n3 < n4 < n5 < n6
    ensures MergesTo([[Node(n2), End], [Node(n2), Node(n3), End], [Node(n3), End]], [Node(n2), Node(n3), End])
  {
    G4TraceRound4(n1, n2, n3, n4, n5, n6);
    G4TraceFrom5(n1, n2, n3, n4, n5, n6);
    MergesToStep([[Node(n2), End], [Node(n2), Node(n3), End], [Node(n3), End]], Node(n2), [Node(n3), End], [[End], [Node(n3), End], [Node(n3), End]]);
    assert [Node(n2)] + [Node(n3), End] == [Node(n2), Node(n3), End];
  }

  lemma {:induction false} G4TraceFrom3(n1: nat, n2: nat, n3: nat, n4: nat, n5: nat, n6: nat)
    requires n1 < n2 < n3 < n4 < n5 < n6
    ensures MergesTo([[Node(n1), Node(n2), End], [Node(n2), Node(n3), End], [Node(n1), Node(n3), End]], [Node(n1), Node(n2), Node(n3), End])
  {
    G4TraceRound3(n1, n2, n3, n4, n5, n6);
    G4TraceFrom4(n1, n2, n3, n4, n5, n6);
    MergesToStep([[Node(n1), Node(n2), End], [Node(n2), Node(n3), End], [Node(n1), Node(n3), End]], Node(n1), [Node(n2), Node(n3), End], [[Node(n2), End], [Node(n2), Node(n3), End], [Node(n3), End]]);
    assert [Node(n1)] + [Node(n2), Node(n3), End] == [Node(n1), Node(n2), Node(n3), End];
  }

  lemma {:induction false} G4TraceFrom2(n1: nat, n2: nat, n3: nat, n4: nat, n5: nat, n6: nat)
    requires n1 < n2 < n3 < n4 < n5 < n6
    ensures MergesTo([[Node(n1), Node(n2), End], [Node(n2), Node(n3), End], [Node(n6), Node(n1), Node(n3), End]], [Node(n6), Node(n1), Node(n2), Node(n3), End])
  {
    G4TraceRound2(n1, n2, n3, n4, n5, n6);
    G4TraceFrom3(n1, n2, n3, n4, n5, n6);
    MergesToStep([[Node(n1), Node(n2), End], [Node(n2), Node(n3), End], [Node(n6), Node(n1), Node(n3), End]], Node(n6), [Node(n1), Node(n2), Node(n3), End], [[Node(n1), Node(n2), End], [Node(n2), Node(n3), End], [Node(n1), Node(n3), End]]);
    assert [Node(n6)] + [Node(n1), Node(n2), Node(n3), End] == [Node(n6), Node(n1), Node(n2), Node(n3), End];
  }

  lemma {:induction false} G4TraceFrom1(n1: nat, n2: nat, n3: nat, n4: nat, n5: nat, n6: nat)
    requires n1 < n2 < n3 < n4 < n5 < n6
    ensures MergesTo([[Node(n1), Node(n2), End], [Node(n5), Node(n2), Node(n3), End], [Node(n6), Node(n1), Node(n3), End]], [Node(n5), Node(n6), Node(n1), Node(n2), Node(n3), End])
  {
    G4TraceRound1(n1, n2, n3, n4, n5, n6);
    G4TraceFrom2(n1, n2, n3, n4, n5, n6);
    MergesToStep([[Node(n1), Node(n2), End], [Node(n5), Node(n2), Node(n3), End], [Node(n6), Node(n1), Node(n3), End]], Node(n5), [Node(n6), Node(n1), Node(n2), Node(n3), End], [[Node(n1), Node(n2), End], [Node(n2), Node(n3), End], [Node(n6), Node(n1), Node(n3), End]]);
    assert [Node(n5)] + [Node(n6), Node(n1), Node(n2), Node(n3), End] == [Node(n5), Node(n6), Node(n1), Node(n2), Node(n3), End];
  }

  lemma {:induction false} G4Trace(n1: nat, n2: nat, n3: nat, n4: nat, n5: nat, n6: nat)
    requires n1 < n2 < n3 < n4 < n5 < n6
    ensures MergesTo([[Node(n4), Node(n1), Node(n2), End], [Node(n5), Node(n2), Node(n3), End], [Node(n6), Node(n1), Node(n3), End]], [Node(n4), Node(n5), Node(n6), Node(n1), Node(n2), Node(n3), End])
  {
    G4TraceRound0(n1, n2, n3, n4, n5, n6);
    G4TraceFrom1(n1, n2, n3, n4, n5, n6);
    MergesToStep([[Node(n4), Node(n1), Node(n2), End], [Node(n5), Node(n2), Node(n3), End], [Node(n6), Node(n1), Node(n3), End]], Node(n4), [Node(n5), Node(n6), Node(n1), Node(n2), Node(n3), End], [[Node(n1), Node(n2), End], [Node(n5), Node(n2), Node(n3), End], [Node(n6), Node(n1), Node(n3), End]]);
    assert [Node(n4)] + [Node(n5), Node(n6), Node(n1), Node(n2), Node(n3), End] == [Node(n4), Node(n5), Node(n6), Node(n1), Node(n2), Node(n3), End];
  }

  lemma {:induction false} G4Shaped(n1: nat, n2: nat, n3: nat, n4: nat, n5: nat, n6: nat)
    ensures Shaped([[Node(n4), Node(n1), Node(n2), End], [Node(n5), Node(n2), Node(n3), End], [Node(n6), Node(n1), Node(n3), End]])
  {
    var m := [[Node(n4), Node(n1), Node(n2), End], [Node(n5), Node(n2), Node(n3), End], [Node(n6), Node(n1), Node(n3), End]];
    assert Sentinelled(m[0]) && Sentinelled(m[1]) && Sentinelled(m[2]);
    assert AllSentinelled(m);
  }

  /** The G4 shape on any graph: like G3, but with the third middle node over `n1, n3`. */
  lemma {:induction false} MergesOverThree(g: Graph, rank: map<nat, nat>, n1: nat, n2: nat, n3: nat, n4: nat, n5: nat, n6: nat, n7: nat)
    requires Ranked(g, rank) && n1 < n2 < n3 < n4 < n5 < n6
    requires Bases(g, n1) == [] && Bases(g, n2) == [] && Bases(g, n3) == []
    requires Bases(g, n4) == [n1, n2] && Bases(g, n5) == [n2, n3] && Bases(g, n6) == [n1, n3]
    requires Bases(g, n7) == [n4, n5, n6]
    ensures Linearize(g, rank, n7) == Ok([n7, n4, n5, n6, n1, n2, n3])
  {
    OverTwoLeavesLin(g, rank, n4, n1, n2);
    OverTwoLeavesLin(g, rank, n5, n2, n3);
    OverTwoLeavesLin(g, rank, n6, n1, n3);
    G4Top(g, rank, n1, n2, n3, n4, n5, n6, n7);
  }

  lemma {:induction false} G4Top(g: Graph, rank: map<nat, nat>, n1: nat, n2: nat, n3: nat, n4: nat, n5: nat, n6: nat, n7: nat)
    requires Ranked(g, rank) && n1 < n2 < n3 < n4 < n5 < n6 && Bases(g, n7) == [n4, n5, n6]
    requires Lin(g, rank, n4) == Ok([Node(n4), Node(n1), Node(n2), End]) && Lin(g, rank, n5) == Ok([Node(n5), Node(n2), Node(n3), End])
    requires Lin(g, rank, n6) == Ok([Node(n6), Node(n1), Node(n3), End])
    ensures Linearize(g, rank, n7) == Ok([n7, n4, n5, n6, n1, n2, n3])
  {
    G4Shaped(n1, n2, n3, n4, n5, n6);
    G4Trace(n1, n2, n3, n4, n5, n6);
    G4Wrap(n1, n2, n3, n4, n5, n6, n7);
    LinearizeOver3(g, rank, n7, [Node(n4), Node(n1), Node(n2), End], [Node(n5), Node(n2), Node(n3), End], [Node(n6), Node(n1), Node(n3), End], [Node(n4), Node(n5), Node(n6), Node(n1), Node(n2), Node(n3), End], [n7, n4, n5, n6, n1, n2, n3]);
  }

  /** A node over three bases whose lists are known and merge along a known trace. */
  lemma {:induction false} LinearizeOver3(g: Graph, rank: map<nat, nat>, x: nat, l0: seq<Slot>, l1: seq<Slot>, l2: seq<Slot>, out: seq<Slot>, l: seq<nat>)
    requires Ranked(g, rank) && |Bases(g, x)| == 3
    requires Lin(g, rank, Bases(g, x)[0]) == Ok(l0) && Lin(g, rank, Bases(g, x)[1]) == Ok(l1)
    requires Lin(g, rank, Bases(g, x)[2]) == Ok(l2)
    requires Shaped([l0, l1, l2]) && MergesTo([l0, l1, l2], out) && Wrap(l) == [Node(x)] + out
    ensures Linearize(g, rank, x) == Ok(l)
  {
    BaseLins3(g, rank, x, l0, l1, l2);
    LinearizeMerged(g, rank, x, [l0, l1, l2], out, l);
  }

  lemma {:induction false} G4Wrap(n1: nat, n2: nat, n3: nat, n4: nat, n5: nat, n6: nat, n7: nat)
    ensures Wrap([n7, n4, n5, n6, n1, n2, n3]) == [Node(n7)] + [Node(n4), Node(n5), Node(n6), Node(n1), Node(n2), Node(n3), End]
  {
    var l := [n7, n4, n5, n6, n1, n2, n3];
    var w := [Node(n7), Node(n4), Node(n5), Node(n6), Node(n1), Node(n2), Node(n3), End];
    assert forall i :: 0 <= i < |l| ==> w[i] == Node(l[i]);
    assert Wrap(l)[..7] == w[..7];
    assert [Node(n7)] + [Node(n4), Node(n5), Node(n6), Node(n1), Node(n2), Node(n3), End] == w;
  }

  /** c3.py:47. */
  lemma {:induction false} TestG4()
    ensures Ranked(G4(), Levels())
    ensures Linearize(G4(), Levels(), 7) == Ok([7, 4, 5, 6, 1, 2, 3])
  {
    G4Shape();
    MergesOverThree(G4(), Levels(), 1, 2, 3, 4, 5, 6, 7);
  }

  /** A node with one leaf base is itself followed by the base. */
  lemma {:induction false} OverOneLeaf(g: Graph, rank: map<nat, nat>, x: nat, a: nat)
    requires Ranked(g, rank) && Bases(g, x) == [a] && Bases(g, a) == []
    ensures Lin(g, rank, x) == Ok([Node(x), Node(a), End])
  {
    BaseLinsOf(g, rank, x, [[Node(a), End]]);
    MergeSingle([Node(a), End]);
    assert Sentinelled([Node(a), End]);
    assert AllSentinelled([[Node(a), End]]);
    LinMerged(g, rank, x, [[Node(a), End]], [Node(a), End]);
    assert [Node(x)] + [Node(a), End] == [Node(x), Node(a), End];
  }

  lemma {:induction false} BaseLins2(g: Graph, rank: map<nat, nat>, x: nat, l0: seq<Slot>, l1: seq<Slot>)
    requires Ranked(g, rank) && |Bases(g, x)| == 2
    requires Lin(g, rank, Bases(g, x)[0]) == Ok(l0) && Lin(g, rank, Bases(g, x)[1]) == Ok(l1)
    ensures BaseLins(g, rank, x) == Ok([l0, l1])
  {
    var m := [l0, l1];
    forall i | 0 <= i < |m| ensures Lin(g, rank, Bases(g, x)[i]) == Ok(m[i]) {
      if i == 0 {
        assert m[0] == l0;
      } else {
        assert m[1] == l1;
      }
    }
    BaseLinsOf(g, rank, x, m);
  }

  lemma {:induction false} OrderTraceRound0(n1: nat, n2: nat)
    requires n1 < n2
    ensures NoneEmpty([[Node(n1), End], [Node(n2), Node(n1), End]]) && Pick([[Node(n1), End], [Node(n2), Node(n1), End]], 0) == Some(Node(n2)) && Remove([[Node(n1), End], [Node(n2), Node(n1), End]], Node(n2)) == [[Node(n1), End], [Node(n1), End]]
  {
    Round2([Node(n1), End], [Node(n2), Node(n1), End], Node(n1));
    Round2([Node(n1), End], [Node(n2), Node(n1), End], Node(n2));
    Pick2([Node(n1), End], [Node(n2), Node(n1), End]);
  }

  lemma {:induction false} OrderTraceRound1(n1: nat, n2: nat)
    requires n1 < n2
    ensures NoneEmpty([[Node(n1), End], [Node(n1), End]]) && Pick([[Node(n1), End], [Node(n1), End]], 0) == Some(Node(n1)) && Remove([[Node(n1), End], [Node(n1), End]], Node(n1)) == [[End], [End]]
  {
    Round2([Node(n1), End], [Node(n1), End], Node(n1));
    Pick2([Node(n1), End], [Node(n1), End]);
  }

  lemma {:induction false} OrderTraceRound2(n1: nat, n2: nat)
    requires n1 < n2
    ensures NoneEmpty([[End], [End]]) && Pick([[End], [End]], 0) == Some(End) && Remove([[End], [End]], End) == [[], []]
  {
    Round2([End], [End], End);
    Pick2([End], [End]);
  }

  lemma {:induction false} OrderTraceFrom3(n1: nat, n2: nat)
    requires n1 < n2
    ensures MergesTo([[], []], [])
  {

  }

  lemma {:induction false} OrderTraceFrom2(n1: nat, n2: nat)
    requires n1 < n2
    ensures MergesTo([[End], [End]], [End])
  {
    OrderTraceRound2(n1, n2);
    OrderTraceFrom3(n1, n2);
    MergesToStep([[End], [End]], End, [], [[], []]);
    assert [End] + [] == [End];
  }

  lemma {:induction false} OrderTraceFrom1(n1: nat, n2: nat)
    requires n1 < n2
    ensures MergesTo([[Node(n1), End], [Node(n1), End]], [Node(n1), End])
  {
    OrderTraceRound1(n1, n2);
    OrderTraceFrom2(n1, n2);
    MergesToStep([[Node(n1), End], [Node(n1), End]], Node(n1), [End], [[End], [End]]);
    assert [Node(n1)] + [End] == [Node(n1), End];
  }

  lemma {:induction false} OrderTrace(n1: nat, n2: nat)
    requires n1 < n2
    ensures MergesTo([[Node(n1), End], [Node(n2), Node(n1), End]], [Node(n2), Node(n1), End])
  {
    OrderTraceRound0(n1, n2);
    OrderTraceFrom1(n1, n2);
    MergesToStep([[Node(n1), End], [Node(n2), Node(n1), End]], Node(n2), [Node(n1), End], [[Node(n1), End], [Node(n1), End]]);
    assert [Node(n2)] + [Node(n1), End] == [Node(n2), Node(n1), End];
  }

  lemma {:induction false} OrderShaped(n1: nat, n2: nat)
    ensures Shaped([[Node(n1), End], [Node(n2), Node(n1), End]])
  {
    var m := [[Node(n1), End], [Node(n2), Node(n1), End]];
    assert Sentinelled(m[0]) && Sentinelled(m[1]);
    assert AllSentinelled(m);
  }


  /** Node `n3` declares `n1` before `n2`, but `n2` is itself over `n1`. */
  lemma {:induction false} OrderOverridden(g: Graph, rank: map<nat, nat>, n1: nat, n2: nat, n3: nat)
    requires Ranked(g, rank) && n1 < n2
    requires Bases(g, n1) == [] && Bases(g, n2) == [n1] && Bases(g, n3) == [n1, n2]
    ensures Linearize(g, rank, n3) == Ok([n3, n2, n1])
  {
    OverOneLeaf(g, rank, n2, n1);
    BaseLins2(g, rank, n3, [Node(n1), End], [Node(n2), Node(n1), End]);
    OrderShaped(n1, n2);
    OrderTrace(n1, n2);
    OrderWrap(n1, n2, n3);
    LinearizeMerged(g, rank, n3, [[Node(n1), End], [Node(n2), Node(n1), End]], [Node(n2), Node(n1), End], [n3, n2, n1]);
  }

  lemma {:induction false} OrderWrap(n1: nat, n2: nat, n3: nat)
    ensures Wrap([n3, n2, n1]) == [Node(n3)] + [Node(n2), Node(n1), End]
  {
    var l := [n3, n2, n1];
    assert forall i :: 0 <= i < |l| ==> Wrap(l)[i] == Node(l[i]);
  }

  function G5(): Graph { map[1 := [], 2 := [1], 3 := [1, 2]] }

  /** The merge is given the bases' linearizations but not the list of bases itself,
      so a declared base order that contradicts an inherited one is silently
      overridden: node 3 lists 1 before 2 and still gets 2 first. */
  lemma {:induction false} DeclaredOrderNotKept()
    ensures Bases(G5(), 3) == [1, 2] && Ranked(G5(), Levels5())
    ensures Linearize(G5(), Levels5(), 3) == Ok([3, 2, 1])
  {
    assert Ranked(G5(), Levels5());
    OrderOverridden(G5(), Levels5(), 1, 2, 3);
  }
}
