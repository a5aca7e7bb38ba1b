/** C3 linearization as c3.py computes it: `_c3` builds a resolution list that ends
    with a sentinel, `merge` combines the bases' lists by repeatedly taking the first
    head that occurs in no list's tail, and `c3` strips the sentinel.  Nodes are
    natural numbers; identity is equality. */
module C3 {
  import opened Wrappers

  /** An entry of an intermediate resolution list: a node, or the end-of-list
      sentinel (`None` in the source). */
  datatype Slot = Node(id: nat) | End

  /** The base graph, as the `get_bases` callback: a node missing from the map has
      no bases, like `dict.get` returning `None`. */
  type Graph = map<nat, seq<nat>>

  function Bases(g: Graph, x: nat): seq<nat>
  {
    if x in g then g[x] else []
  }

  /** Every declared base has a strictly smaller rank than the node declaring it:
      the base graph is acyclic (the source has no cycle check and would recurse
      without end). */
  ghost predicate Ranked(g: Graph, rank: map<nat, nat>)
  {
    forall x :: x in g ==>
      x in rank && forall i :: 0 <= i < |g[x]| ==> g[x][i] in rank && rank[g[x][i]] < rank[x]
  }

  ghost function Height(g: Graph, rank: map<nat, nat>, x: nat): nat
  {
    if x in g && x in rank then rank[x] else 0
  }

  lemma {:induction false} BaseHeight(g: Graph, rank: map<nat, nat>, x: nat, i: nat)
    requires Ranked(g, rank) && i < |Bases(g, x)|
    ensures Height(g, rank, Bases(g, x)[i]) < Height(g, rank, x)
  {
  }

  // ---------------------------------------------------------------- sequences

  predicate NoDup<T(==)>(s: seq<T>)
  {
    forall i, j :: 0 <= i < j < |s| ==> s[i] != s[j]
  }

  /** `a` is obtained from `b` by deleting elements (greedy matching). */
  ghost predicate Subseq<T>(a: seq<T>, b: seq<T>)
    decreases |b|
  {
    a == [] || (b != [] && if a[0] == b[0] then Subseq(a[1..], b[1..]) else Subseq(a, b[1..]))
  }

  lemma {:induction false} SubseqDropFirst<T>(a: seq<T>, b: seq<T>)
    requires a != [] && Subseq(a, b)
    ensures Subseq(a[1..], b)
    decreases |b|, 1
  {
    if a[0] == b[0] {
      SubseqExtend(a[1..], b[0], b[1..]);
    } else {
      SubseqDropFirst(a, b[1..]);
      SubseqExtend(a[1..], b[0], b[1..]);
    }
    assert [b[0]] + b[1..] == b;
  }

  lemma {:induction false} SubseqExtend<T>(a: seq<T>, c: T, b: seq<T>)
    requires Subseq(a, b)
    ensures Subseq(a, [c] + b)
    decreases |b|, 2
  {
    assert ([c] + b)[1..] == b;
    if a != [] && a[0] == c {
      SubseqDropFirst(a, b);
    }
  }

  lemma {:induction false} SubseqCons<T>(c: T, a: seq<T>, b: seq<T>)
    requires Subseq(a, b)
    ensures Subseq(a, [c] + b) && Subseq([c] + a, [c] + b)
  {
    SubseqExtend(a, c, b);
    assert ([c] + b)[1..] == b;
    assert ([c] + a)[1..] == a;
  }

  lemma {:induction false} SubseqTrans<T>(a: seq<T>, b: seq<T>, c: seq<T>)
    requires Subseq(a, b) && Subseq(b, c)
    ensures Subseq(a, c)
    decreases |c|
  {
    if a != [] {
      if b[0] == c[0] {
        if a[0] == b[0] {
          SubseqTrans(a[1..], b[1..], c[1..]);
        } else {
          SubseqTrans(a, b[1..], c[1..]);
          SubseqExtend(a, c[0], c[1..]);
          assert [c[0]] + c[1..] == c;
        }
      } else {
        SubseqTrans(a, b, c[1..]);
      }
      if a[0] != c[0] || b[0] != c[0] {
        SubseqExtend(a, c[0], c[1..]);
        assert [c[0]] + c[1..] == c;
      }
    }
  }

  lemma {:induction false} SubseqElems<T>(a: seq<T>, b: seq<T>, y: T)
    requires Subseq(a, b) && y in a
    ensures y in b
    decreases |b|
  {
    if a[0] == b[0] {
      if y != a[0] {
        SubseqElems(a[1..], b[1..], y);
      }
    } else {
      SubseqElems(a, b[1..], y);
    }
  }

  // ------------------------------------------------------------- merge inputs

  /** A resolution list as `_c3` returns it: non-empty, ending with the sentinel,
      and with no sentinel before the end. */
  predicate Sentinelled(l: seq<Slot>)
  {
    |l| > 0 && l[|l| - 1] == End && End !in l[..|l| - 1]
  }

  predicate AllEmpty(mros: seq<seq<Slot>>)
  {
    forall i :: 0 <= i < |mros| ==> mros[i] == []
  }

  predicate AllSentinelled(mros: seq<seq<Slot>>)
  {
    forall i :: 0 <= i < |mros| ==> Sentinelled(mros[i])
  }

  /** The shapes `merge` meets when it is called from `_c3`. */
  predicate Shaped(mros: seq<seq<Slot>>)
  {
    AllEmpty(mros) || AllSentinelled(mros)
  }

  function Tail(l: seq<Slot>): seq<Slot>
  {
    if l == [] then [] else l[1..]
  }

  /** `c` occurs in the non-head part of some list. */
  predicate InTails(mros: seq<seq<Slot>>, c: Slot)
  {
    mros != [] && (c in Tail(mros[0]) || InTails(mros[1..], c))
  }

  lemma {:induction false} InTailsAt(mros: seq<seq<Slot>>, c: Slot)
    ensures InTails(mros, c) <==> exists i :: 0 <= i < |mros| && c in Tail(mros[i])
  {
    if mros != [] {
      InTailsAt(mros[1..], c);
      if exists i :: 0 <= i < |mros| && c in Tail(mros[i]) {
        var i :| 0 <= i < |mros| && c in Tail(mros[i]);
        if i > 0 {
          assert c in Tail(mros[1..][i - 1]);
        }
      }
      if InTails(mros[1..], c) {
        var i :| 0 <= i < |mros[1..]| && c in Tail(mros[1..][i]);
        assert c in Tail(mros[i + 1]);
      }
    }
  }

  /** The first head at position `i` or later that occurs in no tail (the
      `for candidate, *_ in mros` scan). */
  function Pick(mros: seq<seq<Slot>>, i: nat): (r: Option<Slot>)
    requires i <= |mros| && forall j :: 0 <= j < |mros| ==> mros[j] != []
    ensures r.None? <==> forall j :: i <= j < |mros| ==> InTails(mros, mros[j][0])
    decreases |mros| - i
  {
    if i == |mros| then None
    else if !InTails(mros, mros[i][0]) then Some(mros[i][0])
    else Pick(mros, i + 1)
  }

  /** A chosen candidate is the first head, from position `i` on, that occurs in no tail. */
  lemma {:induction false} PickFirst(mros: seq<seq<Slot>>, i: nat)
    requires i <= |mros| && forall j :: 0 <= j < |mros| ==> mros[j] != []
    ensures Pick(mros, i).Some? ==>
      exists j :: (i <= j < |mros| && mros[j][0] == Pick(mros, i).value && !InTails(mros, Pick(mros, i).value)
        && forall k :: i <= k < j ==> InTails(mros, mros[k][0]))
    decreases |mros| - i
  {
    if i < |mros| && InTails(mros, mros[i][0]) {
      PickFirst(mros, i + 1);
    }
  }

  /** Drop `c` from the front of every list that starts with it. */
  function Remove(mros: seq<seq<Slot>>, c: Slot): (r: seq<seq<Slot>>)
  {
    if mros == [] then []
    else [if mros[0] != [] && mros[0][0] == c then mros[0][1..] else mros[0]] + Remove(mros[1..], c)
  }

  lemma {:induction false} RemoveAt(mros: seq<seq<Slot>>, c: Slot, i: nat)
    requires i < |mros|
    ensures |Remove(mros, c)| == |mros|
    ensures Remove(mros, c)[i] == if mros[i] != [] && mros[i][0] == c then mros[i][1..] else mros[i]
  {
    if i > 0 {
      RemoveAt(mros[1..], c, i - 1);
    } else if |mros| > 1 {
      RemoveAt(mros[1..], c, 0);
    }
  }

  lemma {:induction false} RemoveLength(mros: seq<seq<Slot>>, c: Slot)
    ensures |Remove(mros, c)| == |mros|
  {
    if mros != [] {
      RemoveAt(mros, c, 0);
    }
  }

  function Total(mros: seq<seq<Slot>>): nat
  {
    if mros == [] then 0 else |mros[0]| + Total(mros[1..])
  }

  lemma {:induction false} RemoveShrinks(mros: seq<seq<Slot>>, c: Slot, j: nat)
    requires j < |mros| && mros[j] != [] && mros[j][0] == c
    ensures Total(Remove(mros, c)) < Total(mros)
  {
    if j > 0 {
      RemoveShrinks(mros[1..], c, j - 1);
      RemoveNoGrow(mros[1..], c);
    } else {
      RemoveNoGrow(mros[1..], c);
    }
  }

  lemma {:induction false} RemoveNoGrow(mros: seq<seq<Slot>>, c: Slot)
    ensures Total(Remove(mros, c)) <= Total(mros)
  {
    if mros != [] {
      RemoveNoGrow(mros[1..], c);
    }
  }

  lemma {:induction false} EndInTail(l: seq<Slot>)
    requires Sentinelled(l)
    ensures |l| > 1 ==> End in Tail(l)
  {
    if |l| > 1 {
      assert Tail(l)[|l| - 2] == End;
    }
  }

  lemma {:induction false} HeadInElems<T>(s: seq<T>)
    ensures s == [] || s[0] in s
  {
  }

  /** Removing a chosen candidate keeps the lists in the shape `merge` expects. */
  lemma {:induction false} RemoveShaped(mros: seq<seq<Slot>>, c: Slot)
    requires AllSentinelled(mros) && !InTails(mros, c)
    ensures Shaped(Remove(mros, c))
    ensures c == End ==> AllEmpty(Remove(mros, c))
    ensures c != End ==> AllSentinelled(Remove(mros, c))
  {
    RemoveLength(mros, c);
    InTailsAt(mros, c);
    var r := Remove(mros, c);
    if c == End {
      forall i | 0 <= i < |r| ensures r[i] == [] {
        RemoveAt(mros, c, i);
        EndInTail(mros[i]);
        assert End !in Tail(mros[i]);
      }
    } else {
      forall i | 0 <= i < |r| ensures Sentinelled(r[i]) {
        RemoveAt(mros, c, i);
        var l := mros[i];
        if l[0] == c {
          assert |l| > 1;
          assert l[1..][..|l| - 2] == l[1..|l| - 1];
        }
      }
    }
  }

  function Union(mros: seq<seq<Slot>>): set<Slot>
  {
    if mros == [] then {} else (set y | y in mros[0]) + Union(mros[1..])
  }

  lemma {:induction false} UnionRemove(mros: seq<seq<Slot>>, c: Slot)
    ensures Union(Remove(mros, c)) <= Union(mros) <= Union(Remove(mros, c)) + {c}
    ensures !InTails(mros, c) ==> c !in Union(Remove(mros, c))
  {
    if mros != [] {
      UnionRemove(mros[1..], c);
      assert Remove(mros, c)[1..] == Remove(mros[1..], c);
    }
  }

  lemma {:induction false} UnionHas(mros: seq<seq<Slot>>, j: nat)
    requires j < |mros| && mros[j] != []
    ensures mros[j][0] in Union(mros)
  {
    if j > 0 {
      UnionHas(mros[1..], j - 1);
    }
  }

  /** `merge` (c3.py:7-16). */
  function Merge(mros: seq<seq<Slot>>): (r: Result<seq<Slot>>)
    requires Shaped(mros)
    ensures r.Ok? ==> (set y | y in r.value) == Union(mros)
    ensures r.Ok? ==> NoDup(r.value)
    ensures r.Ok? && AllSentinelled(mros) && |mros| > 0 ==> Sentinelled(r.value)
    ensures r.Err? ==> r == Err(NoLegalMro)
    decreases Total(mros)
  {
    if AllEmpty(mros) then
      EmptyUnion(mros);
      Ok([])
    else
      match Pick(mros, 0)
      case None => Err(NoLegalMro)
      case Some(c) =>
        PickStep(mros, c);
        match Merge(Remove(mros, c))
        case Err(e) => Err(e)
        case Ok(rest) =>
          ConsCandidate(mros, c, rest);
          Ok([c] + rest)
  }

  /** Putting the chosen candidate in front of the merged remainder gives the
      merge's postconditions for the whole. */
  lemma {:induction false} ConsCandidate(mros: seq<seq<Slot>>, c: Slot, rest: seq<Slot>)
    requires Union(mros) == Union(Remove(mros, c)) + {c} && c !in Union(Remove(mros, c))
    requires (set y | y in rest) == Union(Remove(mros, c)) && NoDup(rest)
    requires c == End ==> AllEmpty(Remove(mros, c))
    requires c != End && AllSentinelled(Remove(mros, c)) && |Remove(mros, c)| > 0 ==> Sentinelled(rest)
    requires |Remove(mros, c)| == |mros| > 0
    ensures (set y | y in [c] + rest) == Union(mros)
    ensures NoDup([c] + rest)
    ensures c != End ==> AllSentinelled(Remove(mros, c)) ==> Sentinelled([c] + rest)
    ensures c == End ==> [c] + rest == [End]
  {
    assert (set y | y in [c] + rest) == {c} + (set y | y in rest);
    if c == End {
      EmptyUnion(Remove(mros, c));
      assert forall y :: y in rest ==> y in Union(Remove(mros, c));
      HeadInElems(rest);
    }
    if rest != [] {
      assert ([c] + rest)[..|rest|] == [c] + rest[..|rest| - 1];
    }
  }

  /** What choosing candidate `c` does to the lists: they shrink, keep their
      shape, and lose exactly `c` from their elements. */
  lemma {:induction false} PickStep(mros: seq<seq<Slot>>, c: Slot)
    requires AllSentinelled(mros) && !AllEmpty(mros)
    requires forall j :: 0 <= j < |mros| ==> mros[j] != []
    requires Pick(mros, 0) == Some(c)
    ensures Total(Remove(mros, c)) < Total(mros)
    ensures !InTails(mros, c) && Shaped(Remove(mros, c))
    ensures c == End ==> AllEmpty(Remove(mros, c))
    ensures c != End ==> AllSentinelled(Remove(mros, c))
    ensures Union(mros) == Union(Remove(mros, c)) + {c}
    ensures c !in Union(Remove(mros, c))
    ensures |Remove(mros, c)| == |mros|
  {
    RemoveLength(mros, c);
    PickFirst(mros, 0);
    var j :| 0 <= j < |mros| && mros[j][0] == c && !InTails(mros, c);
    RemoveShrinks(mros, c, j);
    RemoveShaped(mros, c);
    UnionRemove(mros, c);
    UnionHas(mros, j);
  }

  lemma {:induction false} EmptyUnion(mros: seq<seq<Slot>>)
    requires AllEmpty(mros)
    ensures Union(mros) == {}
  {
    if mros != [] {
      EmptyUnion(mros[1..]);
    }
  }

  lemma {:induction false} UnionMem(mros: seq<seq<Slot>>, y: Slot)
    ensures y in Union(mros) <==> exists i :: 0 <= i < |mros| && y in mros[i]
  {
    if mros != [] {
      UnionMem(mros[1..], y);
      if y in Union(mros[1..]) {
        var i :| 0 <= i < |mros[1..]| && y in mros[1..][i];
        assert y in mros[i + 1];
      }
      if exists i :: 0 <= i < |mros| && y in mros[i] {
        var i :| 0 <= i < |mros| && y in mros[i];
        if i > 0 {
          assert y in mros[1..][i - 1];
        }
      }
    }
  }

  /** `merge` only ever removes heads, so every input list keeps its relative order
      in the output. */
  lemma {:induction false} MergeKeepsOrder(mros: seq<seq<Slot>>, i: nat)
    requires Shaped(mros) && Merge(mros).Ok? && i < |mros|
    ensures Subseq(mros[i], Merge(mros).value)
    decreases Total(mros)
  {
    if AllEmpty(mros) {
      assert mros[i] == [];
    } else {
      var c := Pick(mros, 0).value;
      PickStep(mros, c);
      var rest := Merge(Remove(mros, c)).value;
      assert Merge(mros).value == [c] + rest;
      MergeKeepsOrder(Remove(mros, c), i);
      RemoveAt(mros, c, i);
      SubseqCons(c, Remove(mros, c)[i], rest);
      if mros[i][0] == c {
        assert mros[i] == [c] + mros[i][1..];
      }
    }
  }

  /** When no head is free of every tail, `merge` fails ("no legal mro"). */
  lemma {:induction false} MergeStuck(mros: seq<seq<Slot>>)
    requires AllSentinelled(mros) && !AllEmpty(mros)
    requires forall j :: 0 <= j < |mros| ==> InTails(mros, mros[j][0])
    ensures Merge(mros) == Err(NoLegalMro)
  {
  }

  /** Every entry after position `from` is the sentinel or a node strictly lower than `h`. */
  ghost predicate Below(g: Graph, rank: map<nat, nat>, l: seq<Slot>, from: nat, h: nat)
  {
    forall j :: from <= j < |l| ==> l[j] == End || Height(g, rank, l[j].id) < h
  }

  /** `_c3` (c3.py:18-22): a node without bases gives `[x, None]`, any other node
      `[x]` followed by the merge of its bases' lists. */
  function Lin(g: Graph, ghost rank: map<nat, nat>, x: nat): (r: Result<seq<Slot>>)
    requires Ranked(g, rank)
    ensures r.Ok? ==> Sentinelled(r.value) && r.value[0] == Node(x) && NoDup(r.value)
    ensures r.Ok? ==> Below(g, rank, r.value, 1, Height(g, rank, x))
    ensures r.Err? ==> r == Err(NoLegalMro)
    decreases Height(g, rank, x), 1
  {
    if Bases(g, x) == [] then Ok([Node(x), End])
    else
      match BaseLins(g, rank, x)
      case Err(e) => Err(e)
      case Ok(mros) =>
        match Merge(mros)
        case Err(e) => Err(e)
        case Ok(out) =>
          MergedBelow(g, rank, x, mros, out);
          Ok([Node(x)] + out)
  }

  /** `[_c3(base) for base in bases]`: the bases' lists in declared order, or the
      failure of one of them. */
  function BaseLins(g: Graph, ghost rank: map<nat, nat>, x: nat): (r: Result<seq<seq<Slot>>>)
    requires Ranked(g, rank) && Bases(g, x) != []
    ensures r.Ok? ==> |r.value| == |Bases(g, x)| > 0 && AllSentinelled(r.value)
    ensures r.Ok? ==> forall i :: 0 <= i < |r.value| ==> Below(g, rank, r.value[i], 0, Height(g, rank, x))
    ensures r.Ok? ==> forall i :: 0 <= i < |r.value| ==> Lin(g, rank, Bases(g, x)[i]) == Ok(r.value[i])
    ensures r.Err? <==> exists i :: 0 <= i < |Bases(g, x)| && Lin(g, rank, Bases(g, x)[i]).Err?
    ensures r.Err? ==> r == Err(NoLegalMro)
    decreases Height(g, rank, x), 0
  {
    var bs := Bases(g, x);
    var rs := seq(|bs|, i requires 0 <= i < |bs| => Lin(g, rank, bs[i]));
    if exists i :: 0 <= i < |bs| && rs[i].Err? then Err(NoLegalMro)
    else Ok(seq(|bs|, i requires 0 <= i < |bs| => rs[i].value))
  }

  lemma {:induction false} MergedBelow(g: Graph, rank: map<nat, nat>, x: nat, mros: seq<seq<Slot>>, out: seq<Slot>)
    requires |mros| > 0 && AllSentinelled(mros)
    requires forall i :: 0 <= i < |mros| ==> Below(g, rank, mros[i], 0, Height(g, rank, x))
    requires (set y | y in out) == Union(mros) && NoDup(out) && Sentinelled(out)
    ensures Sentinelled([Node(x)] + out) && NoDup([Node(x)] + out)
    ensures Below(g, rank, [Node(x)] + out, 1, Height(g, rank, x))
  {
    var h := Height(g, rank, x);
    forall j | 0 <= j < |out| ensures out[j] == End || Height(g, rank, out[j].id) < h {
      OutBelow(g, rank, mros, out, h, j);
    }
    ConsBelow(g, rank, x, out);
  }

  lemma {:induction false} OutBelow(g: Graph, rank: map<nat, nat>, mros: seq<seq<Slot>>, out: seq<Slot>, h: nat, j: nat)
    requires forall i :: 0 <= i < |mros| ==> Below(g, rank, mros[i], 0, h)
    requires (set y | y in out) == Union(mros) && j < |out|
    ensures out[j] == End || Height(g, rank, out[j].id) < h
  {
    assert out[j] in (set y | y in out);
    UnionMem(mros, out[j]);
    var i :| 0 <= i < |mros| && out[j] in mros[i];
    var k :| 0 <= k < |mros[i]| && mros[i][k] == out[j];
  }

  lemma {:induction false} ConsBelow(g: Graph, rank: map<nat, nat>, x: nat, out: seq<Slot>)
    requires Sentinelled(out) && NoDup(out)
    requires forall j :: 0 <= j < |out| ==> out[j] == End || Height(g, rank, out[j].id) < Height(g, rank, x)
    ensures Sentinelled([Node(x)] + out) && NoDup([Node(x)] + out)
    ensures Below(g, rank, [Node(x)] + out, 1, Height(g, rank, x))
  {
    var r := [Node(x)] + out;
    assert r[1..] == out;
    assert r[..|r| - 1] == [Node(x)] + out[..|out| - 1];
  }

  /** Drop the trailing sentinel (c3.py:24-27). */
  function Strip(m: seq<Slot>): (r: seq<nat>)
    requires Sentinelled(m)
    ensures Wrap(r) == m
  {
    assert forall i :: 0 <= i < |m| - 1 ==> m[i] == m[..|m| - 1][i];
    var r: seq<nat> := seq(|m| - 1, i requires 0 <= i < |m| - 1 => m[i].id);
    assert Wrap(r) == m;
    r
  }

  /** A linearization with its sentinel put back. */
  function Wrap(s: seq<nat>): seq<Slot>
  {
    seq(|s|, i requires 0 <= i < |s| => Node(s[i])) + [End]
  }

  /** `c3` (c3.py:6-27): the sentinel-free linearization of `x`, or `NoLegalMro`. */
  function Linearize(g: Graph, ghost rank: map<nat, nat>, x: nat): (r: Result<seq<nat>>)
    requires Ranked(g, rank)
    ensures r.Ok? ==> |r.value| > 0 && r.value[0] == x && NoDup(r.value)
    ensures r.Ok? <==> Lin(g, rank, x).Ok?
    ensures Bases(g, x) == [] ==> r == Ok([x])
    ensures r.Err? ==> r == Err(NoLegalMro)
  {
    match Lin(g, rank, x)
    case Err(e) => Err(e)
    case Ok(m) =>
      StripFacts(m, x);
      Ok(Strip(m))
  }

  lemma {:induction false} StripFacts(m: seq<Slot>, x: nat)
    requires Sentinelled(m) && NoDup(m) && m[0] == Node(x)
    ensures |Strip(m)| > 0 && Strip(m)[0] == x && NoDup(Strip(m))
    ensures m == [Node(x), End] ==> Strip(m) == [x]
  {
    var r := Strip(m);
    assert |r| == |m| - 1;
    assert forall i :: 0 <= i < |r| ==> m[i] == Node(r[i]);
  }

  lemma {:induction false} SubseqUnwrap(a: seq<nat>, b: seq<nat>)
    requires Subseq(Wrap(a), Wrap(b))
    ensures Subseq(a, b)
    decreases |b|
  {
    var A, B := Wrap(a), Wrap(b);
    if b == [] {
      assert B == [End];
      WrapHead(a);
    } else if a != [] {
      WrapHead(a);
      WrapHead(b);
      assert A[1..] == Wrap(a[1..]);
      assert B[1..] == Wrap(b[1..]);
      if a[0] == b[0] {
        SubseqUnwrap(a[1..], b[1..]);
      } else {
        SubseqUnwrap(a, b[1..]);
      }
    }
  }

  lemma {:induction false} WrapHead(a: seq<nat>)
    ensures Wrap(a)[0] == if a == [] then End else Node(a[0])
  {
  }

  /** Each base's linearization is a subsequence of the node's linearization. */
  lemma {:induction false} BaseOrderKept(g: Graph, rank: map<nat, nat>, x: nat, i: nat)
    requires Ranked(g, rank) && Linearize(g, rank, x).Ok? && i < |Bases(g, x)|
    ensures Linearize(g, rank, Bases(g, x)[i]).Ok?
    ensures Subseq(Linearize(g, rank, Bases(g, x)[i]).value, Linearize(g, rank, x).value)
  {
    var bs := Bases(g, x);
    var mros := BaseLins(g, rank, x).value;
    var out := Merge(mros).value;
    assert Lin(g, rank, x).value == [Node(x)] + out;
    assert Lin(g, rank, bs[i]) == Ok(mros[i]);
    MergeKeepsOrder(mros, i);
    SubseqCons(Node(x), mros[i], out);
    SubseqUnwrap(Linearize(g, rank, bs[i]).value, Linearize(g, rank, x).value);
  }

  /** One round of `merge`: output the chosen candidate, then merge what is left. */
  lemma {:induction false} MergeStep(mros: seq<seq<Slot>>, c: Slot)
    requires AllSentinelled(mros) && !AllEmpty(mros) && Pick(mros, 0) == Some(c)
    ensures Shaped(Remove(mros, c))
    ensures Merge(mros) == match Merge(Remove(mros, c))
      case Ok(rest) => Ok([c] + rest)
      case Err(e) => Err(e)
  {
    PickStep(mros, c);
  }

  lemma {:induction false} WrapInjective(a: seq<nat>, b: seq<nat>)
    requires Wrap(a) == Wrap(b)
    ensures a == b
  {
    assert |a| == |b|;
    forall i | 0 <= i < |a| ensures a[i] == b[i] {
      assert Wrap(a)[i] == Node(a[i]) && Wrap(b)[i] == Node(b[i]);
    }
  }

  /** Reading a linearization off the sentinel-terminated list `_c3` produced. */
  lemma {:induction false} LinearizeFromLin(g: Graph, rank: map<nat, nat>, x: nat, l: seq<nat>)
    requires Ranked(g, rank) && Lin(g, rank, x) == Ok(Wrap(l))
    ensures Linearize(g, rank, x) == Ok(l)
  {
    WrapInjective(Strip(Wrap(l)), l);
  }

  /** With a single base the merge passes the base's list through unchanged, so a
      node with one base linearizes to itself followed by that base's list. */
  lemma {:induction false} MergeSingle(l: seq<Slot>)
    requires (l == [] || Sentinelled(l)) && NoDup(l)
    ensures Merge([l]) == Ok(l)
    decreases |l|
  {
    if l != [] {
      var m := [l];
      assert m[1..] == [];
      assert Tail(m[0]) == l[1..];
      assert forall k :: 0 <= k < |l[1..]| ==> l[1..][k] == l[k + 1];
      assert l[0] !in l[1..];
      assert !InTails(m, l[0]);
      assert Pick(m, 0) == Some(l[0]);
      assert Remove(m, l[0]) == [l[1..]];
      var t := l[1..];
      assert t == [] || Sentinelled(t) by {
        if t != [] {
          assert t[..|t| - 1] == l[1..|l| - 1];
        }
      }
      assert NoDup(t) by {
        forall i, j | 0 <= i < j < |t| ensures t[i] != t[j] {
          assert t[i] == l[i + 1] && t[j] == l[j + 1];
        }
      }
      MergeSingle(t);
      MergeStep(m, l[0]);
      assert [l[0]] + t == l;
    }
  }

  /** A node whose bases' lists merge is itself followed by the merge. */
  lemma {:induction false} LinMerged(g: Graph, rank: map<nat, nat>, x: nat, mros: seq<seq<Slot>>, out: seq<Slot>)
    requires Ranked(g, rank) && Bases(g, x) != [] && BaseLins(g, rank, x) == Ok(mros)
    requires Shaped(mros) && Merge(mros) == Ok(out)
    ensures Lin(g, rank, x) == Ok([Node(x)] + out)
  {
  }

  /** The same, read off as the sentinel-free linearization `l`. */
  lemma {:induction false} LinearizeMerged(g: Graph, rank: map<nat, nat>, x: nat, mros: seq<seq<Slot>>, out: seq<Slot>, l: seq<nat>)
    requires Ranked(g, rank) && Bases(g, x) != [] && BaseLins(g, rank, x) == Ok(mros)
    requires Shaped(mros) && MergesTo(mros, out) && Wrap(l) == [Node(x)] + out
    ensures Linearize(g, rank, x) == Ok(l)
  {
    MergesToMerge(mros, out);
    LinMerged(g, rank, x, mros, out);
    LinearizeFromLin(g, rank, x, l);
  }

  /** A node whose bases' lists cannot be merged has no linearization. */
  lemma {:induction false} LinearizeStuck(g: Graph, rank: map<nat, nat>, x: nat, mros: seq<seq<Slot>>)
    requires Ranked(g, rank) && Bases(g, x) != [] && BaseLins(g, rank, x) == Ok(mros)
    requires Shaped(mros) && Merge(mros) == Err(NoLegalMro)
    ensures Linearize(g, rank, x) == Err(NoLegalMro)
  {
  }

  /** The bases' lists, once each base is known to linearize. */
  lemma {:induction false} BaseLinsOf(g: Graph, rank: map<nat, nat>, x: nat, mros: seq<seq<Slot>>)
    requires Ranked(g, rank) && Bases(g, x) != [] && |mros| == |Bases(g, x)|
    requires forall i :: 0 <= i < |mros| ==> Lin(g, rank, Bases(g, x)[i]) == Ok(mros[i])
    ensures BaseLins(g, rank, x) == Ok(mros)
  {
    var r := BaseLins(g, rank, x);
    assert r.Ok?;
    assert forall i :: 0 <= i < |mros| ==> Lin(g, rank, Bases(g, x)[i]) == Ok(r.value[i]);
    assert r.value == mros;
  }

  // ---------------------------------------------------- checking given traces

  predicate NoneEmpty(mros: seq<seq<Slot>>)
  {
    mros == [] || (mros[0] != [] && NoneEmpty(mros[1..]))
  }

  lemma {:induction false} NoneEmptyAt(mros: seq<seq<Slot>>)
    ensures NoneEmpty(mros) <==> forall j :: 0 <= j < |mros| ==> mros[j] != []
  {
    if mros != [] {
      NoneEmptyAt(mros[1..]);
      assert forall j :: 1 <= j < |mros| ==> mros[j] == mros[1..][j - 1];
    }
  }

  /** `cs` is what `merge` outputs on `mros`, checked one round at a time. */
  predicate MergesTo(mros: seq<seq<Slot>>, cs: seq<Slot>)
    decreases |cs|
  {
    if mros == [] || mros[0] == [] then cs == []
    else
      cs != [] && NoneEmpty(mros)
      && (NoneEmptyAt(mros); Pick(mros, 0) == Some(cs[0]))
      && MergesTo(Remove(mros, cs[0]), cs[1..])
  }

  /** `merge` on `mros` outputs `cs` and then finds no free head. */
  predicate StuckAfter(mros: seq<seq<Slot>>, cs: seq<Slot>)
    decreases |cs|
  {
    mros != [] && mros[0] != [] && NoneEmpty(mros)
    && (NoneEmptyAt(mros);
        if cs == [] then Pick(mros, 0) == None
        else Pick(mros, 0) == Some(cs[0]) && StuckAfter(Remove(mros, cs[0]), cs[1..]))
  }

  lemma {:induction false} MergesToMerge(mros: seq<seq<Slot>>, cs: seq<Slot>)
    requires Shaped(mros) && MergesTo(mros, cs)
    ensures Merge(mros) == Ok(cs)
    decreases |cs|
  {
    if mros == [] || mros[0] == [] {
      assert AllEmpty(mros);
    } else {
      NoneEmptyAt(mros);
      assert mros[0] != [] && !AllEmpty(mros) && AllSentinelled(mros);
      var c, next := cs[0], Remove(mros, cs[0]);
      assert Pick(mros, 0) == Some(c) && MergesTo(next, cs[1..]);
      MergeStep(mros, c);
      MergesToMerge(next, cs[1..]);
      assert [c] + cs[1..] == cs;
    }
  }

  lemma {:induction false} StuckAfterMerge(mros: seq<seq<Slot>>, cs: seq<Slot>)
    requires Shaped(mros) && StuckAfter(mros, cs)
    ensures Merge(mros) == Err(NoLegalMro)
    decreases |cs|
  {
    NoneEmptyAt(mros);
    assert !AllEmpty(mros);
    if cs != [] {
      MergeStep(mros, cs[0]);
      StuckAfterMerge(Remove(mros, cs[0]), cs[1..]);
    }
  }

  lemma {:induction false} MergesToStep(mros: seq<seq<Slot>>, c: Slot, rest: seq<Slot>, next: seq<seq<Slot>>)
    requires mros != [] && mros[0] != [] && NoneEmpty(mros)
    requires (NoneEmptyAt(mros); Pick(mros, 0) == Some(c))
    requires Remove(mros, c) == next && MergesTo(next, rest)
    ensures MergesTo(mros, [c] + rest)
  {
    assert ([c] + rest)[1..] == rest;
  }

  lemma {:induction false} StuckAfterStep(mros: seq<seq<Slot>>, c: Slot, rest: seq<Slot>, next: seq<seq<Slot>>)
    requires mros != [] && mros[0] != [] && NoneEmpty(mros)
    requires (NoneEmptyAt(mros); Pick(mros, 0) == Some(c))
    requires Remove(mros, c) == next && StuckAfter(next, rest)
    ensures StuckAfter(mros, [c] + rest)
  {
    assert ([c] + rest)[1..] == rest;
  }

  // ------------------------------------------------- independence and fans

  /** `_c3` only looks at the bases of nodes reachable from `x`: two graphs that agree
      on a set of nodes closed under taking bases give `x` the same list, whatever
      ranks witness that they are acyclic. */
  lemma {:induction false} LinAgree(g1: Graph, r1: map<nat, nat>, g2: Graph, r2: map<nat, nat>, s: set<nat>, x: nat)
    requires Ranked(g1, r1) && Ranked(g2, r2) && x in s
    requires forall y :: y in s ==> Bases(g1, y) == Bases(g2, y)
    requires forall y, i :: y in s && 0 <= i < |Bases(g1, y)| ==> Bases(g1, y)[i] in s
    ensures Lin(g1, r1, x) == Lin(g2, r2, x)
    decreases Height(g1, r1, x)
  {
    var bs := Bases(g1, x);
    assert Bases(g2, x) == bs;
    if bs != [] {
      forall i | 0 <= i < |bs| ensures Lin(g1, r1, bs[i]) == Lin(g2, r2, bs[i]) {
        BaseHeight(g1, r1, x, i);
        LinAgree(g1, r1, g2, r2, s, bs[i]);
      }
      var l1, l2 := BaseLins(g1, r1, x), BaseLins(g2, r2, x);
      if l1.Ok? && l2.Ok? {
        assert |l1.value| == |l2.value|;
        assert forall i :: 0 <= i < |bs| ==> l1.value[i] == l2.value[i];
        assert l1.value == l2.value;
      }
      assert l1 == l2;
    }
  }

  /** The same for the sentinel-free linearization. */
  lemma {:induction false} LinearizeAgree(g1: Graph, r1: map<nat, nat>, g2: Graph, r2: map<nat, nat>, s: set<nat>, x: nat)
    requires Ranked(g1, r1) && Ranked(g2, r2) && x in s
    requires forall y :: y in s ==> Bases(g1, y) == Bases(g2, y)
    requires forall y, i :: y in s && 0 <= i < |Bases(g1, y)| ==> Bases(g1, y)[i] in s
    ensures Linearize(g1, r1, x) == Linearize(g2, r2, x)
  {
    LinAgree(g1, r1, g2, r2, s, x);
  }

  /** Scanning on from position `i` reaches the same candidate as scanning on from
      `j` when every head in between occurs in some tail. */
  lemma {:induction false} PickSkip(mros: seq<seq<Slot>>, j: nat, i: nat)
    requires j <= i <= |mros| && forall k :: 0 <= k < |mros| ==> mros[k] != []
    requires forall k :: j <= k < i ==> InTails(mros, mros[k][0])
    ensures Pick(mros, j) == Pick(mros, i)
    decreases i - j
  {
    if j < i {
      PickSkip(mros, j + 1, i);
    }
  }

  /** `n` copies of one list. */
  function Copies(l: seq<Slot>, n: nat): (r: seq<seq<Slot>>)
    ensures |r| == n && forall i :: 0 <= i < n ==> r[i] == l
  {
    seq(n, i requires 0 <= i < n => l)
  }

  /** Merging copies of one list gives that list back. */
  lemma {:induction false} MergeCopies(l: seq<Slot>, n: nat)
    requires (l == [] || Sentinelled(l)) && NoDup(l) && n > 0
    ensures Shaped(Copies(l, n)) && Merge(Copies(l, n)) == Ok(l)
    decreases |l|
  {
    var m := Copies(l, n);
    if l != [] {
      var t := l[1..];
      assert forall k :: 0 <= k < |t| ==> t[k] == l[k + 1];
      assert l[0] !in t;
      InTailsAt(m, l[0]);
      assert !InTails(m, l[0]);
      assert Pick(m, 0) == Some(l[0]);
      RemoveLength(m, l[0]);
      forall i | 0 <= i < n ensures Remove(m, l[0])[i] == t {
        RemoveAt(m, l[0], i);
      }
      assert Remove(m, l[0]) == Copies(t, n);
      assert t == [] || Sentinelled(t) by {
        if t != [] {
          assert t[..|t| - 1] == l[1..|l| - 1];
        }
      }
      assert NoDup(t) by {
        forall i, j | 0 <= i < j < |t| ensures t[i] != t[j] {
          assert t[i] == l[i + 1] && t[j] == l[j + 1];
        }
      }
      MergeCopies(t, n);
      MergeStep(m, l[0]);
      assert [l[0]] + t == l;
    } else {
      assert AllEmpty(m);
    }
  }

  /** The lists of `n` nodes that all have the single base whose list is `l`, after
      the first `k` of those nodes have been output. */
  function Fan(ss: seq<Slot>, l: seq<Slot>, k: nat): (r: seq<seq<Slot>>)
    ensures |r| == |ss| && forall i :: 0 <= i < |ss| ==> r[i] == if i < k then l else [ss[i]] + l
  {
    seq(|ss|, i requires 0 <= i < |ss| => if i < k then l else [ss[i]] + l)
  }

  lemma {:induction false} FanSentinelled(ss: seq<Slot>, l: seq<Slot>, k: nat)
    requires Sentinelled(l) && forall i :: 0 <= i < |ss| ==> ss[i] !in l
    ensures AllSentinelled(Fan(ss, l, k))
  {
    forall i | 0 <= i < |ss| ensures Sentinelled(Fan(ss, l, k)[i]) {
      if k <= i {
        var e := [ss[i]] + l;
        assert e[..|e| - 1] == [ss[i]] + l[..|l| - 1];
        assert l[|l| - 1] in l;
      }
    }
  }

  /** The first head of the fan that occurs in no tail is the first node not yet output. */
  lemma {:induction false} FanPick(ss: seq<Slot>, l: seq<Slot>, k: nat)
    requires Sentinelled(l) && k < |ss| && forall i :: 0 <= i < |ss| ==> ss[i] !in l
    ensures forall j :: 0 <= j < |ss| ==> Fan(ss, l, k)[j] != []
    ensures Pick(Fan(ss, l, k), 0) == Some(ss[k])
  {
    var m, c := Fan(ss, l, k), ss[k];
    assert m[k] == [c] + l && Tail(m[k]) == l;
    forall j | 0 <= j < k ensures InTails(m, m[j][0]) {
      InTailsAt(m, m[j][0]);
      assert m[j][0] == l[0] && l[0] in Tail(m[k]);
    }
    forall j | 0 <= j < |m| ensures c !in Tail(m[j]) {
      if j < k {
        assert Tail(m[j]) == l[1..];
      } else {
        assert Tail(m[j]) == l;
      }
    }
    InTailsAt(m, c);
    PickSkip(m, 0, k);
  }

  /** Outputting that node moves the fan on by one. */
  lemma {:induction false} FanRemove(ss: seq<Slot>, l: seq<Slot>, k: nat)
    requires Sentinelled(l) && NoDup(ss) && k < |ss| && forall i :: 0 <= i < |ss| ==> ss[i] !in l
    ensures Remove(Fan(ss, l, k), ss[k]) == Fan(ss, l, k + 1)
  {
    var m, c := Fan(ss, l, k), ss[k];
    RemoveLength(m, c);
    forall j | 0 <= j < |m| ensures Remove(m, c)[j] == Fan(ss, l, k + 1)[j] {
      RemoveAt(m, c, j);
      if j < k {
        assert m[j][0] == l[0] && l[0] in l;
      }
    }
  }

  /** Merging copies of the shared list gives it back. */
  lemma {:induction false} FanDone(ss: seq<Slot>, l: seq<Slot>)
    requires Sentinelled(l) && NoDup(l) && 0 < |ss|
    ensures Shaped(Fan(ss, l, |ss|)) && Merge(Fan(ss, l, |ss|)) == Ok(l)
  {
    assert Fan(ss, l, |ss|) == Copies(l, |ss|);
    MergeCopies(l, |ss|);
  }

  /** One round of merging the fan. */
  lemma {:induction false} FanStep(ss: seq<Slot>, l: seq<Slot>, k: nat, rest: seq<Slot>)
    requires Sentinelled(l) && NoDup(ss) && k < |ss| && forall i :: 0 <= i < |ss| ==> ss[i] !in l
    requires Shaped(Fan(ss, l, k + 1)) && Merge(Fan(ss, l, k + 1)) == Ok(rest)
    ensures Shaped(Fan(ss, l, k)) && Merge(Fan(ss, l, k)) == Ok([ss[k]] + rest)
  {
    var m := Fan(ss, l, k);
    FanSentinelled(ss, l, k);
    FanPick(ss, l, k);
    FanRemove(ss, l, k);
    assert m[0] != [] && !AllEmpty(m);
    MergeStep(m, ss[k]);
  }

  lemma {:induction false} ConsSlice<T>(ss: seq<T>, l: seq<T>, k: nat)
    requires k < |ss|
    ensures [ss[k]] + (ss[k + 1..] + l) == ss[k..] + l
  {
  }

  /** Merging the fan outputs the remaining nodes in order, then the shared list. */
  lemma {:induction false} MergeFan(ss: seq<Slot>, l: seq<Slot>, k: nat)
    requires Sentinelled(l) && NoDup(l) && NoDup(ss) && 0 < |ss| && k <= |ss|
    requires forall i :: 0 <= i < |ss| ==> ss[i] !in l
    ensures Shaped(Fan(ss, l, k)) && Merge(Fan(ss, l, k)) == Ok(ss[k..] + l)
    decreases |ss| - k
  {
    if k == |ss| {
      FanDone(ss, l);
      assert ss[k..] + l == l;
    } else {
      MergeFan(ss, l, k + 1);
      FanStep(ss, l, k, ss[k + 1..] + l);
      ConsSlice(ss, l, k);
    }
  }

  /** The nodes of `p`, as entries of a resolution list. */
  function Nodes(p: seq<nat>): (r: seq<Slot>)
    ensures |r| == |p| && forall i :: 0 <= i < |p| ==> r[i] == Node(p[i])
  {
    seq(|p|, i requires 0 <= i < |p| => Node(p[i]))
  }

  lemma {:induction false} WrapAppend(p: seq<nat>, q: seq<nat>)
    ensures Wrap(p + q) == Nodes(p) + Wrap(q)
  {
    var a, b := Wrap(p + q), Nodes(p) + Wrap(q);
    assert |a| == |b|;
    forall i | 0 <= i < |a| ensures a[i] == b[i] {
      if i < |p| {
        assert a[i] == Node((p + q)[i]);
      } else if i < |p + q| {
        assert a[i] == Node(q[i - |p|]) && b[i] == Wrap(q)[i - |p|];
      }
    }
  }

  /** A node with the single base `b` linearizes to itself followed by `b`'s list,
      in which it does not occur. */
  lemma {:induction false} OverSingle(g: Graph, rank: map<nat, nat>, y: nat, b: nat)
    requires Ranked(g, rank) && Bases(g, y) == [b] && Lin(g, rank, b).Ok?
    ensures Lin(g, rank, y) == Ok([Node(y)] + Lin(g, rank, b).value)
    ensures Node(y) !in Lin(g, rank, b).value
  {
    var l := Lin(g, rank, b).value;
    BaseLinsOf(g, rank, y, [l]);
    MergeSingle(l);
    LinMerged(g, rank, y, [l], l);
    BaseHeight(g, rank, y, 0);
    forall j | 0 <= j < |l| ensures l[j] != Node(y) {
      if j == 0 {
        assert l[0] == Node(b);
      }
    }
  }

  /** The bases' lists of such a node form a fan over `b`'s list. */
  lemma {:induction false} FanBaseLins(g: Graph, rank: map<nat, nat>, x: nat, b: nat)
    requires Ranked(g, rank) && Bases(g, x) != [] && NoDup(Bases(g, x))
    requires forall i :: 0 <= i < |Bases(g, x)| ==> Bases(g, Bases(g, x)[i]) == [b]
    requires Lin(g, rank, b).Ok?
    ensures NoDup(Nodes(Bases(g, x)))
    ensures forall i :: 0 <= i < |Bases(g, x)| ==> Nodes(Bases(g, x))[i] !in Lin(g, rank, b).value
    ensures BaseLins(g, rank, x) == Ok(Fan(Nodes(Bases(g, x)), Lin(g, rank, b).value, 0))
  {
    var bs := Bases(g, x);
    var l := Lin(g, rank, b).value;
    var ss := Nodes(bs);
    forall i | 0 <= i < |bs| ensures Lin(g, rank, bs[i]) == Ok([ss[i]] + l) && ss[i] !in l {
      OverSingle(g, rank, bs[i], b);
    }
    assert NoDup(ss) by {
      forall i, j | 0 <= i < j < |ss| ensures ss[i] != ss[j] {
        assert bs[i] != bs[j];
      }
    }
    BaseLinsOf(g, rank, x, Fan(ss, l, 0));
  }

  lemma {:induction false} FanWrap(x: nat, bs: seq<nat>, lb: seq<nat>)
    ensures Wrap([x] + bs + lb) == [Node(x)] + (Nodes(bs)[0..] + Wrap(lb))
  {
    WrapAppend([x] + bs, lb);
    assert Nodes([x] + bs) == [Node(x)] + Nodes(bs);
    assert Nodes(bs)[0..] == Nodes(bs);
  }

  /** A node with the single base `b` linearizes to itself, then `b`'s list; it
      has no linearization when `b` has none. */
  lemma {:induction false} LinearizeSingle(g: Graph, rank: map<nat, nat>, y: nat, b: nat)
    requires Ranked(g, rank) && Bases(g, y) == [b]
    ensures Linearize(g, rank, b).Ok? ==> Linearize(g, rank, y) == Ok([y] + Linearize(g, rank, b).value)
    ensures Linearize(g, rank, b).Err? ==> Linearize(g, rank, y) == Err(NoLegalMro)
  {
    if Linearize(g, rank, b).Ok? {
      var lb := Linearize(g, rank, b).value;
      assert Wrap(lb) == Lin(g, rank, b).value;
      OverSingle(g, rank, y, b);
      WrapAppend([y], lb);
      assert Nodes([y]) == [Node(y)];
      LinearizeFromLin(g, rank, y, [y] + lb);
    } else {
      assert Lin(g, rank, Bases(g, y)[0]).Err?;
    }
  }

  /** A node whose bases all have the single base `b` linearizes to itself, then its
      bases in declared order, then `b`'s linearization. */
  lemma {:induction false} LinearizeFan(g: Graph, rank: map<nat, nat>, x: nat, b: nat, lb: seq<nat>)
    requires Ranked(g, rank) && Bases(g, x) != [] && NoDup(Bases(g, x))
    requires forall i :: 0 <= i < |Bases(g, x)| ==> Bases(g, Bases(g, x)[i]) == [b]
    requires Linearize(g, rank, b) == Ok(lb)
    ensures Linearize(g, rank, x) == Ok([x] + Bases(g, x) + lb)
  {
    var l := Lin(g, rank, b).value;
    assert Wrap(lb) == l;
    var ss := Nodes(Bases(g, x));
    FanBaseLins(g, rank, x, b);
    MergeFan(ss, l, 0);
    LinMerged(g, rank, x, Fan(ss, l, 0), ss[0..] + l);
    FanWrap(x, Bases(g, x), lb);
    LinearizeFromLin(g, rank, x, [x] + Bases(g, x) + lb);
  }

  /** Every node of `x`'s list is reachable from `x` through bases: it lies in any
      set that holds `x` and is closed under taking bases. */
  lemma {:induction false} LinClosed(g: Graph, rank: map<nat, nat>, s: set<nat>, x: nat)
    requires Ranked(g, rank) && x in s && Lin(g, rank, x).Ok?
    requires forall y, i :: y in s && 0 <= i < |Bases(g, y)| ==> Bases(g, y)[i] in s
    ensures forall j :: 0 <= j < |Lin(g, rank, x).value| ==> Lin(g, rank, x).value[j] == End || Lin(g, rank, x).value[j].id in s
    decreases Height(g, rank, x)
  {
    var bs := Bases(g, x);
    var l := Lin(g, rank, x).value;
    if bs != [] {
      var mros := BaseLins(g, rank, x).value;
      var out := Merge(mros).value;
      assert l == [Node(x)] + out;
      forall j | 0 < j < |l| && l[j] != End ensures l[j].id in s {
        assert l[j] == out[j - 1] && out[j - 1] in (set y | y in out);
        UnionMem(mros, l[j]);
        var i :| 0 <= i < |mros| && l[j] in mros[i];
        BaseHeight(g, rank, x, i);
        LinClosed(g, rank, s, bs[i]);
        assert Lin(g, rank, bs[i]) == Ok(mros[i]);
      }
    }
  }

  /** The same for the sentinel-free linearization. */
  lemma {:induction false} LinearizeClosed(g: Graph, rank: map<nat, nat>, s: set<nat>, x: nat)
    requires Ranked(g, rank) && x in s && Linearize(g, rank, x).Ok?
    requires forall y, i :: y in s && 0 <= i < |Bases(g, y)| ==> Bases(g, y)[i] in s
    ensures forall j :: 0 <= j < |Linearize(g, rank, x).value| ==> Linearize(g, rank, x).value[j] in s
  {
    LinClosed(g, rank, s, x);
    var l := Linearize(g, rank, x).value;
    assert Wrap(l) == Lin(g, rank, x).value;
    forall j | 0 <= j < |l| ensures l[j] in s {
      assert Wrap(l)[j] == Node(l[j]);
    }
  }
}
