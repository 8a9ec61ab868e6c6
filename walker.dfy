/** SCons.Node.Walker: an iterative post-order walk of the dependency
    graph with an explicit stack, a history set of the nodes on the stack
    that stops the walk from descending into a cycle, and callbacks for
    cycles and for each node returned.  The children function is a map from
    a node to its children (none when absent); the parent argument that
    kids_func receives is not used by it. */
module NodeWalker {
  import opened Errors
  import opened Seqs

  function KidsOf<N>(kids: map<N, seq<N>>, n: N): seq<N>
  {
    if n in kids then kids[n] else []
  }

  /** Every node the walk can reach: the root and every listed child. */
  ghost function Reach<N>(root: N, kids: map<N, seq<N>>): set<N>
  {
    {root} + (set k, x | k in kids && x in kids[k] :: x)
  }

  /** A frame's pending list is what is left of its node's children. */
  ghost predicate Suffix<N>(w: seq<N>, ks: seq<N>)
  {
    |w| <= |ks| && w == ks[|ks| - |w|..]
  }

  /** The child a frame consumed last is `next`. */
  ghost predicate LastTaken<N>(w: seq<N>, ks: seq<N>, next: N)
  {
    |ks| - |w| >= 1 && ks[|ks| - |w| - 1] == next
  }

  /** Every child a frame has consumed is in `anc` (the frame's node and
      its ancestors: a cycle, not descended into), or is the last one taken
      while a frame sits above (`above`), or is in `recent` (returned since
      the frame was pushed). */
  ghost predicate FrameDone<N>(w: seq<N>, ks: seq<N>, anc: seq<N>, above: bool, recent: seq<N>)
  {
    forall j :: 0 <= j < |ks| - |w| && j < |ks| ==>
      ks[j] in anc || (above && j == |ks| - |w| - 1) || ks[j] in recent
  }

  /** Frame i's pending list is what is left of its node's children. */
  ghost predicate SuffixAt<N>(kids: map<N, seq<N>>, stack: seq<N>, wkids: seq<seq<N>>, i: int)
  {
    0 <= i < |stack| && i < |wkids| && Suffix(wkids[i], KidsOf(kids, stack[i]))
  }

  /** The frame above frame i is the child frame i took last. */
  ghost predicate LinkAt<N>(kids: map<N, seq<N>>, stack: seq<N>, wkids: seq<seq<N>>, i: int)
  {
    0 <= i && i + 1 < |stack| && i < |wkids| && LastTaken(wkids[i], KidsOf(kids, stack[i]), stack[i + 1])
  }

  /** Frame i is done: every child it consumed is its node or an ancestor,
      or the frame above, or was returned since the frame was pushed
      (starts[i] is how many nodes had been returned then). */
  ghost predicate FrameAt<N>(kids: map<N, seq<N>>, stack: seq<N>, wkids: seq<seq<N>>, starts: seq<nat>, output: seq<N>, i: int)
  {
    0 <= i < |stack| && i < |wkids| && i < |starts| && starts[i] <= |output| &&
    FrameDone(wkids[i], KidsOf(kids, stack[i]), stack[..i + 1], i + 1 < |stack|, output[starts[i]..])
  }

  /** The walk's invariant: the stack has no repeats, the frames are
      linked, and every frame is done. */
  ghost predicate WalkInv<N>(kids: map<N, seq<N>>, stack: seq<N>, wkids: seq<seq<N>>,
                             starts: seq<nat>, output: seq<N>)
  {
    |wkids| == |stack| && |starts| == |stack| && NoDup(stack) &&
    (forall i :: 0 <= i < |stack| ==> SuffixAt(kids, stack, wkids, i)) &&
    (forall i :: 0 <= i < |stack| - 1 ==> LinkAt(kids, stack, wkids, i)) &&
    (forall i :: 0 <= i < |stack| ==> FrameAt(kids, stack, wkids, starts, output, i))
  }

  /** Taking the next child off a frame keeps its list a suffix. */
  lemma SuffixTail<N>(w: seq<N>, ks: seq<N>)
    requires Suffix(w, ks) && w != []
    ensures Suffix(w[1..], ks) && LastTaken(w[1..], ks, w[0])
  {
    assert w[1..] == ks[|ks| - |w| + 1..];
  }

  /** Taking a child that is in `anc` keeps the frame done. */
  lemma FrameTakeKnown<N>(w: seq<N>, ks: seq<N>, anc: seq<N>, recent: seq<N>)
    requires Suffix(w, ks) && w != [] && w[0] in anc
    requires FrameDone(w, ks, anc, false, recent)
    ensures FrameDone(w[1..], ks, anc, false, recent)
  {
    assert ks[|ks| - |w|] == w[0];
  }

  /** Taking a child and pushing it: it is the frame just above. */
  lemma FrameTakePushed<N>(w: seq<N>, ks: seq<N>, anc: seq<N>, recent: seq<N>)
    requires Suffix(w, ks) && w != []
    requires FrameDone(w, ks, anc, false, recent)
    ensures FrameDone(w[1..], ks, anc, true, recent)
  {
  }

  /** Nodes returned later only add to what a frame may rely on. */
  lemma FrameGrow<N>(w: seq<N>, ks: seq<N>, anc: seq<N>, above: bool, recent: seq<N>, n: N)
    requires FrameDone(w, ks, anc, above, recent)
    ensures FrameDone(w, ks, anc, above, recent + [n])
  {
    forall j | 0 <= j < |ks| - |w| && j < |ks| && ks[j] in recent
      ensures ks[j] in recent + [n]
    {
      var k :| 0 <= k < |recent| && recent[k] == ks[j];
      assert (recent + [n])[k] == ks[j];
    }
  }

  /** Returning the frame above settles the child taken last. */
  lemma FrameChildReturned<N>(w: seq<N>, ks: seq<N>, anc: seq<N>, recent: seq<N>, n: N)
    requires FrameDone(w, ks, anc, true, recent) && LastTaken(w, ks, n)
    ensures FrameDone(w, ks, anc, false, recent + [n])
  {
    FrameGrow(w, ks, anc, true, recent, n);
    assert (recent + [n])[|recent|] == n;
  }

  /** A child taken off a frame is reachable. */
  lemma ChildReachable<N>(kids: map<N, seq<N>>, root: N, p: N, w: seq<N>)
    requires Suffix(w, KidsOf(kids, p)) && w != []
    ensures w[0] in Reach(root, kids)
  {
    var ks := KidsOf(kids, p);
    assert ks[|ks| - |w|] == w[0];
    assert p in kids && w[0] in kids[p];
  }

  /** Taking a child that is already on the stack off the top frame's list
      (the cycle case) keeps the invariant. */
  lemma CycleStep<N>(kids: map<N, seq<N>>, stack: seq<N>, wkids: seq<seq<N>>,
                     starts: seq<nat>, output: seq<N>, w': seq<seq<N>>)
    requires WalkInv(kids, stack, wkids, starts, output)
    requires stack != [] && wkids[|stack| - 1] != [] && wkids[|stack| - 1][0] in stack
    requires w' == wkids[|stack| - 1 := wkids[|stack| - 1][1..]]
    ensures WalkInv(kids, stack, w', starts, output)
  {
    var t := |stack| - 1;
    assert SuffixAt(kids, stack, wkids, t);
    SuffixTail(wkids[t], KidsOf(kids, stack[t]));
    forall i | 0 <= i < |stack| ensures SuffixAt(kids, stack, w', i) {
      if i < t { assert SuffixAt(kids, stack, wkids, i) && w'[i] == wkids[i]; }
    }
    forall i | 0 <= i < |stack| - 1 ensures LinkAt(kids, stack, w', i) {
      assert LinkAt(kids, stack, wkids, i) && w'[i] == wkids[i];
    }
    forall i | 0 <= i < |stack| ensures FrameAt(kids, stack, w', starts, output, i) {
      assert FrameAt(kids, stack, wkids, starts, output, i);
      if i < t {
        assert w'[i] == wkids[i];
      } else {
        assert stack[..t + 1] == stack;
        FrameTakeKnown(wkids[t], KidsOf(kids, stack[t]), stack, output[starts[t]..]);
      }
    }
  }

  /** Pushing a child that is not on the stack keeps the invariant. */
  lemma PushStep<N>(kids: map<N, seq<N>>, stack: seq<N>, wkids: seq<seq<N>>,
                    starts: seq<nat>, output: seq<N>, s': seq<N>, w': seq<seq<N>>, st': seq<nat>)
    requires WalkInv(kids, stack, wkids, starts, output)
    requires stack != [] && wkids[|stack| - 1] != [] && wkids[|stack| - 1][0] !in stack
    requires s' == stack + [wkids[|stack| - 1][0]] && st' == starts + [|output|]
    requires w' == wkids[|stack| - 1 := wkids[|stack| - 1][1..]] + [KidsOf(kids, wkids[|stack| - 1][0])]
    ensures WalkInv(kids, s', w', st', output)
  {
    var t := |stack| - 1;
    var c := wkids[t][0];
    assert SuffixAt(kids, stack, wkids, t);
    SuffixTail(wkids[t], KidsOf(kids, stack[t]));
    assert NoDup(s');
    forall i | 0 <= i < |s'| ensures SuffixAt(kids, s', w', i) {
      if i < t { assert SuffixAt(kids, stack, wkids, i) && w'[i] == wkids[i] && s'[i] == stack[i]; }
    }
    forall i | 0 <= i < |s'| - 1 ensures LinkAt(kids, s', w', i) {
      if i < t { assert LinkAt(kids, stack, wkids, i) && w'[i] == wkids[i] && s'[i] == stack[i] && s'[i + 1] == stack[i + 1]; }
    }
    forall i | 0 <= i < |s'| ensures FrameAt(kids, s', w', st', output, i) {
      if i < t {
        assert FrameAt(kids, stack, wkids, starts, output, i);
        assert w'[i] == wkids[i] && s'[i] == stack[i] && s'[..i + 1] == stack[..i + 1] && st'[i] == starts[i];
      } else if i == t {
        assert FrameAt(kids, stack, wkids, starts, output, i);
        assert s'[..t + 1] == stack;
        FrameTakePushed(wkids[t], KidsOf(kids, stack[t]), stack, output[starts[t]..]);
      }
    }
  }

  /** Popping a frame whose list is empty returns its node: every child of
      it is on the remaining stack, is the node itself, or was returned
      since the node was pushed; the invariant holds with the node added
      to the output. */
  lemma PopStep<N>(kids: map<N, seq<N>>, stack: seq<N>, wkids: seq<seq<N>>,
                   starts: seq<nat>, output: seq<N>, s': seq<N>, w': seq<seq<N>>, st': seq<nat>, o': seq<N>)
    requires WalkInv(kids, stack, wkids, starts, output)
    requires stack != [] && wkids[|stack| - 1] == []
    requires s' == stack[..|stack| - 1] && w' == wkids[..|stack| - 1] && st' == starts[..|stack| - 1]
    requires o' == output + [stack[|stack| - 1]]
    ensures starts[|stack| - 1] <= |output|
    ensures var n := stack[|stack| - 1];
      forall j :: 0 <= j < |KidsOf(kids, n)| ==>
        KidsOf(kids, n)[j] in s' || KidsOf(kids, n)[j] == n || KidsOf(kids, n)[j] in output[starts[|stack| - 1]..]
    ensures WalkInv(kids, s', w', st', o')
  {
    var t := |stack| - 1;
    var n := stack[t];
    assert stack[..t + 1] == stack[..t] + [n];
    assert FrameAt(kids, stack, wkids, starts, output, t);
    assert SuffixAt(kids, stack, wkids, t);
    forall i | 0 <= i < |s'| ensures SuffixAt(kids, s', w', i) {
      assert SuffixAt(kids, stack, wkids, i);
    }
    forall i | 0 <= i < |s'| - 1 ensures LinkAt(kids, s', w', i) {
      assert LinkAt(kids, stack, wkids, i);
    }
    forall i | 0 <= i < |s'| ensures FrameAt(kids, s', w', st', o', i) {
      assert FrameAt(kids, stack, wkids, starts, output, i);
      assert s'[..i + 1] == stack[..i + 1];
      assert o'[st'[i]..] == output[starts[i]..] + [n];
      if i + 1 < t {
        FrameGrow(wkids[i], KidsOf(kids, stack[i]), stack[..i + 1], true, output[starts[i]..], n);
      } else {
        assert LinkAt(kids, stack, wkids, i);
        FrameChildReturned(wkids[i], KidsOf(kids, stack[i]), stack[..i + 1], output[starts[i]..], n);
      }
    }
  }

  /** Each eval_func call names the node returned at that position. */
  ghost predicate EvalsOk<N>(evals: seq<(N, Option<N>)>, output: seq<N>)
  {
    |evals| == |output| && forall i :: 0 <= i < |evals| ==> evals[i].0 == output[i]
  }

  lemma EvalsGrow<N>(evals: seq<(N, Option<N>)>, output: seq<N>, n: N, parent: Option<N>)
    requires EvalsOk(evals, output)
    ensures EvalsOk(evals + [(n, parent)], output + [n])
  {
  }

  /** Each cycle_func call names a node that is on the stack it is given. */
  predicate CyclesOk<N(==)>(cycles: seq<(N, seq<N>)>)
  {
    forall i :: 0 <= i < |cycles| ==> cycles[i].0 in cycles[i].1
  }

  /** The walk's invariant with the history kept equal to the stack's
      nodes, all of them reachable. */
  ghost predicate Inv<N>(kids: map<N, seq<N>>, reach: set<N>, st: seq<N>, wk: seq<seq<N>>, hist: set<N>,
                         sts: seq<nat>, output: seq<N>)
  {
    WalkInv(kids, st, wk, sts, output) && hist == Elems(st) && hist <= reach
  }

  lemma CycleStepInv<N>(kids: map<N, seq<N>>, reach: set<N>, st: seq<N>, wk: seq<seq<N>>, hist: set<N>,
                        sts: seq<nat>, output: seq<N>, wk': seq<seq<N>>)
    requires Inv(kids, reach, st, wk, hist, sts, output)
    requires st != [] && wk[|st| - 1] != [] && wk[|st| - 1][0] in hist
    requires wk' == wk[|st| - 1 := wk[|st| - 1][1..]]
    ensures Inv(kids, reach, st, wk', hist, sts, output)
    ensures |wk'[|st| - 1]| < |wk[|st| - 1]|
  {
    CycleStep(kids, st, wk, sts, output, wk');
  }

  lemma PushStepInv<N>(kids: map<N, seq<N>>, reach: set<N>, root: N, st: seq<N>, wk: seq<seq<N>>, hist: set<N>,
                       sts: seq<nat>, output: seq<N>, st': seq<N>, wk': seq<seq<N>>, hist': set<N>, sts': seq<nat>)
    requires reach == Reach(root, kids)
    requires Inv(kids, reach, st, wk, hist, sts, output)
    requires st != [] && wk[|st| - 1] != [] && wk[|st| - 1][0] !in hist
    requires st' == st + [wk[|st| - 1][0]] && hist' == hist + {wk[|st| - 1][0]} && sts' == sts + [|output|]
    requires wk' == wk[|st| - 1 := wk[|st| - 1][1..]] + [KidsOf(kids, wk[|st| - 1][0])]
    ensures Inv(kids, reach, st', wk', hist', sts', output)
    ensures reach - hist' < reach - hist
  {
    var t := |st| - 1;
    PushStep(kids, st, wk, sts, output, st', wk', sts');
    assert SuffixAt(kids, st, wk, t);
    ChildReachable(kids, root, st[t], wk[t]);
    assert Elems(st') == Elems(st) + {wk[t][0]};
  }

  /** The loop of next() up to the pop: the frame on top takes its next
      child until the top frame's list runs out; a child in the history is
      reported to cycle_func, any other is pushed.  Ends with the stack
      empty only if it started empty. */
  method Descend<N(==)>(kids: map<N, seq<N>>, ghost reach: set<N>, ghost root: N,
                        stack: seq<N>, wkids: seq<seq<N>>, history: set<N>, cycles: seq<(N, seq<N>)>,
                        ghost starts: seq<nat>, ghost output: seq<N>)
    returns (st: seq<N>, wk: seq<seq<N>>, hist: set<N>, cyc: seq<(N, seq<N>)>, ghost sts: seq<nat>)
    requires reach == Reach(root, kids)
    requires Inv(kids, reach, stack, wkids, history, starts, output)
    requires CyclesOk(cycles)
    ensures Inv(kids, reach, st, wk, hist, sts, output)
    ensures CyclesOk(cyc) && |cyc| >= |cycles| && cyc[..|cycles|] == cycles
    ensures stack != [] <==> st != []
    ensures st != [] ==> wk[|st| - 1] == []
  {
    st, wk, hist, cyc, sts := stack, wkids, history, cycles, starts;
    while st != [] && wk[|st| - 1] != []
      invariant Inv(kids, reach, st, wk, hist, sts, output)
      invariant CyclesOk(cyc) && |cyc| >= |cycles| && cyc[..|cycles|] == cycles
      invariant stack != [] <==> st != []
      decreases |reach - hist|, if st == [] then 0 else |wk[|st| - 1]|
    {
      var t := |st| - 1;
      var node := wk[t][0];
      var wk' := wk[t := wk[t][1..]];
      if node in hist {
        var cyc' := cyc + [(node, st)];
        CycleStepInv(kids, reach, st, wk, hist, sts, output, wk');
        assert cyc'[..|cycles|] == cyc[..|cycles|];
        wk, cyc := wk', cyc';
      } else {
        var st', wk'', hist' := st + [node], wk' + [KidsOf(kids, node)], hist + {node};
        ghost var sts' := sts + [|output|];
        PushStepInv(kids, reach, root, st, wk, hist, sts, output, st', wk'', hist', sts');
        st, wk, hist, sts := st', wk'', hist', sts';
      }
    }
  }

  class Walker<N(==)> {
    /** kids_func, as a map from a node to its children. */
    const kids: map<N, seq<N>>
    ghost const root: N
    ghost const reach: set<N>
    var stack: seq<N>
    /** Each frame's children still to walk (the node's wkids). */
    var wkids: seq<seq<N>>
    /** The nodes on the stack. */
    var history: set<N>
    /** Calls of cycle_func: the child found on the stack, and the stack. */
    var cycles: seq<(N, seq<N>)>
    /** Calls of eval_func: the node returned, and its parent if any. */
    var evals: seq<(N, Option<N>)>
    /** Every node returned so far. */
    ghost var output: seq<N>
    ghost var starts: seq<nat>

    ghost predicate Valid()
      reads this
    {
      reach == Reach(root, kids) &&
      Inv(kids, reach, stack, wkids, history, starts, output) &&
      EvalsOk(evals, output) && CyclesOk(cycles)
    }

    constructor (root: N, kids: map<N, seq<N>>)
      ensures Valid()
      ensures this.kids == kids && stack == [root] && wkids == [KidsOf(kids, root)] && history == {root}
      ensures cycles == [] && evals == [] && output == []
    {
      this.kids := kids;
      this.root := root;
      reach := Reach(root, kids);
      stack := [root];
      wkids := [KidsOf(kids, root)];
      history := {root};
      cycles := [];
      evals := [];
      output := [];
      starts := [0];
      new;
      assert Elems(stack) == {root};
    }

    /** next(): the next node of the walk, children before parents, or
        None once the stack is empty.  A child found in the history is
        reported to cycle_func and not pushed.  Every child of the node
        returned is on the remaining stack or is the node itself (a cycle),
        or was returned after the node was pushed (at position pushedAt of
        the output). */
    method Next() returns (r: Option<N>, ghost pushedAt: nat)
      requires Valid()
      modifies this
      ensures Valid()
      ensures r.None? <==> old(stack) == []
      ensures r.None? ==> stack == [] && output == old(output) && evals == old(evals)
      ensures r.Some? ==> output == old(output) + [r.value] && pushedAt <= |old(output)|
      ensures r.Some? ==> evals == old(evals) + [(r.value, if stack == [] then None else Some(stack[|stack| - 1]))]
      ensures r.Some? ==> r.value !in stack
      ensures r.Some? ==> forall j :: 0 <= j < |KidsOf(kids, r.value)| ==>
        KidsOf(kids, r.value)[j] in stack || KidsOf(kids, r.value)[j] == r.value ||
        KidsOf(kids, r.value)[j] in old(output)[pushedAt..]
      ensures |cycles| >= |old(cycles)| && cycles[..|old(cycles)|] == old(cycles)
    {
      pushedAt := 0;
      var st, wk, hist, cyc, sts := Descend(kids, reach, root, stack, wkids, history, cycles, starts, output);
      if st == [] {
        stack, wkids, history, cycles := st, wk, hist, cyc;
        starts := sts;
        return None, pushedAt;
      }
      var t := |st| - 1;
      var node := st[t];
      ghost var o' := output + [node];
      PopStep(kids, st, wk, sts, output, st[..t], wk[..t], sts[..t], o');
      pushedAt := sts[t];
      assert Elems(st[..t]) == hist - {node} by {
        assert st == st[..t] + [node];
      }
      var parent := if t == 0 then None else Some(st[t - 1]);
      EvalsGrow(evals, output, node, parent);
      stack, wkids, history, cycles := st[..t], wk[..t], hist - {node}, cyc;
      starts := sts[..t];
      output := output + [node];
      evals := evals + [(node, parent)];
      return Some(node), pushedAt;
    }

    /** is_done() */
    predicate IsDone()
      reads this
    {
      stack == []
    }
  }
}
