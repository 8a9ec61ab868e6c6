/** SCons.Node: the dependency-graph node.  Each node keeps its edge lists
    (sources, explicit dependencies, ignored dependencies and the scanned
    implicit dependencies), each paired with a set that makes duplicate
    insertion a no-op, plus the build state and the cached build
    information that built() and clear() invalidate. */
module Node {
  import opened Errors
  import opened Seqs

  /** Node states, in the priority order that makes the maximum over the
      children the state of a node without a builder. */
  const NoState: int := 0
  const Pending: int := 1
  const Executing: int := 2
  const UpToDate: int := 3
  const Executed: int := 4
  const Failed: int := 5

  const StateString: map<int, string> :=
    map[0 := "0", 1 := "pending", 2 := "executing", 3 := "up_to_date", 4 := "executed", 5 := "failed"]

  /** The node-info part of a build-info record: the build signature and
      the content signature, each absent until computed. */
  datatype BuildInfo = BuildInfo(bsig: Option<string>, csig: Option<string>)

  /** Which of the four child lists an operation works on. */
  datatype Edge = Sources | Depends | Ignore | Implicit

  /** An element handed to _add_child: a Node, or some other object, shown
      by its str() text and its type. */
  datatype Child = IsNode(node: Node) | NotANode(text: string, typeName: string)

  /** The inputs that scan() takes from global flags and from collaborators
      that are not modelled: the three --implicit-cache switches, the
      stored implicit dependencies after the source factory has turned each
      into a node (None where the factory raised TypeError), and what
      current() answers. */
  datatype ScanContext = ScanContext(
    implicitCache: bool,
    depsChanged: bool,
    depsUnchanged: bool,
    stored: Option<seq<Option<Node>>>,
    isCurrent: bool)

  /** The list _add_child leaves behind: each element of batch not yet in
      seen is appended and added to seen, in batch order. */
  function AppendNew<T(==)>(list: seq<T>, seen: set<T>, batch: seq<T>): seq<T>
    decreases |batch|
  {
    if batch == [] then list
    else if batch[0] in seen then AppendNew(list, seen, batch[1..])
    else AppendNew(list + [batch[0]], seen + {batch[0]}, batch[1..])
  }

  /** Appending through the side set keeps the old list as a prefix, adds
      exactly the batch's elements, and never introduces a duplicate. */
  lemma {:induction false} AppendNewProps<T>(list: seq<T>, seen: set<T>, batch: seq<T>)
    requires NoDup(list) && seen == Elems(list)
    ensures var r := AppendNew(list, seen, batch);
      |list| <= |r| && r[..|list|] == list &&
      Elems(r) == Elems(list) + Elems(batch) &&
      NoDup(r) &&
      (|r| == |list| <==> Elems(batch) <= seen)
    decreases |batch|
  {
    if batch != [] {
      var b := batch[0];
      assert Elems(batch) == {b} + Elems(batch[1..]) by {
        assert batch == [b] + batch[1..];
      }
      if b in seen {
        AppendNewProps(list, seen, batch[1..]);
      } else {
        var l2 := list + [b];
        assert Elems(l2) == Elems(list) + {b};
        assert NoDup(l2);
        AppendNewProps(l2, seen + {b}, batch[1..]);
        var r := AppendNew(l2, seen + {b}, batch[1..]);
        assert r[..|list|] == r[..|l2|][..|list|];
      }
    }
  }

  /** The index of the first element that is not a Node, or -1. */
  function FirstBad(batch: seq<Child>): (k: int)
    ensures -1 <= k < |batch|
    ensures k == -1 <==> forall i :: 0 <= i < |batch| ==> batch[i].IsNode?
    ensures k >= 0 ==> batch[k].NotANode? && forall j :: 0 <= j < k ==> batch[j].IsNode?
    decreases |batch|
  {
    if batch == [] then -1
    else if batch[0].NotANode? then 0
    else
      var k := FirstBad(batch[1..]);
      if k == -1 then -1 else k + 1
  }

  /** A non-Node with only Nodes before it is the one FirstBad names. */
  lemma {:induction false} FirstBadAt(batch: seq<Child>, k: nat)
    requires k < |batch| && batch[k].NotANode?
    requires forall j :: 0 <= j < k ==> batch[j].IsNode?
    ensures FirstBad(batch) == k
    decreases k
  {
    if k > 0 {
      FirstBadAt(batch[1..], k - 1);
    }
  }

  /** The first loop of _add_child: the first element that is not a Node. */
  method FirstNonNode(batch: seq<Child>) returns (bad: Option<Child>)
    ensures bad.None? <==> forall i :: 0 <= i < |batch| ==> batch[i].IsNode?
    ensures bad.Some? ==> exists i :: 0 <= i < |batch| && batch[i] == bad.value && bad.value.NotANode? &&
                                     forall j :: 0 <= j < i ==> batch[j].IsNode?
    ensures bad == (if FirstBad(batch) == -1 then None else Some(batch[FirstBad(batch)]))
  {
    var i := 0;
    while i < |batch|
      invariant 0 <= i <= |batch|
      invariant forall j :: 0 <= j < i ==> batch[j].IsNode?
    {
      if batch[i].NotANode? {
        FirstBadAt(batch, i);
        return Some(batch[i]);
      }
      i := i + 1;
    }
    return None;
  }

  function NodesOf(batch: seq<Child>): (r: seq<Node>)
    requires forall i :: 0 <= i < |batch| ==> batch[i].IsNode?
    ensures |r| == |batch| && forall i :: 0 <= i < |batch| ==> r[i] == batch[i].node
  {
    seq(|batch|, i requires 0 <= i < |batch| && batch[i].IsNode? => batch[i].node)
  }

  /** The second loop of _add_child, on a list and its side set. */
  method AppendChildren<T(==)>(list: seq<T>, dict: set<T>, batch: seq<T>) returns (l: seq<T>, d: set<T>, added: bool)
    ensures l == AppendNew(list, dict, batch)
    ensures d == dict + Elems(batch)
    ensures added <==> !(Elems(batch) <= dict)
    ensures NoDup(list) && dict == Elems(list) ==> NoDup(l) && d == Elems(l)
  {
    if NoDup(list) && dict == Elems(list) {
      AppendNewProps(list, dict, batch);
    }
    l, d, added := list, dict, false;
    var i := 0;
    while i < |batch|
      invariant 0 <= i <= |batch|
      invariant AppendNew(l, d, batch[i..]) == AppendNew(list, dict, batch)
      invariant d == dict + Elems(batch[..i])
      invariant added <==> !(Elems(batch[..i]) <= dict)
    {
      var c := batch[i];
      assert batch[i..][0] == c && batch[i..][1..] == batch[i + 1..];
      assert batch[..i + 1] == batch[..i] + [c];
      if c !in d {
        l := l + [c];
        d := d + {c};
        added := true;
      }
      i := i + 1;
    }
    assert batch[..i] == batch;
  }

  /** The loop of children_are_up_to_date: the largest non-zero state, or 0
      when every state is 0. */
  method ChildStateMax(states: seq<int>) returns (state: int)
    ensures (forall i :: 0 <= i < |states| ==> states[i] == 0) ==> state == 0
    ensures (exists i :: 0 <= i < |states| && states[i] != 0) ==>
      state != 0 && state in states && forall i :: 0 <= i < |states| && states[i] != 0 ==> states[i] <= state
  {
    state := 0;
    var i := 0;
    while i < |states|
      invariant 0 <= i <= |states|
      invariant (forall j :: 0 <= j < i ==> states[j] == 0) ==> state == 0
      invariant (exists j :: 0 <= j < i && states[j] != 0) ==>
        state != 0 && state in states[..i] && forall j :: 0 <= j < i && states[j] != 0 ==> states[j] <= state
      invariant state != 0 ==> exists j :: 0 <= j < i && states[j] != 0
    {
      var s := states[i];
      if s != 0 && (state == 0 || s > state) {
        state := s;
      }
      assert states[..i + 1] == states[..i] + [s];
      i := i + 1;
    }
    assert states[..i] == states;
  }

  /** Children in these states leave their parent up to date: all of
      them have no state, or some is up_to_date and none is above it. */
  predicate StatesUpToDate(states: seq<int>)
  {
    (forall i :: 0 <= i < |states| ==> states[i] == NoState) ||
    ((exists i :: 0 <= i < |states| && states[i] == UpToDate) &&
     forall i :: 0 <= i < |states| ==> states[i] <= UpToDate)
  }

  /** The maximum is 0 exactly when every state is 0, and up_to_date
      exactly when some child is up_to_date and none is above it; so a
      pending child next to an up_to_date one does not make the node out
      of date. */
  lemma UpToDateFromMax(states: seq<int>, m: int)
    requires (forall i :: 0 <= i < |states| ==> states[i] == 0) ==> m == 0
    requires (exists i :: 0 <= i < |states| && states[i] != 0) ==>
      m != 0 && m in states && forall i :: 0 <= i < |states| && states[i] != 0 ==> states[i] <= m
    ensures (m == NoState || m == UpToDate) <==> StatesUpToDate(states)
  {
    if exists i :: 0 <= i < |states| && states[i] != 0 {
      var k :| 0 <= k < |states| && states[k] == m;
      if m == UpToDate {
        assert forall i :: 0 <= i < |states| ==> states[i] <= UpToDate;
      }
    }
  }

  /** The test children_are_up_to_date makes of the maximum state. */
  method StatesAreUpToDate(states: seq<int>) returns (b: bool)
    ensures b <==> StatesUpToDate(states)
  {
    var m := ChildStateMax(states);
    UpToDateFromMax(states, m);
    b := m == NoState || m == UpToDate;
  }

  class Node {
    /** str(self) */
    const name: string

    var sources: seq<Node>
    var sourcesDict: set<Node>
    var depends: seq<Node>
    var dependsDict: set<Node>
    var ignore: seq<Node>
    var ignoreDict: set<Node>
    /** None: not scanned yet; Some([]): scanned, nothing found. */
    var implicit: Option<seq<Node>>
    var implicitDict: set<Node>
    var waitingParents: set<Node>
    var state: int
    var hasBuilder: bool
    var sideEffect: bool
    var linked: bool
    /** What the filesystem answers for rexists(). */
    var rexists: bool
    var alwaysBuild: bool
    var binfo: Option<BuildInfo>
    var includes: Option<seq<Node>>
    var foundIncludes: map<string, seq<Node>>
    /** What was last handed to store_info (a no-op in the base class). */
    var storedInfo: Option<BuildInfo>
    /** How many times executor_cleanup has run, directly or through
        _children_reset. */
    var executorCleanups: nat

    /** Each edge list holds no duplicate and its side set holds exactly
        its elements. */
    predicate Valid()
      reads this
    {
      NoDup(sources) && sourcesDict == Elems(sources) &&
      NoDup(depends) && dependsDict == Elems(depends) &&
      NoDup(ignore) && ignoreDict == Elems(ignore) &&
      (implicit.Some? ==> NoDup(implicit.value) && implicitDict == Elems(implicit.value))
    }

    constructor (name: string, hasBuilder: bool, rexists: bool)
      ensures Valid()
      ensures this.name == name && this.hasBuilder == hasBuilder && this.rexists == rexists
      ensures sources == [] && depends == [] && ignore == [] && implicit == None
      ensures waitingParents == {} && state == NoState && !alwaysBuild && !sideEffect && !linked
      ensures binfo == None && includes == None && foundIncludes == map[] && executorCleanups == 0
    {
      this.name := name;
      sources, sourcesDict := [], {};
      depends, dependsDict := [], {};
      ignore, ignoreDict := [], {};
      implicit, implicitDict := None, {};
      waitingParents := {};
      state := NoState;
      this.hasBuilder := hasBuilder;
      sideEffect := false;
      linked := false;
      this.rexists := rexists;
      alwaysBuild := false;
      binfo := None;
      includes := None;
      foundIncludes := map[];
      storedInfo := None;
      executorCleanups := 0;
    }

    function Edges(kind: Edge): seq<Node>
      reads this
    {
      match kind
      case Sources => sources
      case Depends => depends
      case Ignore => ignore
      case Implicit => if implicit.Some? then implicit.value else []
    }

    /** _add_child on one of the four lists: nothing is appended when some
        element is not a Node; otherwise the new elements are appended in
        order, and the executor is reset only if something was added. */
    method AddChild(kind: Edge, batch: seq<Child>) returns (bad: Option<Child>)
      requires Valid()
      requires kind == Implicit ==> implicit.Some?
      modifies this
      ensures Valid()
      ensures bad.None? <==> forall i :: 0 <= i < |batch| ==> batch[i].IsNode?
      ensures bad.Some? ==> bad.value.NotANode? && bad.value in batch
      ensures bad.Some? ==> bad.value == batch[FirstBad(batch)]
      ensures bad.Some? ==> Edges(kind) == old(Edges(kind)) && executorCleanups == old(executorCleanups)
      ensures bad.None? ==> Edges(kind) == AppendNew(old(Edges(kind)), Elems(old(Edges(kind))), NodesOf(batch))
      ensures bad.None? ==> (executorCleanups ==
        old(executorCleanups) + (if Elems(NodesOf(batch)) <= Elems(old(Edges(kind))) then 0 else 1))
      ensures kind != Sources ==> sources == old(sources)
      ensures kind != Depends ==> depends == old(depends)
      ensures kind != Ignore ==> ignore == old(ignore)
      ensures kind != Implicit ==> implicit == old(implicit)
      ensures implicit.Some? == old(implicit).Some?
      ensures waitingParents == old(waitingParents) && state == old(state) && binfo == old(binfo)
      ensures hasBuilder == old(hasBuilder) && includes == old(includes)
    {
      bad := FirstNonNode(batch);
      if bad.Some? {
        return;
      }
      AddNodes(kind, NodesOf(batch));
    }

    /** The appending half of _add_child. */
    method AddNodes(kind: Edge, nodes: seq<Node>)
      requires Valid()
      requires kind == Implicit ==> implicit.Some?
      modifies this
      ensures Valid()
      ensures Edges(kind) == AppendNew(old(Edges(kind)), Elems(old(Edges(kind))), nodes)
      ensures executorCleanups ==
        old(executorCleanups) + (if Elems(nodes) <= Elems(old(Edges(kind))) then 0 else 1)
      ensures kind != Sources ==> sources == old(sources)
      ensures kind != Depends ==> depends == old(depends)
      ensures kind != Ignore ==> ignore == old(ignore)
      ensures kind != Implicit ==> implicit == old(implicit)
      ensures implicit.Some? == old(implicit).Some?
      ensures waitingParents == old(waitingParents) && state == old(state) && binfo == old(binfo)
      ensures hasBuilder == old(hasBuilder) && includes == old(includes)
    {
      var l, d, added := AppendChildren(Edges(kind), EdgeDict(kind), nodes);
      SetEdges(kind, l, d);
      if added {
        executorCleanups := executorCleanups + 1;
      }
    }

    /** The side set kept beside each edge list. */
    function EdgeDict(kind: Edge): set<Node>
      reads this
    {
      match kind
      case Sources => sourcesDict
      case Depends => dependsDict
      case Ignore => ignoreDict
      case Implicit => implicitDict
    }

    /** Stores a new edge list and its side set. */
    method SetEdges(kind: Edge, l: seq<Node>, d: set<Node>)
      requires Valid() && NoDup(l) && d == Elems(l)
      requires kind == Implicit ==> implicit.Some?
      modifies this
      ensures Valid()
      ensures Edges(kind) == l
      ensures kind != Sources ==> sources == old(sources)
      ensures kind != Depends ==> depends == old(depends)
      ensures kind != Ignore ==> ignore == old(ignore)
      ensures kind != Implicit ==> implicit == old(implicit)
      ensures implicit.Some? == old(implicit).Some?
      ensures waitingParents == old(waitingParents) && state == old(state) && binfo == old(binfo)
      ensures hasBuilder == old(hasBuilder) && includes == old(includes)
      ensures executorCleanups == old(executorCleanups)
    {
      match kind {
        case Sources => sources, sourcesDict := l, d;
        case Depends => depends, dependsDict := l, d;
        case Ignore => ignore, ignoreDict := l, d;
        case Implicit => implicit, implicitDict := Some(l), d;
      }
    }

    /** add_source: a non-Node becomes a UserError naming this node. */
    method AddSource(batch: seq<Child>) returns (err: Option<Error>)
      requires Valid()
      modifies this
      ensures Valid()
      ensures err.None? <==> forall i :: 0 <= i < |batch| ==> batch[i].IsNode?
      ensures err.Some? ==> sources == old(sources) && exists c :: (c in batch && c.NotANode? &&
        err.value == UserError("attempted to add a non-Node as source of " + name + ":\n\t" + c.text + " is a " + c.typeName + ", not a Node"))
      ensures err.Some? ==> var c := batch[FirstBad(batch)];
        err.value == UserError("attempted to add a non-Node as source of " + name + ":\n\t" + c.text + " is a " + c.typeName + ", not a Node")
      ensures err.None? ==> sources == AppendNew(old(sources), Elems(old(sources)), NodesOf(batch))
      ensures depends == old(depends) && ignore == old(ignore) && implicit == old(implicit)
    {
      var bad := AddChild(Sources, batch);
      if bad.Some? {
        var c := bad.value;
        err := Some(UserError("attempted to add a non-Node as source of " + name + ":\n\t" + c.text + " is a " + c.typeName + ", not a Node"));
      } else {
        err := None;
      }
    }

    /** add_dependency */
    method AddDependency(batch: seq<Child>) returns (err: Option<Error>)
      requires Valid()
      modifies this
      ensures Valid()
      ensures err.None? <==> forall i :: 0 <= i < |batch| ==> batch[i].IsNode?
      ensures err.Some? ==> depends == old(depends) && exists c :: (c in batch && c.NotANode? &&
        err.value == UserError("attempted to add a non-Node dependency to " + name + ":\n\t" + c.text + " is a " + c.typeName + ", not a Node"))
      ensures err.Some? ==> var c := batch[FirstBad(batch)];
        err.value == UserError("attempted to add a non-Node dependency to " + name + ":\n\t" + c.text + " is a " + c.typeName + ", not a Node")
      ensures err.None? ==> depends == AppendNew(old(depends), Elems(old(depends)), NodesOf(batch))
      ensures sources == old(sources) && ignore == old(ignore) && implicit == old(implicit)
    {
      var bad := AddChild(Depends, batch);
      if bad.Some? {
        var c := bad.value;
        err := Some(UserError("attempted to add a non-Node dependency to " + name + ":\n\t" + c.text + " is a " + c.typeName + ", not a Node"));
      } else {
        err := None;
      }
    }

    /** add_ignore */
    method AddIgnore(batch: seq<Child>) returns (err: Option<Error>)
      requires Valid()
      modifies this
      ensures Valid()
      ensures err.None? <==> forall i :: 0 <= i < |batch| ==> batch[i].IsNode?
      ensures err.Some? ==> ignore == old(ignore) && exists c :: (c in batch && c.NotANode? &&
        err.value == UserError("attempted to ignore a non-Node dependency of " + name + ":\n\t" + c.text + " is a " + c.typeName + ", not a Node"))
      ensures err.Some? ==> var c := batch[FirstBad(batch)];
        err.value == UserError("attempted to ignore a non-Node dependency of " + name + ":\n\t" + c.text + " is a " + c.typeName + ", not a Node")
      ensures err.None? ==> ignore == AppendNew(old(ignore), Elems(old(ignore)), NodesOf(batch))
      ensures sources == old(sources) && depends == old(depends) && implicit == old(implicit)
    {
      var bad := AddChild(Ignore, batch);
      if bad.Some? {
        var c := bad.value;
        err := Some(UserError("attempted to ignore a non-Node dependency of " + name + ":\n\t" + c.text + " is a " + c.typeName + ", not a Node"));
      } else {
        err := None;
      }
    }

    /** add_to_implicit: an unscanned node first gets an empty implicit
        list (and an executor reset); a non-Node escapes as TypeError. */
    method AddToImplicit(batch: seq<Child>) returns (err: Option<Error>)
      requires Valid()
      modifies this
      ensures Valid()
      ensures implicit.Some?
      ensures err.None? <==> forall i :: 0 <= i < |batch| ==> batch[i].IsNode?
      ensures err.Some? ==> (err.value.TypeError? &&
        implicit == (if old(implicit).Some? then old(implicit) else Some([])))
      ensures err.Some? ==> err.value == TypeError(batch[FirstBad(batch)].text)
      ensures err.None? ==> old(implicit).Some? ==>
        implicit.value == AppendNew(old(implicit).value, Elems(old(implicit).value), NodesOf(batch))
      ensures err.None? ==> old(implicit).None? ==> implicit.value == AppendNew([], {}, NodesOf(batch))
      ensures sources == old(sources) && depends == old(depends) && ignore == old(ignore)
    {
      if implicit.None? {
        implicit, implicitDict := Some([]), {};
        executorCleanups := executorCleanups + 1;
      }
      var bad := AddChild(Implicit, batch);
      if bad.Some? {
        err := Some(TypeError(bad.value.text));
      } else {
        err := None;
      }
    }

    /** scan(): a scanned node is left alone; otherwise the implicit list
        starts empty, and only a node with a builder goes on to the
        --implicit-cache branch, which reuses the stored dependencies unless
        they are out of date.  The executor's own scan of the sources is
        not modelled (see README). */
    method Scan(ctx: ScanContext)
      requires Valid()
      modifies this
      ensures Valid()
      ensures implicit.Some?
      ensures old(implicit).Some? ==> (implicit == old(implicit) && implicitDict == old(implicitDict) &&
        executorCleanups == old(executorCleanups) && binfo == old(binfo))
      ensures old(implicit).None? && !hasBuilder ==> implicit == Some([])
      ensures old(implicit).None? && hasBuilder ==>
        if ctx.implicitCache && !ctx.depsChanged && ctx.stored.Some? then
          if ctx.depsUnchanged || ctx.isCurrent then
            implicit == Some(AppendNew([], {}, Present(ctx.stored.value))) && binfo == old(binfo)
          else implicit == Some([]) && binfo == None
        else implicit == Some([]) && binfo == old(binfo)
      ensures sources == old(sources) && depends == old(depends) && ignore == old(ignore)
      ensures hasBuilder == old(hasBuilder) && state == old(state) && waitingParents == old(waitingParents)
      ensures alwaysBuild == old(alwaysBuild) && sideEffect == old(sideEffect) && rexists == old(rexists)
    {
      var imp, dict, cleanups, bi := implicit, implicitDict, executorCleanups, binfo;
      if imp.None? {
        imp, dict, cleanups := Some([]), {}, cleanups + 1;
        if hasBuilder && ctx.implicitCache && !ctx.depsChanged && ctx.stored.Some? {
          var nodes := Present(ctx.stored.value);
          var l, d, added := AppendChildren([], {}, nodes);
          imp, dict := Some(l), d;
          if added {
            cleanups := cleanups + 1;
          }
          if !(ctx.depsUnchanged || ctx.isCurrent) {
            imp, dict, cleanups, bi := Some([]), {}, cleanups + 1, None;
          }
        }
      }
      implicit, implicitDict, executorCleanups, binfo := imp, dict, cleanups, bi;
    }

    /** clear(): every cached value of the node is dropped. */
    method Clear()
      modifies this
      ensures implicit == None && binfo == None && includes == None && foundIncludes == map[]
      ensures executorCleanups == old(executorCleanups) + 1
      ensures sources == old(sources) && depends == old(depends) && ignore == old(ignore)
      ensures sourcesDict == old(sourcesDict) && dependsDict == old(dependsDict) && ignoreDict == old(ignoreDict)
      ensures waitingParents == old(waitingParents) && state == old(state) && storedInfo == old(storedInfo)
      ensures implicitDict == old(implicitDict) && hasBuilder == old(hasBuilder) && sideEffect == old(sideEffect)
      ensures linked == old(linked) && rexists == old(rexists) && alwaysBuild == old(alwaysBuild)
      ensures old(Valid()) ==> Valid()
    {
      executorCleanups := executorCleanups + 1;
      binfo := None;
      includes := None;
      foundIncludes := map[];
      implicit := None;
    }

    /** built(): every waiting parent must be rescanned and loses its build
        info; then this node is cleared, and build info it had before is
        stored again, with a recomputed content signature (newCsig, from the
        signature calculator) when it carried one. */
    method Built(newCsig: string)
      modifies this, waitingParents
      ensures forall p :: p in old(waitingParents) ==> p.implicit == None && p.binfo == None
      ensures forall p :: p in old(waitingParents) && p != this ==> OnlyScanReset(p)
      ensures state == old(state) && waitingParents == old(waitingParents)
      ensures sourcesDict == old(sourcesDict) && dependsDict == old(dependsDict) && ignoreDict == old(ignoreDict)
      ensures implicitDict == old(implicitDict) && executorCleanups == old(executorCleanups) + 1
      ensures hasBuilder == old(hasBuilder) && sideEffect == old(sideEffect) && linked == old(linked)
      ensures rexists == old(rexists) && alwaysBuild == old(alwaysBuild)
      ensures old(binfo).None? || this in old(waitingParents) ==> storedInfo == old(storedInfo)
      ensures implicit == None && includes == None && foundIncludes == map[]
      ensures var before := if this in old(waitingParents) then None else old(binfo);
        binfo == (if before.None? then None
                  else if before.value.csig.Some? then Some(BuildInfo(None, Some(newCsig)))
                  else before) &&
        (before.Some? ==> storedInfo == binfo)
      ensures sources == old(sources) && depends == old(depends) && ignore == old(ignore)
      ensures old(Valid()) ==> Valid()
    {
      ResetWaitingParents();
      ClearAndStore(newCsig);
    }

    /** The second half of built(): the node is cleared, and the build info
        it held is stored again, its content signature recomputed. */
    method ClearAndStore(newCsig: string)
      modifies this
      ensures state == old(state) && waitingParents == old(waitingParents)
      ensures sourcesDict == old(sourcesDict) && dependsDict == old(dependsDict) && ignoreDict == old(ignoreDict)
      ensures implicitDict == old(implicitDict) && executorCleanups == old(executorCleanups) + 1
      ensures hasBuilder == old(hasBuilder) && sideEffect == old(sideEffect) && linked == old(linked)
      ensures rexists == old(rexists) && alwaysBuild == old(alwaysBuild)
      ensures implicit == None && includes == None && foundIncludes == map[]
      ensures binfo == (if old(binfo).None? then None
                        else if old(binfo).value.csig.Some? then Some(BuildInfo(None, Some(newCsig)))
                        else old(binfo))
      ensures storedInfo == (if old(binfo).None? then old(storedInfo) else binfo)
      ensures sources == old(sources) && depends == old(depends) && ignore == old(ignore)
      ensures old(Valid()) ==> Valid()
    {
      var new_ := binfo;
      Clear();
      if new_.Some? {
        if new_.value.csig.Some? {
          binfo := Some(BuildInfo(None, Some(newCsig)));
        } else {
          binfo := new_;
        }
        storedInfo := binfo;
      }
    }

    /** What built() does to a waiting parent: it is to be rescanned and
        loses its build info, and nothing else about it changes. */
    twostate predicate OnlyScanReset(p: Node)
      reads p
    {
      p.sources == old(p.sources) && p.sourcesDict == old(p.sourcesDict) &&
      p.depends == old(p.depends) && p.dependsDict == old(p.dependsDict) &&
      p.ignore == old(p.ignore) && p.ignoreDict == old(p.ignoreDict) &&
      p.implicitDict == old(p.implicitDict) && p.waitingParents == old(p.waitingParents) &&
      p.state == old(p.state) && p.hasBuilder == old(p.hasBuilder) && p.sideEffect == old(p.sideEffect) &&
      p.linked == old(p.linked) && p.rexists == old(p.rexists) && p.alwaysBuild == old(p.alwaysBuild) &&
      p.includes == old(p.includes) && p.foundIncludes == old(p.foundIncludes) &&
      p.storedInfo == old(p.storedInfo) && p.executorCleanups == old(p.executorCleanups)
    }

    /** The loop of built() over the waiting parents. */
    method ResetWaitingParents()
      modifies waitingParents
      ensures forall p :: p in old(waitingParents) ==> p.implicit == None && p.binfo == None && OnlyScanReset(p)
    {
      var ps := waitingParents;
      while ps != {}
        invariant ps <= old(waitingParents)
        invariant forall p :: p in old(waitingParents) - ps ==> p.implicit == None && p.binfo == None
        invariant forall p :: p in old(waitingParents) ==> OnlyScanReset(p)
        decreases ps
      {
        var p :| p in ps;
        p.ResetScan();
        ps := ps - {p};
      }
    }

    /** parent.implicit = None; parent.del_binfo() */
    method ResetScan()
      modifies this
      ensures implicit == None && binfo == None && OnlyScanReset(this)
    {
      implicit := None;
      binfo := None;
    }

    /** add_to_waiting_parents */
    method AddToWaitingParents(parent: Node)
      modifies this
      ensures waitingParents == old(waitingParents) + {parent}
    {
      waitingParents := waitingParents + {parent};
    }

    predicate IsDerived()
      reads this
    {
      hasBuilder || sideEffect
    }

    /** is_pseudo_derived: always false for the base class. */
    predicate IsPseudoDerived()
      reads this
    {
      false
    }

    /** missing(): a source that is not derived in any sense, not linked to
        a build directory and does not exist locally or in a repository. */
    predicate Missing()
      reads this
    {
      !IsDerived() && !IsPseudoDerived() && !linked && !rexists
    }

    /** _all_children_get */
    function AllChildren(): (r: seq<Node>)
      reads this
      ensures r == sources + depends + Edges(Implicit)
    {
      if implicit.None? then sources + depends else sources + depends + implicit.value
    }

    /** _children_get: the children with every ignored node filtered out,
        the order kept. */
    function ChildrenGet(): (r: seq<Node>)
      reads this
      ensures forall i :: 0 <= i < |r| ==> r[i] in AllChildren() && r[i] !in ignore
      ensures forall i :: 0 <= i < |AllChildren()| && AllChildren()[i] !in ignore ==> AllChildren()[i] in r
    {
      if ignore != [] then Without(AllChildren(), ignore) else AllChildren()
    }

    /** children() is the sources, then the dependencies, then the implicit
        dependencies (when scanned), each with the ignored nodes left out. */
    lemma ChildrenOrder()
      ensures ChildrenGet() ==
        Without(sources, ignore) + Without(depends, ignore) + Without(Edges(Implicit), ignore)
    {
      WithoutNothing(sources);
      WithoutNothing(depends);
      WithoutNothing(Edges(Implicit));
      WithoutAppend(sources, depends, ignore);
      WithoutAppend(sources + depends, Edges(Implicit), ignore);
      WithoutAppend(sources, depends, []);
      WithoutAppend(sources + depends, Edges(Implicit), []);
      assert AllChildren() == sources + depends + Edges(Implicit);
    }

    /** children(): scan, then _children_get. */
    method Children(ctx: ScanContext) returns (r: seq<Node>)
      requires Valid()
      modifies this
      ensures Valid() && implicit.Some?
      ensures r == ChildrenGet()
    {
      Scan(ctx);
      r := ChildrenGet();
    }

    /** calc_signature: a derived node uses its build signature when the
        environment says so; a node that does not exist has none; otherwise
        the content signature, computed by the calculator (csig) only when
        not cached.  Without a stored build signature get_bsig falls back
        on gen_binfo, which scans the node first; genBsig is the signature
        gen_binfo computes. */
    method CalcSignature(ctx: ScanContext, useBuildSignature: bool, genBsig: string, csig: string) returns (r: Option<string>)
      requires Valid()
      modifies this
      ensures Valid()
      ensures r.None? <==> !IsDerived() && !rexists
      ensures IsDerived() && useBuildSignature ==>
        r == (if old(binfo).Some? && old(binfo).value.bsig.Some? then old(binfo).value.bsig else Some(genBsig))
      ensures r.Some? && !(IsDerived() && useBuildSignature) ==>
        r == (if old(binfo).Some? && old(binfo).value.csig.Some? then old(binfo).value.csig else Some(csig))
      ensures r.Some? ==> binfo.Some?
      ensures sources == old(sources) && depends == old(depends) && ignore == old(ignore)
      ensures IsDerived() && useBuildSignature && (old(binfo).None? || old(binfo).value.bsig.None?) ==>
        implicit == ScannedImplicit(old(implicit), hasBuilder, ctx)
      ensures !(IsDerived() && useBuildSignature && (old(binfo).None? || old(binfo).value.bsig.None?)) ==>
        implicit == old(implicit)
    {
      var b := if binfo.Some? then binfo.value else BuildInfo(None, None);
      if IsDerived() && useBuildSignature {
        if b.bsig.None? {
          Scan(ctx);
          b := b.(bsig := Some(genBsig));
        }
        binfo := Some(b);
        return b.bsig;
      } else if !IsDerived() && !rexists {
        return None;
      }
      if b.csig.None? {
        b := b.(csig := Some(csig));
      }
      binfo := Some(b);
      return b.csig;
    }

    /** children_are_up_to_date: gen_binfo scans the node first, so the
        children are read after the scan; then None when the node is always
        built, otherwise whether the highest child state is 0 or
        up_to_date.  genBinfo is the build info gen_binfo returns. */
    method ChildrenAreUpToDate(ctx: ScanContext, genBinfo: BuildInfo) returns (r: Option<bool>)
      requires Valid()
      modifies this
      ensures Valid() && implicit.Some?
      ensures old(implicit).Some? ==> implicit == old(implicit)
      ensures implicit == ScannedImplicit(old(implicit), hasBuilder, ctx)
      ensures binfo == Some(genBinfo)
      ensures r.None? <==> old(alwaysBuild)
      ensures r.Some? ==> (r.value <==> StatesUpToDate(StatesOf(ChildrenGet())))
      ensures sources == old(sources) && depends == old(depends) && ignore == old(ignore)
    {
      Scan(ctx);
      binfo := Some(genBinfo);
      if alwaysBuild {
        return None;
      }
      var b := KidsUpToDate();
      r := Some(b);
    }

    /** The loop of children_are_up_to_date over children(None). */
    method KidsUpToDate() returns (b: bool)
      ensures b <==> StatesUpToDate(StatesOf(ChildrenGet()))
    {
      var kids := ChildrenGet();
      var states := StatesOf(kids);
      b := StatesAreUpToDate(states);
      assert ChildrenGet() == kids;
      assert StatesOf(kids) == states;
    }

    /** prepare(): StopError naming the first missing source, where the
        executor's missing sources come before the missing dependencies and
        implicit dependencies. */
    function Prepare(executorMissing: seq<Node>): (r: Option<Error>)
      reads this, Elems(depends), Elems(Edges(Implicit))
      ensures r.None? <==> executorMissing == [] && forall c :: c in depends + Edges(Implicit) ==> !c.Missing()
      ensures r.Some? && executorMissing != [] ==>
        r.value == StopError("Source `" + executorMissing[0].name + "' not found, needed by target `" + name + "'.")
      ensures r.Some? && executorMissing == [] ==> exists i :: (0 <= i < |depends + Edges(Implicit)| &&
        (depends + Edges(Implicit))[i].Missing() &&
        (forall j :: 0 <= j < i ==> !(depends + Edges(Implicit))[j].Missing()) &&
        r.value == StopError("Source `" + (depends + Edges(Implicit))[i].name + "' not found, needed by target `" + name + "'."))
    {
      var missing := executorMissing + MissingOf(depends + Edges(Implicit));
      if missing == [] then None
      else Some(StopError("Source `" + missing[0].name + "' not found, needed by target `" + name + "'."))
    }
  }

  /** The nodes the source factory produced, in order. */
  /** The implicit list scan() leaves: a scanned node keeps its list; a
      node without a builder gets an empty one; with a builder the stored
      dependencies are reused under --implicit-cache while they are still
      valid, and otherwise the list is left for the executor's scan. */
  function ScannedImplicit(imp: Option<seq<Node>>, hasBuilder: bool, ctx: ScanContext): (r: Option<seq<Node>>)
    ensures r.Some?
    ensures imp.Some? ==> r == imp
    ensures imp.None? ==> NoDup(r.value)
    ensures imp.None? && r != Some([]) ==>
      (hasBuilder && ctx.implicitCache && ctx.stored.Some? &&
       forall i :: 0 <= i < |r.value| ==> Some(r.value[i]) in ctx.stored.value)
  {
    if imp.Some? then imp
    else if hasBuilder && ctx.implicitCache && !ctx.depsChanged && ctx.stored.Some? &&
            (ctx.depsUnchanged || ctx.isCurrent)
    then
      StoredImplicit(ctx.stored.value);
      Some(AppendNew([], {}, Present(ctx.stored.value)))
    else Some([])
  }

  /** The stored implicit dependencies, once the missing ones are dropped
      and the list is built through the side set, repeat nothing and come
      from the stored list. */
  lemma StoredImplicit(stored: seq<Option<Node>>)
    ensures var r := AppendNew([], {}, Present(stored));
      NoDup(r) && forall i :: 0 <= i < |r| ==> Some(r[i]) in stored
  {
    var nodes := Present(stored);
    assert Elems<Node>([]) == {};
    AppendNewProps([], {}, nodes);
    var r := AppendNew([], {}, nodes);
    forall i | 0 <= i < |r| ensures Some(r[i]) in stored {
      assert r[i] in Elems(r);
      var j :| 0 <= j < |nodes| && nodes[j] == r[i];
    }
  }

  function Present(stored: seq<Option<Node>>): (r: seq<Node>)
    ensures forall i :: 0 <= i < |r| ==> Some(r[i]) in stored
    ensures forall i :: 0 <= i < |stored| && stored[i].Some? ==> stored[i].value in r
  {
    if stored == [] then []
    else if stored[0].Some? then [stored[0].value] + Present(stored[1..])
    else Present(stored[1..])
  }

  function StatesOf(kids: seq<Node>): (r: seq<int>)
    reads Elems(kids)
    ensures |r| == |kids| && forall i :: 0 <= i < |kids| ==> r[i] == kids[i].state
  {
    if kids == [] then [] else [kids[0].state] + StatesOf(kids[1..])
  }

  /** filter(lambda c: c.missing(), l), with the first element singled
      out. */
  function MissingOf(l: seq<Node>): (r: seq<Node>)
    reads Elems(l)
    ensures forall i :: 0 <= i < |r| ==> r[i] in l && r[i].Missing()
    ensures forall i :: 0 <= i < |l| && l[i].Missing() ==> l[i] in r
    ensures r != [] ==> exists i :: 0 <= i < |l| && l[i] == r[0] && forall j :: 0 <= j < i ==> !l[j].Missing()
  {
    if l == [] then []
    else if l[0].Missing() then [l[0]] + MissingOf(l[1..])
    else
      var rest := MissingOf(l[1..]);
      assert rest != [] ==> exists i :: 0 <= i < |l[1..]| && l[1..][i] == rest[0] && forall j :: 0 <= j < i ==> !l[1..][j].Missing();
      rest
  }
  /** get_found_includes(n): what the scanner finds in n; the base class
      finds nothing. */
  function FoundOf<N>(found: map<N, seq<N>>, n: N): seq<N>
  {
    if n in found then found[n] else []
  }

  /** The elements of s that are not in seen, in order (the filter of
      get_implicit_deps, which runs before the batch itself is marked
      seen). */
  function Unseen<N(==)>(s: seq<N>, seen: set<N>): (r: seq<N>)
    ensures forall i :: 0 <= i < |r| ==> r[i] in s && r[i] !in seen
    ensures forall i :: 0 <= i < |s| && s[i] !in seen ==> s[i] in r
    ensures NoDup(s) ==> NoDup(r)
  {
    if s == [] then []
    else if s[0] in seen then Unseen(s[1..], seen)
    else [s[0]] + Unseen(s[1..], seen)
  }

  /** scanner.recurse_nodes(d): the nodes whose own includes are scanned
      in turn, in order. */
  function Recursed<N>(d: seq<N>, recurse: N -> bool): (r: seq<N>)
    ensures forall i :: 0 <= i < |r| ==> r[i] in d && recurse(r[i])
    ensures forall i :: 0 <= i < |d| && recurse(d[i]) ==> d[i] in r
  {
    if d == [] then []
    else if recurse(d[0]) then [d[0]] + Recursed(d[1..], recurse)
    else Recursed(d[1..], recurse)
  }

  /** Every element of deps was found in the start node or in an earlier
      element the scanner recurses into. */
  ghost predicate Sound<N>(start: N, found: map<N, seq<N>>, recurse: N -> bool, deps: seq<N>)
  {
    forall i :: 0 <= i < |deps| ==>
      deps[i] in FoundOf(found, start) ||
      exists j :: 0 <= j < i && recurse(deps[j]) && deps[i] in FoundOf(found, deps[j])
  }

  ghost predicate IncludeListsNoDup<N>(found: map<N, seq<N>>)
  {
    forall n :: n in found ==> NoDup(found[n])
  }

  ghost function Universe<N>(start: N, found: map<N, seq<N>>): set<N>
  {
    {start} + (set k, x | k in found && x in found[k] :: x)
  }

  /** Marking a batch of unseen includes seen keeps the seen set equal to
      the start node plus the result, and makes it strictly larger. */
  lemma SeenStep<N>(start: N, found: map<N, seq<N>>, n: N, seen: set<N>, deps: seq<N>)
    requires seen == {start} + Elems(deps) && seen <= Universe(start, found) && start !in deps
    ensures var d := Unseen(FoundOf(found, n), seen);
      seen + Elems(d) == {start} + Elems(deps + d) &&
      seen + Elems(d) <= Universe(start, found) &&
      start !in deps + d &&
      (d != [] ==> Universe(start, found) - (seen + Elems(d)) < Universe(start, found) - seen)
  {
    var d := Unseen(FoundOf(found, n), seen);
    var U := Universe(start, found);
    assert Elems(deps + d) == Elems(deps) + Elems(d);
    forall i | 0 <= i < |d|
      ensures d[i] in U
    {
      assert d[i] in found[n];
    }
    if d != [] {
      assert d[0] in U - seen;
      assert d[0] !in U - (seen + Elems(d));
    }
  }

  /** Appending includes found in the start node or in an element the
      scanner recurses into keeps the result sound. */
  lemma SoundStep<N>(start: N, found: map<N, seq<N>>, recurse: N -> bool, deps: seq<N>, n: N, d: seq<N>)
    requires Sound(start, found, recurse, deps)
    requires n == start || (n in deps && recurse(n))
    requires forall i :: 0 <= i < |d| ==> d[i] in FoundOf(found, n)
    ensures Sound(start, found, recurse, deps + d)
  {
    var deps' := deps + d;
    forall i | 0 <= i < |deps'|
      ensures deps'[i] in FoundOf(found, start) ||
        exists j :: 0 <= j < i && recurse(deps'[j]) && deps'[i] in FoundOf(found, deps'[j])
    {
      if i < |deps| {
        assert deps'[i] == deps[i];
        if deps[i] !in FoundOf(found, start) {
          var j :| 0 <= j < i && recurse(deps[j]) && deps[i] in FoundOf(found, deps[j]);
          assert deps'[j] == deps[j];
        }
      } else {
        assert deps'[i] in FoundOf(found, n);
        if n != start {
          var j :| 0 <= j < |deps| && deps[j] == n;
          assert deps'[j] == n;
        }
      }
    }
  }

  /** A duplicate-free batch of unseen nodes appended to a duplicate-free
      result keeps it duplicate-free. */
  lemma NoDupStep<N>(deps: seq<N>, d: seq<N>, seen: set<N>)
    requires NoDup(deps) && NoDup(d) && Elems(deps) <= seen
    requires forall i :: 0 <= i < |d| ==> d[i] !in seen
    ensures NoDup(deps + d)
  {
    var r := deps + d;
    forall i, j | 0 <= i < j < |r|
      ensures r[i] != r[j]
    {
      if i < |deps| && |deps| <= j {
        assert r[i] in seen;
        assert r[j] == d[j - |deps|];
      }
    }
  }

  /** The worklist holds the start node or results the scanner recurses
      into; every such node is on it or done; and everything found in a
      done node is seen. */
  ghost predicate Queued<N>(start: N, found: map<N, seq<N>>, recurse: N -> bool,
                            nodes: seq<N>, seen: set<N>, deps: seq<N>, done: set<N>)
  {
    (forall k :: 0 <= k < |nodes| ==> nodes[k] == start || (nodes[k] in deps && recurse(nodes[k]))) &&
    (start in done || start in nodes) &&
    (forall i :: 0 <= i < |deps| && recurse(deps[i]) ==> deps[i] in done || deps[i] in nodes) &&
    (forall m, x :: m in done && x in FoundOf(found, m) ==> x in seen)
  }

  lemma QueuedStep<N>(start: N, found: map<N, seq<N>>, recurse: N -> bool,
                      nodes: seq<N>, seen: set<N>, deps: seq<N>, done: set<N>)
    requires nodes != [] && Queued(start, found, recurse, nodes, seen, deps, done)
    ensures var n := nodes[0];
      var d := Unseen(FoundOf(found, n), seen);
      Queued(start, found, recurse, nodes[1..] + Recursed(d, recurse), seen + Elems(d), deps + d, done + {n})
  {
    var n := nodes[0];
    var d := Unseen(FoundOf(found, n), seen);
    var nodes' := nodes[1..] + Recursed(d, recurse);
    var deps' := deps + d;
    var seen' := seen + Elems(d);
    var done' := done + {n};
    forall k | 0 <= k < |nodes'|
      ensures nodes'[k] == start || (nodes'[k] in deps' && recurse(nodes'[k]))
    {
      if k < |nodes| - 1 {
        assert nodes'[k] == nodes[k + 1];
      } else {
        assert nodes'[k] in Recursed(d, recurse);
      }
    }
    forall i | 0 <= i < |deps'| && recurse(deps'[i])
      ensures deps'[i] in done' || deps'[i] in nodes'
    {
      if i < |deps| {
        assert deps'[i] == deps[i];
        if deps[i] != n && deps[i] in nodes {
          var k :| 0 <= k < |nodes| && nodes[k] == deps[i];
          assert nodes'[k - 1] == deps[i];
        }
      } else {
        assert deps'[i] == d[i - |deps|];
        assert deps'[i] in Recursed(d, recurse);
      }
    }
    if start != n && start in nodes {
      var k :| 0 <= k < |nodes| && nodes[k] == start;
      assert nodes'[k - 1] == start;
    }
    forall m, x | m in done' && x in FoundOf(found, m)
      ensures x in seen'
    {
      if m == n && x !in seen {
        var k :| 0 <= k < |FoundOf(found, n)| && FoundOf(found, n)[k] == x;
        assert x in d;
      }
    }
  }

  /** With the worklist empty, everything found in the start node or in a
      result the scanner recurses into is seen. */
  lemma QueuedDone<N>(start: N, found: map<N, seq<N>>, recurse: N -> bool,
                      seen: set<N>, deps: seq<N>, done: set<N>)
    requires Queued(start, found, recurse, [], seen, deps, done)
    requires seen == {start} + Elems(deps)
    ensures forall x :: x in FoundOf(found, start) ==> x == start || x in deps
    ensures forall i, x :: 0 <= i < |deps| && recurse(deps[i]) && x in FoundOf(found, deps[i]) ==>
      x == start || x in deps
  {
    forall x | x in FoundOf(found, start)
      ensures x == start || x in deps
    {
      assert start in done;
      assert x in seen;
    }
    forall i, x | 0 <= i < |deps| && recurse(deps[i]) && x in FoundOf(found, deps[i])
      ensures x == start || x in deps
    {
      assert deps[i] in done;
      assert x in seen;
    }
  }

  ghost predicate SeenInv<N>(start: N, found: map<N, seq<N>>, seen: set<N>, deps: seq<N>)
  {
    seen == {start} + Elems(deps) && seen <= Universe(start, found) && start !in deps
  }

  /** The invariant of the worklist loop; `done` holds the nodes already
      taken off the worklist. */
  ghost predicate LoopInv<N>(start: N, found: map<N, seq<N>>, recurse: N -> bool,
                             nodes: seq<N>, seen: set<N>, deps: seq<N>, done: set<N>)
  {
    SeenInv(start, found, seen, deps) &&
    Sound(start, found, recurse, deps) &&
    Queued(start, found, recurse, nodes, seen, deps, done) &&
    (IncludeListsNoDup(found) ==> NoDup(deps))
  }

  /** One turn of the loop keeps the invariant and either marks a new
      node seen or shortens the worklist. */
  lemma LoopStep<N>(start: N, found: map<N, seq<N>>, recurse: N -> bool,
                    nodes: seq<N>, seen: set<N>, deps: seq<N>, done: set<N>,
                    nodes': seq<N>, seen': set<N>, deps': seq<N>)
    requires nodes != [] && LoopInv(start, found, recurse, nodes, seen, deps, done)
    requires var d := Unseen(FoundOf(found, nodes[0]), seen);
      if d == [] then nodes' == nodes[1..] && seen' == seen && deps' == deps
      else nodes' == nodes[1..] + Recursed(d, recurse) && seen' == seen + Elems(d) && deps' == deps + d
    ensures LoopInv(start, found, recurse, nodes', seen', deps', done + {nodes[0]})
    ensures |Universe(start, found) - seen'| < |Universe(start, found) - seen| ||
      (seen' == seen && |nodes'| < |nodes|)
  {
    var d := Unseen(FoundOf(found, nodes[0]), seen);
    LoopInvStep(start, found, recurse, nodes, seen, deps, done);
    if d == [] {
      EmptyBatch(nodes, seen, deps, d, recurse);
    }
  }

  /** Expanding the head of the worklist keeps the invariant. */
  lemma LoopInvStep<N>(start: N, found: map<N, seq<N>>, recurse: N -> bool,
                       nodes: seq<N>, seen: set<N>, deps: seq<N>, done: set<N>)
    requires nodes != [] && LoopInv(start, found, recurse, nodes, seen, deps, done)
    ensures var d := Unseen(FoundOf(found, nodes[0]), seen);
      LoopInv(start, found, recurse, nodes[1..] + Recursed(d, recurse), seen + Elems(d), deps + d, done + {nodes[0]}) &&
      (d != [] ==> |Universe(start, found) - (seen + Elems(d))| < |Universe(start, found) - seen|)
  {
    var n := nodes[0];
    var d := Unseen(FoundOf(found, n), seen);
    SeenStep(start, found, n, seen, deps);
    SoundStep(start, found, recurse, deps, n, d);
    QueuedStep(start, found, recurse, nodes, seen, deps, done);
    if IncludeListsNoDup(found) {
      NoDupStep(deps, d, seen);
    }
  }

  lemma EmptyBatch<N>(nodes: seq<N>, seen: set<N>, deps: seq<N>, d: seq<N>, recurse: N -> bool)
    requires nodes != [] && d == []
    ensures nodes[1..] + Recursed(d, recurse) == nodes[1..] && seen + Elems(d) == seen && deps + d == deps
  {
    assert Recursed(d, recurse) == [];
    assert nodes[1..] + [] == nodes[1..];
  }

  /** get_implicit_deps: a first-in first-out worklist with a seen set.
      Without a scanner there are no implicit dependencies.  Otherwise
      the result never holds the start node, each element was found in the
      start node or in an earlier element that the scanner recurses into,
      and it is closed: everything found in an expanded node is the start
      node or in the result.  It holds no repeat when no single include
      list does.  The loop ends on cyclic include graphs.  disambiguate()
      is the identity for the base class and is left out. */
  method GetImplicitDeps<N(==)>(start: N, hasScanner: bool, found: map<N, seq<N>>, recurse: N -> bool)
    returns (deps: seq<N>)
    ensures !hasScanner ==> deps == []
    ensures start !in deps
    ensures Sound(start, found, recurse, deps)
    ensures hasScanner ==> forall x :: x in FoundOf(found, start) ==> x == start || x in deps
    ensures hasScanner ==> forall i, x :: 0 <= i < |deps| && recurse(deps[i]) && x in FoundOf(found, deps[i]) ==>
      x == start || x in deps
    ensures IncludeListsNoDup(found) ==> NoDup(deps)
  {
    if !hasScanner {
      return [];
    }
    var nodes := [start];
    var seen := {start};
    deps := [];
    ghost var done: set<N> := {};
    while nodes != []
      invariant LoopInv(start, found, recurse, nodes, seen, deps, done)
      decreases |Universe(start, found) - seen|, |nodes|
    {
      var n := nodes[0];
      var d := Unseen(FoundOf(found, n), seen);
      var nodes', seen', deps' := nodes[1..], seen, deps;
      if d != [] {
        deps' := deps + d;
        seen' := seen + Elems(d);
        nodes' := nodes' + Recursed(d, recurse);
      }
      LoopStep(start, found, recurse, nodes, seen, deps, done, nodes', seen', deps');
      nodes, seen, deps := nodes', seen', deps';
      done := done + {n};
    }
    QueuedDone(start, found, recurse, seen, deps, done);
  }
}
