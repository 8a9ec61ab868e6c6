/** Node.explain(): why a target is being rebuilt, found by comparing the
    dependency lists and signatures stored at the last build with the
    current ones, and falling back through a fixed chain of messages.
    Dependencies are named by their stored path strings; `stringify` is
    the directory lookup that turns one into the text shown. */
module NodeExplain {
  import opened Errors
  import opened Strings

  /** The kid lists and signatures of a build-info record. */
  datatype KidInfo = KidInfo(
    bsources: seq<string>, bsourcesigs: seq<string>,
    bdepends: seq<string>, bdependsigs: seq<string>,
    bimplicit: seq<string>, bimplicitsigs: seq<string>,
    bact: string, bactsig: string)

  /** get_stored_info(): nothing stored, a record without the kid lists
      (the AttributeError case), or a full record. */
  datatype Stored = NoStoredInfo | KidsMissing | Stored(info: KidInfo)

  /** dictify: zip(kids, sigs) written into m, later pairs overriding
      earlier ones, the longer list cut to the shorter. */
  function Dictify(m: map<string, string>, kids: seq<string>, sigs: seq<string>): (r: map<string, string>)
    ensures forall i :: 0 <= i < |kids| && i < |sigs| ==> kids[i] in r
    ensures forall k :: k in m ==> k in r
    decreases |kids|
  {
    if kids == [] || sigs == [] then m
    else Dictify(m[kids[0] := sigs[0]], kids[1..], sigs[1..])
  }

  /** A pair added at the end overrides whatever the key held. */
  lemma {:induction false} DictifyAppend(m: map<string, string>, kids: seq<string>, sigs: seq<string>, k: string, s: string)
    requires |kids| == |sigs|
    ensures Dictify(m, kids + [k], sigs + [s]) == Dictify(m, kids, sigs)[k := s]
    decreases |kids|
  {
    if kids == [] {
      assert kids + [k] == [k] && sigs + [s] == [s];
    } else {
      assert (kids + [k])[1..] == kids[1..] + [k];
      assert (sigs + [s])[1..] == sigs[1..] + [s];
      DictifyAppend(m[kids[0] := sigs[0]], kids[1..], sigs[1..], k, s);
    }
  }

  function Sigs(b: KidInfo): map<string, string>
  {
    Dictify(Dictify(Dictify(map[], b.bsources, b.bsourcesigs), b.bdepends, b.bdependsigs), b.bimplicit, b.bimplicitsigs)
  }

  function Kids(b: KidInfo): seq<string>
  {
    b.bsources + b.bdepends + b.bimplicit
  }

  /** Every kid has a signature when each kid list is as long as its
      signature list. */
  predicate Complete(b: KidInfo)
  {
    |b.bsources| == |b.bsourcesigs| && |b.bdepends| == |b.bdependsigs| && |b.bimplicit| == |b.bimplicitsigs|
  }

  lemma CompleteHasSigs(b: KidInfo)
    requires Complete(b)
    ensures forall k :: k in Kids(b) ==> k in Sigs(b)
  {
    var m1 := Dictify(map[], b.bsources, b.bsourcesigs);
    var m2 := Dictify(m1, b.bdepends, b.bdependsigs);
    forall k | k in Kids(b)
      ensures k in Sigs(b)
    {
      if k in b.bsources {
        var i :| 0 <= i < |b.bsources| && b.bsources[i] == k;
        assert k in m1 && k in m2;
      } else if k in b.bdepends {
        var i :| 0 <= i < |b.bdepends| && b.bdepends[i] == k;
        assert k in m2;
      } else {
        var i :| 0 <= i < |b.bimplicit| && b.bimplicit[i] == k;
      }
    }
  }

  function NoLongerLine(s: string): string { "`" + s + "' is no longer a dependency\n" }
  function NewDependencyLine(s: string): string { "`" + s + "' is a new dependency\n" }
  function ChangedLine(s: string): string { "`" + s + "' changed\n" }

  /** One line per old kid that is not among the new kids, in order. */
  function RemovedLines(oldKids: seq<string>, newKids: seq<string>, stringify: string -> string): (r: seq<string>)
    ensures forall i :: 0 <= i < |oldKids| && oldKids[i] !in newKids ==> NoLongerLine(stringify(oldKids[i])) in r
    ensures r == [] <==> forall i :: 0 <= i < |oldKids| ==> oldKids[i] in newKids
  {
    if oldKids == [] then []
    else
      var rest := RemovedLines(oldKids[1..], newKids, stringify);
      assert forall i :: 1 <= i < |oldKids| ==> oldKids[i] == oldKids[1..][i - 1];
      if oldKids[0] in newKids then rest else [NoLongerLine(stringify(oldKids[0]))] + rest
  }

  /** The loop over the new kids: a new dependency, or a changed
      signature; a kid present in both lists whose signature is missing
      from either dictionary is the KeyError of the lookup. */
  function ChangedLines(newKids: seq<string>, oldKids: seq<string>, osig: map<string, string>,
                        nsig: map<string, string>, stringify: string -> string): (r: Result<seq<string>>)
    ensures r.Err? ==> exists i :: (0 <= i < |newKids| && newKids[i] in oldKids &&
      (newKids[i] !in osig || newKids[i] !in nsig))
    ensures r.Ok? ==> forall i :: 0 <= i < |newKids| && newKids[i] !in oldKids ==>
      NewDependencyLine(stringify(newKids[i])) in r.value
    ensures r.Ok? ==> forall i :: 0 <= i < |newKids| && newKids[i] in oldKids ==>
      newKids[i] in osig && newKids[i] in nsig &&
      (osig[newKids[i]] != nsig[newKids[i]] ==> ChangedLine(stringify(newKids[i])) in r.value)
    ensures r.Ok? ==> (r.value == [] <==>
      forall i :: 0 <= i < |newKids| ==> newKids[i] in oldKids && osig[newKids[i]] == nsig[newKids[i]])
    ensures (forall i :: 0 <= i < |newKids| ==> (newKids[i] in oldKids && newKids[i] in osig &&
      newKids[i] in nsig && osig[newKids[i]] == nsig[newKids[i]])) ==> r == Ok([])
  {
    if newKids == [] then Ok([])
    else
      var k := newKids[0];
      assert forall i :: 1 <= i < |newKids| ==> newKids[i] == newKids[1..][i - 1];
      if k !in oldKids then
        var rest :- ChangedLines(newKids[1..], oldKids, osig, nsig, stringify);
        Ok([NewDependencyLine(stringify(k))] + rest)
      else if k !in osig || k !in nsig then Err(KeyError(k))
      else
        var rest :- ChangedLines(newKids[1..], oldKids, osig, nsig, stringify);
        if osig[k] != nsig[k] then Ok([ChangedLine(stringify(k))] + rest) else Ok(rest)
  }

  function Spaces(n: nat): (r: string)
    ensures |r| == n && forall i :: 0 <= i < n ==> r[i] == ' '
  {
    seq(n, _ => ' ')
  }

  /** map(stringify, kids) printed as a Python list of strings (quote
      characters inside the names are not escaped here). */
  function ListRepr(strs: seq<string>): string
  {
    "[" + Join(Quoted(strs), ", ") + "]"
  }

  function Quoted(strs: seq<string>): (r: seq<string>)
    ensures |r| == |strs|
  {
    if strs == [] then [] else ["'" + strs[0] + "'"] + Quoted(strs[1..])
  }

  function Map(strs: seq<string>, f: string -> string): (r: seq<string>)
    ensures |r| == |strs| && forall i :: 0 <= i < |strs| ==> r[i] == f(strs[i])
  {
    seq(|strs|, i requires 0 <= i < |strs| => f(strs[i]))
  }

  /** fmt_with_title: the title after fifteen spaces, each further line of
      the text indented under the first. */
  function FmtWithTitle(title: string, strlines: string): string
  {
    Spaces(15) + title + Join(SplitOn(strlines, '\n'), "\n" + Spaces(15 + |title|)) + "\n"
  }

  function OrderChangedLine(oldKids: seq<string>, newKids: seq<string>, stringify: string -> string): string
  {
    "the dependency order changed:\n" +
    Spaces(15) + "old: " + ListRepr(Map(oldKids, stringify)) + "\n" +
    Spaces(15) + "new: " + ListRepr(Map(newKids, stringify)) + "\n"
  }

  function ActionLine(o: KidInfo, n: KidInfo): string
  {
    if o.bact == n.bact then
      "the contents of the build action changed\n" + FmtWithTitle("action: ", n.bact)
    else
      "the build action changed:\n" + FmtWithTitle("old: ", o.bact) + FmtWithTitle("new: ", n.bact)
  }

  function Preamble(name: string): string { "rebuilding `" + name + "' because" }

  /** The final message built from the collected lines. */
  function Report(name: string, lines: seq<string>): (r: string)
    ensures lines == [] ==> r == "rebuilding `" + name + "' for unknown reasons\n"
    ensures |lines| == 1 ==> r == Preamble(name) + " " + lines[0]
    ensures lines != [] ==> IsPrefix(Preamble(name), r)
  {
    if lines == [] then "rebuilding `" + name + "' for unknown reasons\n"
    else if |lines| == 1 then Preamble(name) + " " + lines[0]
    else
      var r := Join([Preamble(name) + ":\n"] + lines, Spaces(11));
      assert r == Preamble(name) + ":\n" + Spaces(11) + Join(lines, Spaces(11));
      assert r[..|Preamble(name)|] == Preamble(name);
      r
  }

  /** The lines explain() reports before its fallbacks: removed kids, then
      new or changed kids, then a reordering, then a changed action. */
  function Lines(o: KidInfo, n: KidInfo, stringify: string -> string): Result<seq<string>>
  {
    var changed :- ChangedLines(Kids(n), Kids(o), Sigs(o), Sigs(n), stringify);
    Ok(Fallbacks(RemovedLines(Kids(o), Kids(n), stringify) + changed, o, n, stringify))
  }

  /** With no kid reported, a change of order, and then a change of the
      action, is reported instead. */
  function Fallbacks(lines: seq<string>, o: KidInfo, n: KidInfo, stringify: string -> string): (r: seq<string>)
    ensures lines != [] ==> r == lines
    ensures r == [] <==> lines == [] && Kids(o) == Kids(n) && o.bactsig == n.bactsig
  {
    if lines != [] then lines
    else if Kids(o) != Kids(n) then [OrderChangedLine(Kids(o), Kids(n), stringify)]
    else if o.bactsig != n.bactsig then [ActionLine(o, n)]
    else []
  }

  /** explain() for a node called name. */
  function Explain(name: string, nodeExists: bool, stored: Stored, current: KidInfo, stringify: string -> string): (r: Result<Option<string>>)
    ensures !nodeExists ==> r == Ok(Some("building `" + name + "' because it doesn't exist\n"))
    ensures r == Ok(None) <==> nodeExists && stored.NoStoredInfo?
    ensures nodeExists && stored.KidsMissing? ==>
      r == Ok(Some("Cannot explain why `" + name + "' is being rebuilt: No previous build information found\n"))
    ensures nodeExists && stored.Stored? ==> r == (var ls := Lines(stored.info, current, stringify);
      if ls.Err? then Err(ls.error) else Ok(Some(Report(name, ls.value))))
  {
    if !nodeExists then Ok(Some("building `" + name + "' because it doesn't exist\n"))
    else match stored
      case NoStoredInfo => Ok(None)
      case KidsMissing => Ok(Some("Cannot explain why `" + name + "' is being rebuilt: No previous build information found\n"))
      case Stored(o) =>
        var lines :- Lines(o, current, stringify);
        Ok(Some(Report(name, lines)))
  }

  /** Every removed, added or changed kid is reported. */
  lemma LinesReportEveryChange(o: KidInfo, n: KidInfo, stringify: string -> string)
    requires Lines(o, n, stringify).Ok?
    ensures var ls := Lines(o, n, stringify).value;
      (forall k :: k in Kids(o) && k !in Kids(n) ==> NoLongerLine(stringify(k)) in ls) &&
      (forall k :: k in Kids(n) && k !in Kids(o) ==> NewDependencyLine(stringify(k)) in ls) &&
      (forall k :: k in Kids(n) && k in Kids(o) && Sigs(o)[k] != Sigs(n)[k] ==> ChangedLine(stringify(k)) in ls)
  {
    var oldKids, newKids := Kids(o), Kids(n);
    var changed := ChangedLines(newKids, oldKids, Sigs(o), Sigs(n), stringify);
    var removed := RemovedLines(oldKids, newKids, stringify);
    assert removed + changed.value != [] ==> Lines(o, n, stringify).value == removed + changed.value;
    forall k | k in oldKids && k !in newKids
      ensures NoLongerLine(stringify(k)) in removed
    {
      var i :| 0 <= i < |oldKids| && oldKids[i] == k;
    }
    forall k | k in newKids && k !in oldKids
      ensures NewDependencyLine(stringify(k)) in changed.value
    {
      var i :| 0 <= i < |newKids| && newKids[i] == k;
    }
    forall k | k in newKids && k in oldKids && Sigs(o)[k] != Sigs(n)[k]
      ensures ChangedLine(stringify(k)) in changed.value
    {
      var i :| 0 <= i < |newKids| && newKids[i] == k;
    }
  }

  /** A rebuild with the very same complete record is "for unknown
      reasons". */
  lemma ExplainSameRecord(name: string, b: KidInfo, stringify: string -> string)
    requires Complete(b)
    ensures Explain(name, true, Stored(b), b, stringify) ==
      Ok(Some("rebuilding `" + name + "' for unknown reasons\n"))
  {
    CompleteHasSigs(b);
    var changed := ChangedLines(Kids(b), Kids(b), Sigs(b), Sigs(b), stringify);
    assert changed == Ok([]);
    assert RemovedLines(Kids(b), Kids(b), stringify) == [];
  }

  /** One implicit dependency added since the last build, everything else
      the same: exactly that dependency is reported as new. */
  lemma ExplainOneNewDependency(name: string, b: KidInfo, k: string, s: string, stringify: string -> string)
    requires Complete(b) && k !in Kids(b)
    ensures var n := b.(bimplicit := b.bimplicit + [k], bimplicitsigs := b.bimplicitsigs + [s]);
      Explain(name, true, Stored(b), n, stringify) ==
        Ok(Some(Preamble(name) + " " + NewDependencyLine(stringify(k))))
  {
    var n := b.(bimplicit := b.bimplicit + [k], bimplicitsigs := b.bimplicitsigs + [s]);
    LinesOneNewDependency(b, k, s, stringify);
    assert Lines(b, n, stringify) == Ok([NewDependencyLine(stringify(k))]);
  }

  lemma LinesOneNewDependency(b: KidInfo, k: string, s: string, stringify: string -> string)
    requires Complete(b) && k !in Kids(b)
    ensures var n := b.(bimplicit := b.bimplicit + [k], bimplicitsigs := b.bimplicitsigs + [s]);
      Lines(b, n, stringify) == Ok([NewDependencyLine(stringify(k))])
  {
    var n := b.(bimplicit := b.bimplicit + [k], bimplicitsigs := b.bimplicitsigs + [s]);
    CompleteHasSigs(b);
    var m2 := Dictify(Dictify(map[], b.bsources, b.bsourcesigs), b.bdepends, b.bdependsigs);
    DictifyAppend(m2, b.bimplicit, b.bimplicitsigs, k, s);
    var osig, nsig := Sigs(b), Sigs(n);
    assert nsig == osig[k := s];
    var oldKids, newKids := Kids(b), Kids(n);
    assert newKids == oldKids + [k];
    assert forall i :: 0 <= i < |oldKids| ==> oldKids[i] in osig && oldKids[i] in nsig && osig[oldKids[i]] == nsig[oldKids[i]];
    assert RemovedLines(oldKids, newKids, stringify) == [];
    ChangedLinesOneNew(oldKids, k, oldKids, osig, nsig, stringify);
    var line := NewDependencyLine(stringify(k));
    assert ChangedLines(newKids, oldKids, osig, nsig, stringify) == Ok([line]);
    assert RemovedLines(oldKids, newKids, stringify) + [line] == [line];
    assert Fallbacks([line], b, n, stringify) == [line];
  }

  /** Kids whose signatures agree, followed by one kid that was not there
      before: only that kid is reported. */
  lemma {:induction false} ChangedLinesOneNew(a: seq<string>, k: string, oldKids: seq<string>,
                                              osig: map<string, string>, nsig: map<string, string>,
                                              stringify: string -> string)
    requires k !in oldKids
    requires forall i :: 0 <= i < |a| ==> a[i] in oldKids && a[i] in osig && a[i] in nsig && osig[a[i]] == nsig[a[i]]
    ensures ChangedLines(a + [k], oldKids, osig, nsig, stringify) == Ok([NewDependencyLine(stringify(k))])
    decreases |a|
  {
    if a == [] {
      assert a + [k] == [k] && [k][1..] == [];
      assert ChangedLines([], oldKids, osig, nsig, stringify) == Ok([]);
      assert [NewDependencyLine(stringify(k))] + [] == [NewDependencyLine(stringify(k))];
    } else {
      assert (a + [k])[0] == a[0] && (a + [k])[1..] == a[1..] + [k];
      ChangedLinesOneNew(a[1..], k, oldKids, osig, nsig, stringify);
    }
  }
}
