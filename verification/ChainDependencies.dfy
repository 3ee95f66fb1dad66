/**
 The order in which tables must be filled (`create_chain_dependencies` in
 core/index-store/src/core.rs): the transitive dependencies of a table, deepest first.
 */
module ChainDependencies {
  import opened Common

  datatype Table = Table(name: string)

  type Dependencies = map<Table, seq<Table>>

  /** A walk of at least one step along the dependencies. */
  ghost predicate IsPath(deps: Dependencies, p: seq<Table>) {
    |p| >= 2 && forall i :: 0 <= i < |p| - 1 ==> p[i] in deps && p[i + 1] in deps[p[i]]
  }

  ghost predicate PathBetween(deps: Dependencies, p: seq<Table>, a: Table, b: Table) {
    IsPath(deps, p) && p[0] == a && p[|p| - 1] == b
  }

  ghost predicate Reaches(deps: Dependencies, a: Table, b: Table) {
    exists p :: PathBetween(deps, p, a, b)
  }

  predicate DependsOn(deps: Dependencies, a: Table, b: Table) {
    a in deps && b in deps[a]
  }

  /** No table on or below `t` depends on itself. */
  ghost predicate NoCycleBelow(deps: Dependencies, t: Table) {
    !Reaches(deps, t, t) && forall x :: Reaches(deps, t, x) ==> !Reaches(deps, x, x)
  }

  lemma ReachesDirect(deps: Dependencies, a: Table, b: Table)
    requires DependsOn(deps, a, b)
    ensures Reaches(deps, a, b)
  {
    assert PathBetween(deps, [a, b], a, b);
  }

  lemma ReachesVia(deps: Dependencies, a: Table, b: Table, c: Table)
    requires DependsOn(deps, a, b) && Reaches(deps, b, c)
    ensures Reaches(deps, a, c)
  {
    var p :| PathBetween(deps, p, b, c);
    var q := [a] + p;
    forall i | 0 <= i < |q| - 1 ensures q[i] in deps && q[i + 1] in deps[q[i]] {
      assert i > 0 ==> q[i] == p[i - 1] && q[i + 1] == p[i];
    }
    assert PathBetween(deps, q, a, c);
  }

  lemma ReachesFirstStep(deps: Dependencies, a: Table, c: Table) returns (b: Table)
    requires Reaches(deps, a, c)
    ensures DependsOn(deps, a, b) && (b == c || Reaches(deps, b, c))
  {
    var p :| PathBetween(deps, p, a, c);
    b := p[1];
    if |p| > 2 {
      var q := p[1..];
      forall i | 0 <= i < |q| - 1 ensures q[i] in deps && q[i + 1] in deps[q[i]] {
        assert q[i] == p[i + 1] && q[i + 1] == p[i + 2];
      }
      assert PathBetween(deps, q, b, c);
    }
  }

  lemma NoCycleStep(deps: Dependencies, a: Table, b: Table)
    requires NoCycleBelow(deps, a) && DependsOn(deps, a, b)
    ensures NoCycleBelow(deps, b)
  {
    ReachesDirect(deps, a, b);
    forall x | Reaches(deps, b, x) ensures !Reaches(deps, x, x) {
      ReachesVia(deps, a, b, x);
    }
  }

  function Targets(deps: Dependencies): set<Table> {
    set t, d | t in deps && d in deps[t] :: d
  }

  ghost function Below(deps: Dependencies, t: Table): set<Table> {
    set d | d in Targets(deps) && Reaches(deps, t, d)
  }

  lemma BelowShrinks(deps: Dependencies, a: Table, b: Table)
    requires NoCycleBelow(deps, a) && DependsOn(deps, a, b)
    ensures Below(deps, b) < Below(deps, a) && |Below(deps, b)| < |Below(deps, a)|
  {
    ReachesDirect(deps, a, b);
    NoCycleStep(deps, a, b);
    forall x | x in Below(deps, b) ensures x in Below(deps, a) {
      ReachesVia(deps, a, b, x);
    }
    assert b in Below(deps, a) && b !in Below(deps, b);
    NotMore(Below(deps, b), Below(deps, a));
  }

  /** Everything that one of the first `n` direct dependencies of `t` is or leads to. */
  ghost predicate FoundBy(deps: Dependencies, direct: seq<Table>, x: Table) {
    exists i :: 0 <= i < |direct| && (direct[i] == x || Reaches(deps, direct[i], x))
  }

  lemma FoundByAll(deps: Dependencies, t: Table, x: Table)
    ensures (t in deps && FoundBy(deps, deps[t], x)) <==> Reaches(deps, t, x)
  {
    if t in deps && FoundBy(deps, deps[t], x) {
      var i :| 0 <= i < |deps[t]| && (deps[t][i] == x || Reaches(deps, deps[t][i], x));
      if deps[t][i] == x {
        ReachesDirect(deps, t, x);
      } else {
        ReachesVia(deps, t, deps[t][i], x);
      }
    }
    if Reaches(deps, t, x) {
      var b := ReachesFirstStep(deps, t, x);
      var i :| 0 <= i < |deps[t]| && deps[t][i] == b;
    }
  }

  /** Every dependency of an element occurs before that element. */
  ghost predicate Ordered(deps: Dependencies, res: seq<Table>) {
    forall i, d :: 0 <= i < |res| && DependsOn(deps, res[i], d) ==> d in res[..i]
  }

  /** No direct dependency is repeated, nor reached from an earlier one. */
  ghost predicate Tidy(deps: Dependencies, direct: seq<Table>) {
    forall i, j :: 0 <= i < j < |direct| ==> direct[i] != direct[j] && !Reaches(deps, direct[i], direct[j])
  }

  lemma OrderedSnoc(deps: Dependencies, res: seq<Table>, x: Table)
    requires Ordered(deps, res) && forall d :: DependsOn(deps, x, d) ==> d in res
    ensures Ordered(deps, res + [x])
  {
    var all := res + [x];
    forall i, d | 0 <= i < |all| && DependsOn(deps, all[i], d) ensures d in all[..i] {
      if i < |res| {
        assert all[..i] == res[..i];
      } else {
        assert all[..i] == res;
      }
    }
  }

  /** Adds the items of `tmp` that are not there yet. */
  method AddMissing(deps: Dependencies, before: seq<Table>, tmp: seq<Table>) returns (res: seq<Table>)
    requires Ordered(deps, before) && Ordered(deps, tmp)
    ensures Ordered(deps, res)
    ensures forall x :: x in res <==> x in before || x in tmp
    ensures NoDuplicates(res) <==> NoDuplicates(before)
  {
    res := before;
    for i := 0 to |tmp|
      invariant Ordered(deps, res)
      invariant forall x :: x in res <==> x in before || x in tmp[..i]
      invariant NoDuplicates(res) <==> NoDuplicates(before)
    {
      assert tmp[..i + 1] == tmp[..i] + [tmp[i]];
      if tmp[i] !in res {
        OrderedSnoc(deps, res, tmp[i]);
        NoDuplicatesSnoc(res, tmp[i]);
        res := res + [tmp[i]];
      }
    }
    assert tmp[..|tmp|] == tmp;
  }

  lemma NoDuplicatesSnoc(s: seq<Table>, x: Table)
    ensures NoDuplicates(s + [x]) <==> NoDuplicates(s) && x !in s
  {
    var all := s + [x];
    if NoDuplicates(all) {
      forall i, j | 0 <= i < j < |s| ensures s[i] != s[j] {
        assert all[i] != all[j];
      }
      forall i | 0 <= i < |s| ensures s[i] != x {
        assert all[i] != all[|s|];
      }
    }
  }

  /**
   The elements are exactly the transitive dependencies, every dependency of an element occurs
   before it, and there is no repetition exactly when the direct dependencies are tidy.
   */
  method CreateChainDependencies(table: Table, deps: Dependencies) returns (res: seq<Table>)
    requires NoCycleBelow(deps, table)
    ensures forall x :: x in res <==> Reaches(deps, table, x)
    ensures Ordered(deps, res)
    ensures NoDuplicates(res) <==> table !in deps || Tidy(deps, deps[table])
    decreases |Below(deps, table)|
  {
    res := [];
    if table in deps {
      var dep := deps[table];
      for i := 0 to |dep|
        invariant forall x :: x in res <==> FoundBy(deps, dep[..i], x)
        invariant Ordered(deps, res)
        invariant NoDuplicates(res) <==> Tidy(deps, dep[..i])
      {
        BelowShrinks(deps, table, dep[i]);
        NoCycleStep(deps, table, dep[i]);
        var tmp := CreateChainDependencies(dep[i], deps);
        var before := res;
        res := AddMissing(deps, before, tmp);
        StepFacts(deps, table, i, before, res);
        res := res + [dep[i]];
      }
      assert dep[..|dep|] == dep;
    }
    forall x { FoundByAll(deps, table, x); }
  }

  /** One more direct dependency: what is found, in which order, and when it repeats. */
  lemma StepFacts(deps: Dependencies, table: Table, i: nat, before: seq<Table>, res: seq<Table>)
    requires table in deps && i < |deps[table]| && !Reaches(deps, deps[table][i], deps[table][i])
    requires forall x :: x in before <==> FoundBy(deps, deps[table][..i], x)
    requires forall x :: x in res <==> x in before || Reaches(deps, deps[table][i], x)
    requires Ordered(deps, res)
    requires NoDuplicates(res) <==> Tidy(deps, deps[table][..i])
    ensures forall x :: x in res + [deps[table][i]] <==> FoundBy(deps, deps[table][..i + 1], x)
    ensures Ordered(deps, res + [deps[table][i]])
    ensures NoDuplicates(res + [deps[table][i]]) <==> Tidy(deps, deps[table][..i + 1])
  {
    var dep := deps[table];
    var next := dep[i];
    assert dep[..i + 1] == dep[..i] + [next];
    forall d | DependsOn(deps, next, d) ensures d in res {
      ReachesDirect(deps, next, d);
    }
    OrderedSnoc(deps, res, next);
    forall x ensures FoundBy(deps, dep[..i + 1], x) <==>
             FoundBy(deps, dep[..i], x) || next == x || Reaches(deps, next, x) {
      FoundBySnoc(deps, dep[..i], next, x);
    }
    NoDuplicatesSnoc(res, next);
    TidySnoc(deps, dep[..i], next);
  }

  lemma FoundBySnoc(deps: Dependencies, direct: seq<Table>, next: Table, x: Table)
    ensures FoundBy(deps, direct + [next], x) <==> FoundBy(deps, direct, x) || next == x || Reaches(deps, next, x)
  {
    var all := direct + [next];
    if FoundBy(deps, direct, x) {
      var i :| 0 <= i < |direct| && (direct[i] == x || Reaches(deps, direct[i], x));
      assert all[i] == direct[i];
    }
    assert all[|direct|] == next;
  }

  lemma TidySnoc(deps: Dependencies, direct: seq<Table>, next: Table)
    ensures Tidy(deps, direct + [next]) <==> Tidy(deps, direct) && !FoundBy(deps, direct, next)
  {
    var all := direct + [next];
    if Tidy(deps, all) {
      forall i, j | 0 <= i < j < |direct| ensures direct[i] != direct[j] && !Reaches(deps, direct[i], direct[j]) {
        assert all[i] == direct[i] && all[j] == direct[j];
      }
      forall i | 0 <= i < |direct| ensures direct[i] != next && !Reaches(deps, direct[i], next) {
        assert all[i] == direct[i] && all[|direct|] == next;
      }
    }
  }

  // ---------- When the recursion ends ----------

  /** The call for `t` returns with at most `depth` nested calls below it. */
  predicate Returns(deps: Dependencies, t: Table, depth: nat)
    decreases depth
  {
    t !in deps || deps[t] == [] || (depth > 0 && forall i :: 0 <= i < |deps[t]| ==>
        Returns(deps, deps[t][i], depth - 1))
  }

  lemma {:induction false} ReturnsDeeper(deps: Dependencies, t: Table, depth: nat, more: nat)
    requires Returns(deps, t, depth) && depth <= more
    ensures Returns(deps, t, more)
    decreases depth
  {
    if t in deps && deps[t] != [] {
      forall i | 0 <= i < |deps[t]| ensures Returns(deps, deps[t][i], more - 1) {
        ReturnsDeeper(deps, deps[t][i], depth - 1, more - 1);
      }
    }
  }

  lemma {:induction false} ReturnsWithoutCycle(deps: Dependencies, t: Table)
    requires NoCycleBelow(deps, t)
    ensures Returns(deps, t, |Below(deps, t)|)
    decreases |Below(deps, t)|
  {
    if t in deps && deps[t] != [] {
      var n := |Below(deps, t)|;
      forall i | 0 <= i < |deps[t]| ensures n > 0 && Returns(deps, deps[t][i], n - 1) {
        BelowShrinks(deps, t, deps[t][i]);
        NoCycleStep(deps, t, deps[t][i]);
        ReturnsWithoutCycle(deps, deps[t][i]);
        ReturnsDeeper(deps, deps[t][i], |Below(deps, deps[t][i])|, n - 1);
      }
      assert deps[t][0] == deps[t][0];
    }
  }

  lemma {:induction false} CycleNeverReturns(deps: Dependencies, t: Table, x: Table, depth: nat)
    requires t == x || Reaches(deps, t, x)
    requires Reaches(deps, x, x)
    ensures !Returns(deps, t, depth)
    decreases depth
  {
    var b := ReachesFirstStep(deps, t, x);
    var i :| 0 <= i < |deps[t]| && deps[t][i] == b;
    if depth > 0 {
      CycleNeverReturns(deps, b, x, depth - 1);
    }
  }

  /** The recursion comes back if and only if no table on or below the given one depends on itself. */
  lemma ReturnsIffNoCycle(deps: Dependencies, t: Table)
    ensures (exists depth: nat :: Returns(deps, t, depth)) <==> NoCycleBelow(deps, t)
  {
    if NoCycleBelow(deps, t) {
      ReturnsWithoutCycle(deps, t);
      var depth: nat := |Below(deps, t)|;
      assert Returns(deps, t, depth);
    } else {
      var x :| (x == t || Reaches(deps, t, x)) && Reaches(deps, x, x);
      forall depth: nat ensures !Returns(deps, t, depth) {
        CycleNeverReturns(deps, t, x, depth);
      }
    }
  }
}
