/** plugin_cloak.go: cloaking rules whose targets lead from rule to rule, and the check that no chain of
    targets runs forever. */
module CloakLoops {
  import opened PatternMatcher
  import opened Wrappers

  /** A cloaking rule, known by the pattern it is listed under. */
  datatype CloakedName = CloakedName(target: string, isIP: bool, lineNo: nat)

  type Rules = map<string, CloakedName>

  /** Rules mapped to an address never follow their name target. */
  predicate FollowsTarget(c: CloakedName) {
    !c.isIP && c.target != ""
  }

  /** Every value the matcher can return is a rule. */
  ghost predicate Linked(g: Globs, t: Tables<string>, rules: Rules) {
    && Backed(t)
    && forall name :: Lookup(g, t, name).Match? ==> Lookup(g, t, name).value in rules
  }

  /** A matcher built from listed rules, each stored under its own pattern, is linked. */
  lemma {:induction false} BuiltIsLinked(g: Globs, list: seq<Rule<string>>, rules: Rules)
    requires forall i :: 0 <= i < |list| ==> list[i].value in rules
    ensures Linked(g, Built(list), rules)
  {
    BuiltShape(list);
    forall name | Lookup(g, Built(list), name).Match? ensures Lookup(g, Built(list), name).value in rules {
      LookupMatchesRules(g, list, name);
    }
  }

  // ---------- the target graph ----------

  /** The rule that a target-following rule leads to, if its target matches one that follows on. */
  function Next(g: Globs, t: Tables<string>, rules: Rules, k: string): Option<string>
    requires Linked(g, t, rules) && k in rules
  {
    var v := Lookup(g, t, rules[k].target);
    if v.Match? && FollowsTarget(rules[v.value]) then Some(v.value) else None
  }

  type Graph = map<string, string>

  function TargetGraph(g: Globs, t: Tables<string>, rules: Rules): Graph
    requires Linked(g, t, rules)
  {
    map k | k in rules && FollowsTarget(rules[k]) && Next(g, t, rules, k).Some? :: Next(g, t, rules, k).value
  }

  /** n hops from k. */
  function Walk(succ: Graph, k: string, n: nat): Option<string> {
    if n == 0 then Some(k) else
    match Walk(succ, k, n - 1)
    case None => None
    case Some(m) => if m in succ then Some(succ[m]) else None
  }

  ghost predicate OnCycle(succ: Graph, c: string) {
    exists n: nat :: n > 0 && Walk(succ, c, n) == Some(c)
  }

  ghost predicate ReachesCycle(succ: Graph, k: string) {
    exists n: nat :: Walk(succ, k, n).Some? && OnCycle(succ, Walk(succ, k, n).value)
  }

  lemma {:induction false} WalkAdd(succ: Graph, k: string, a: nat, b: nat)
    requires Walk(succ, k, a).Some?
    ensures Walk(succ, k, a + b) == Walk(succ, Walk(succ, k, a).value, b)
  {
    if b > 0 { WalkAdd(succ, k, a, b - 1); }
  }

  lemma {:induction false} WalkPrefix(succ: Graph, k: string, a: nat, b: nat)
    requires a <= b && Walk(succ, k, b).Some?
    ensures Walk(succ, k, a).Some?
    decreases b
  {
    if a < b { WalkPrefix(succ, k, a, b - 1); }
  }

  lemma {:induction false} WalkRound(succ: Graph, c: string, n: nat, t: nat)
    requires Walk(succ, c, n) == Some(c)
    ensures Walk(succ, c, n * t) == Some(c)
  {
    if t > 0 {
      WalkRound(succ, c, n, t - 1);
      WalkAdd(succ, c, n, n * (t - 1));
      assert n * t == n + n * (t - 1);
    }
  }

  /** A walk that ends reaches no cycle. */
  lemma {:induction false} EndingWalkIsSafe(succ: Graph, k: string, end: nat)
    requires Walk(succ, k, end).None?
    ensures !ReachesCycle(succ, k)
  {
    forall n: nat | Walk(succ, k, n).Some? ensures !OnCycle(succ, Walk(succ, k, n).value) {
      var c := Walk(succ, k, n).value;
      forall m: nat | m > 0 ensures Walk(succ, c, m) != Some(c) {
        if Walk(succ, c, m) == Some(c) {
          WalkRound(succ, c, m, end);
          WalkAdd(succ, k, n, m * end);
          assert m * end >= end;
          WalkPrefix(succ, k, end, n + m * end);
        }
      }
    }
  }

  // ---------- walking one chain ----------

  /** The nodes of a walk from k, in order, without repetition. */
  ghost predicate Path(succ: Graph, k: string, path: seq<string>) {
    && path != []
    && (forall i :: 0 <= i < |path| ==> Walk(succ, k, i) == Some(path[i]))
    && (forall i, j :: 0 <= i < j < |path| ==> path[i] != path[j])
  }

  lemma PathExtend(succ: Graph, k: string, path: seq<string>, next: string)
    requires Path(succ, k, path) && next !in path
    requires path[|path| - 1] in succ && succ[path[|path| - 1]] == next
    ensures Path(succ, k, path + [next])
  {
    assert Walk(succ, k, |path|) == Some(next);
  }

  lemma RevisitIsCycle(succ: Graph, k: string, path: seq<string>, j: nat)
    requires Path(succ, k, path) && j < |path|
    requires path[|path| - 1] in succ && succ[path[|path| - 1]] == path[j]
    ensures ReachesCycle(succ, k)
  {
    var n := |path|;
    assert Walk(succ, k, n) == Some(path[j]);
    WalkAdd(succ, k, j, n - j);
    assert OnCycle(succ, path[j]);
    assert Walk(succ, k, j).Some?;
  }

  /** One hop: the rule matching the target, if it follows a target in turn. */
  method FollowOnce(g: Globs, t: Tables<string>, rules: Rules, current: string) returns (hop: Option<string>)
    requires Linked(g, t, rules) && current in rules && FollowsTarget(rules[current])
    ensures hop.None? <==> current !in TargetGraph(g, t, rules)
    ensures hop.Some? ==>
              hop.value == TargetGraph(g, t, rules)[current] && hop.value in rules && FollowsTarget(rules[hop.value])
  {
    var v := Lookup(g, t, rules[current].target);
    if v.NoMatch? { return None; }
    if !FollowsTarget(rules[v.value]) { return None; }
    return Some(v.value);
  }

  /** The inner loop of detectCloakingLoops: it terminates, and it finds a revisit exactly when a cycle is
      reachable. */
  method ChainLoops(g: Globs, t: Tables<string>, rules: Rules, k: string) returns (loops: bool)
    requires Linked(g, t, rules) && k in rules && FollowsTarget(rules[k])
    ensures loops <==> ReachesCycle(TargetGraph(g, t, rules), k)
  {
    ghost var succ := TargetGraph(g, t, rules);
    ghost var path := [k];
    var visited := {k};
    var current := k;
    while true
      invariant Path(succ, k, path) && path[|path| - 1] == current
      invariant forall x :: x in visited <==> x in path
      invariant current in rules && FollowsTarget(rules[current])
      decreases rules.Keys - visited
    {
      var hop := FollowOnce(g, t, rules, current);
      if hop.None? {
        assert Walk(succ, k, |path|).None?;
        EndingWalkIsSafe(succ, k, |path|);
        return false;
      }
      var next := hop.value;
      if next in visited {
        ghost var j :| 0 <= j < |path| && path[j] == next;
        RevisitIsCycle(succ, k, path, j);
        return true;
      }
      PathExtend(succ, k, path, next);
      visited := visited + {next};
      current := next;
      path := path + [next];
    }
  }

  // ---------- all rules ----------

  ghost predicate HasCycle(succ: Graph) {
    exists c :: OnCycle(succ, c)
  }

  ghost predicate Offends(rules: Rules, succ: Graph, k: string) {
    k in rules && FollowsTarget(rules[k]) && ReachesCycle(succ, k)
  }

  /** Among the given rules, r is an offender with the lowest line number, or there is none. */
  ghost predicate Lowest(rules: Rules, succ: Graph, among: set<string>, r: Option<string>) {
    match r
    case None => forall k :: k in among ==> !Offends(rules, succ, k)
    case Some(f) =>
      && f in among && Offends(rules, succ, f)
      && forall k :: k in among && Offends(rules, succ, k) ==> rules[f].lineNo <= rules[k].lineNo
  }

  /** detectCloakingLoops, with the rules in any order. */
  method DetectLoops(g: Globs, t: Tables<string>, rules: Rules) returns (first: Option<string>)
    requires Linked(g, t, rules)
    ensures Lowest(rules, TargetGraph(g, t, rules), rules.Keys, first)
  {
    ghost var succ := TargetGraph(g, t, rules);
    first := None;
    var todo := rules.Keys;
    while todo != {}
      invariant todo <= rules.Keys
      invariant Lowest(rules, succ, rules.Keys - todo, first)
      decreases |todo|
    {
      var k :| k in todo;
      todo := todo - {k};
      if !FollowsTarget(rules[k]) { continue; }
      var loops := ChainLoops(g, t, rules, k);
      if loops && (first.None? || rules[k].lineNo < rules[first.value].lineNo) { first := Some(k); }
    }
    assert rules.Keys - todo == rules.Keys;
  }

  lemma CycleNodeOffends(g: Globs, t: Tables<string>, rules: Rules, c: string)
    requires Linked(g, t, rules) && OnCycle(TargetGraph(g, t, rules), c)
    ensures Offends(rules, TargetGraph(g, t, rules), c)
  {
    var succ := TargetGraph(g, t, rules);
    var n: nat :| n > 0 && Walk(succ, c, n) == Some(c);
    WalkPrefix(succ, c, 1, n);
    assert Walk(succ, c, 0) == Some(c);
    assert Walk(succ, c, 1).Some? && c in succ;
  }

  /** Loading is refused exactly when the target graph has a cycle. */
  lemma ErrorIffCycle(g: Globs, t: Tables<string>, rules: Rules, first: Option<string>)
    requires Linked(g, t, rules)
    requires Lowest(rules, TargetGraph(g, t, rules), rules.Keys, first)
    ensures first.Some? <==> HasCycle(TargetGraph(g, t, rules))
  {
    var succ := TargetGraph(g, t, rules);
    if first.Some? {
      var n: nat :| Walk(succ, first.value, n).Some? && OnCycle(succ, Walk(succ, first.value, n).value);
    }
    if HasCycle(succ) {
      var c :| OnCycle(succ, c);
      CycleNodeOffends(g, t, rules, c);
    }
  }

  /** Each line of the file defines one rule name, so two rules that follow a target differ in their line. */
  ghost predicate DistinctLines(rules: Rules) {
    forall a, b :: a in rules && b in rules && a != b && FollowsTarget(rules[a]) && FollowsTarget(rules[b]) ==>
      rules[a].lineNo != rules[b].lineNo
  }

  /** With distinct line numbers the offender named does not depend on the order of the walk. */
  lemma ReportIsDeterministic(rules: Rules, succ: Graph, first: Option<string>, other: Option<string>)
    requires DistinctLines(rules)
    requires Lowest(rules, succ, rules.Keys, first) && Lowest(rules, succ, rules.Keys, other)
    ensures first == other
  {
  }

  // ---------- what the edges are ----------

  /** A rule that maps its name to another name and to no address. */
  predicate NamesTarget(rules: Rules, k: string) {
    k in rules && rules[k].isIP == false && |rules[k].target| > 0
  }

  /** An edge leads from one such rule to another that its target matches, and there are no other edges. */
  lemma EdgesAreMatches(g: Globs, t: Tables<string>, rules: Rules, k: string)
    requires Linked(g, t, rules)
    ensures
      var succ := TargetGraph(g, t, rules);
      && (k in succ <==>
            NamesTarget(rules, k)
            && var v := Lookup(g, t, rules[k].target);
               v.Match? && NamesTarget(rules, v.value))
      && (k in succ ==> succ[k] == Lookup(g, t, rules[k].target).value)
  {
  }

  /** A rule with an address ends every chain it is on. */
  lemma {:induction false} AddressEndsChain(g: Globs, t: Tables<string>, rules: Rules, k: string)
    requires Linked(g, t, rules) && k in rules && rules[k].isIP
    ensures
      var succ := TargetGraph(g, t, rules);
      Walk(succ, k, 1).None? && !ReachesCycle(succ, k) && !OnCycle(succ, k) && forall x :: x in succ ==> succ[x] != k
  {
    var succ := TargetGraph(g, t, rules);
    EdgesAreMatches(g, t, rules, k);
    assert Walk(succ, k, 0) == Some(k);
    assert Walk(succ, k, 1).None?;
    EndingWalkIsSafe(succ, k, 1);
    forall x | x in succ ensures succ[x] != k { EdgesAreMatches(g, t, rules, x); }
  }

  /** Two rules whose targets match each other are refused, with the rule reported no later in the file than either. */
  lemma MutualTargetsAreRefused(
    g: Globs, t: Tables<string>, rules: Rules, a: string, b: string, first: Option<string>)
    requires Linked(g, t, rules) && NamesTarget(rules, a) && NamesTarget(rules, b)
    requires Lookup(g, t, rules[a].target).Match? && Lookup(g, t, rules[a].target).value == b
    requires Lookup(g, t, rules[b].target).Match? && Lookup(g, t, rules[b].target).value == a
    requires Lowest(rules, TargetGraph(g, t, rules), rules.Keys, first)
    ensures first.Some? && first.value in rules
    ensures rules[first.value].lineNo <= rules[a].lineNo && rules[first.value].lineNo <= rules[b].lineNo
  {
    var succ := TargetGraph(g, t, rules);
    EdgesAreMatches(g, t, rules, a);
    EdgesAreMatches(g, t, rules, b);
    TwoStepsRound(succ, a, b);
    TwoStepsRound(succ, b, a);
    CycleNodeOffends(g, t, rules, a);
    CycleNodeOffends(g, t, rules, b);
  }

  lemma TwoStepsRound(succ: Graph, a: string, b: string)
    requires a in succ && succ[a] == b && b in succ && succ[b] == a
    ensures OnCycle(succ, a)
  {
    assert Walk(succ, a, 0) == Some(a);
    assert Walk(succ, a, 1) == Some(b);
    assert Walk(succ, a, 2) == Some(a);
  }

  // ---------- accepted rules ----------

  lemma {:induction false} PathOf(succ: Graph, k: string, n: nat) returns (path: seq<string>)
    requires Walk(succ, k, n).Some? && !ReachesCycle(succ, k)
    ensures |path| == n + 1 && Path(succ, k, path)
  {
    if n == 0 {
      path := [k];
    } else {
      var init := PathOf(succ, k, n - 1);
      var last := Walk(succ, k, n).value;
      forall j | 0 <= j < n ensures init[j] != last {
        if init[j] == last { RevisitIsCycle(succ, k, init, j); }
      }
      PathExtend(succ, k, init, last);
      path := init + [last];
    }
  }

  lemma {:induction false} DistinctBounded(path: seq<string>, within: set<string>)
    requires forall i :: 0 <= i < |path| ==> path[i] in within
    requires forall i, j :: 0 <= i < j < |path| ==> path[i] != path[j]
    ensures |path| <= |within|
  {
    if path != [] {
      DistinctBounded(path[..|path| - 1], within - {path[|path| - 1]});
    }
  }

  lemma TargetsAreRules(g: Globs, t: Tables<string>, rules: Rules)
    requires Linked(g, t, rules)
    ensures forall x :: x in TargetGraph(g, t, rules) ==> TargetGraph(g, t, rules)[x] in rules
  {
  }

  lemma {:induction false} WalkStaysIn(succ: Graph, nodes: set<string>, k: string, n: nat)
    requires forall x :: x in succ ==> succ[x] in nodes
    requires k in nodes && Walk(succ, k, n).Some?
    ensures Walk(succ, k, n).value in nodes
  {
    if n > 0 { WalkPrefix(succ, k, n - 1, n); }
  }

  /** A cycle is reachable exactly when the walk is endless, which shows after as many hops as there are nodes. */
  lemma {:induction false} EndlessIffCycle(succ: Graph, nodes: set<string>, k: string)
    requires k in nodes && forall x :: x in succ ==> succ[x] in nodes
    ensures ReachesCycle(succ, k) <==> forall n: nat :: Walk(succ, k, n).Some?
    ensures ReachesCycle(succ, k) <==> Walk(succ, k, |nodes|).Some?
  {
    if ReachesCycle(succ, k) {
      forall n: nat ensures Walk(succ, k, n).Some? {
        if Walk(succ, k, n).None? { EndingWalkIsSafe(succ, k, n); }
      }
    } else {
      var n: nat := |nodes|;
      if Walk(succ, k, n).Some? {
        var path := PathOf(succ, k, n);
        forall i | 0 <= i < |path| ensures path[i] in nodes { WalkStaysIn(succ, nodes, k, i); }
        DistinctBounded(path, nodes);
        assert false;
      }
      assert !Walk(succ, k, n).Some?;
    }
  }

  /** Accepted rules never resolve forever: every chain of targets ends within as many hops as there are rules. */
  lemma {:induction false} AcceptedChainsEnd(g: Globs, t: Tables<string>, rules: Rules, k: string)
    requires Linked(g, t, rules) && k in rules
    requires Lowest(rules, TargetGraph(g, t, rules), rules.Keys, None)
    ensures Walk(TargetGraph(g, t, rules), k, |rules|).None?
  {
    ErrorIffCycle(g, t, rules, None);
    TargetsAreRules(g, t, rules);
    EndlessIffCycle(TargetGraph(g, t, rules), rules.Keys, k);
  }
}
