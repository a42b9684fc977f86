/** plugin_block_undelegated.go: one longest-prefix lookup on the reversed name, followed by a single test
    that the match ends at a label boundary. */
module Undelegated {
  import opened Names

  function Keys(rules: set<string>): set<string> {
    set r | r in rules :: Reversed(r)
  }

  predicate Blocked(rules: set<string>, name: string) {
    var rev := Reversed(name);
    match LongestPrefix(Keys(rules), rev, |rev|)
    case None => false
    case Some(n) => n == |rev| || rev[n] == '.'
  }

  /** The name is an undelegated zone or lies in one. */
  ghost predicate Covered(rules: set<string>, name: string) {
    exists r :: r in rules && LabelSuffix(r, name)
  }

  /** No rule lies under another. */
  ghost predicate Antichain(rules: set<string>) {
    forall r, s :: r in rules && s in rules ==> !ProperLabelSuffix(r, s)
  }

  /** A rule is a label suffix of the name when its reversal is a prefix that stops at a boundary. */
  lemma BoundaryExact(rule: string, name: string)
    ensures
      var k, rev := Reversed(rule), Reversed(name);
      LabelSuffix(rule, name) <==> k <= rev && (|k| == |rev| || rev[|k|] == '.')
  {
    var k, rev := Reversed(rule), Reversed(name);
    SuffixKeyExact(rule, name);
    var key, all := SuffixKey(rule), SuffixKey(name);
    if key <= all {
      assert k == key[..|k|] == all[..|k|] == rev[..|k|];
      assert key[|k|] == all[|k|];
    }
    if k <= rev && (|k| == |rev| || rev[|k|] == '.') {
      assert all[..|key|] == key;
    }
  }

  /** The plugin never blocks a name outside the listed zones. */
  lemma BlockedIsCovered(rules: set<string>, name: string)
    requires Blocked(rules, name)
    ensures Covered(rules, name)
  {
    var rev := Reversed(name);
    var n := LongestPrefix(Keys(rules), rev, |rev|).value;
    var r :| r in rules && Reversed(r) == rev[..n];
    BoundaryExact(r, name);
  }

  /** A longer match that runs past the boundary of a covering rule lies under that rule. */
  lemma LongerMatchIsNested(r: string, s: string, name: string)
    requires LabelSuffix(r, name) && Reversed(s) <= Reversed(name) && |r| < |s|
    ensures ProperLabelSuffix(r, s)
  {
    BoundaryExact(r, name);
    var k, t, rev := Reversed(r), Reversed(s), Reversed(name);
    assert t == rev[..|t|] && k == rev[..|k|] == t[..|k|] && t[|k|] == rev[|k|];
    BoundaryExact(r, s);
  }

  lemma CoveredIsBlocked(rules: set<string>, name: string)
    requires Antichain(rules) && Covered(rules, name)
    ensures Blocked(rules, name)
  {
    var rev := Reversed(name);
    var r :| r in rules && LabelSuffix(r, name);
    BoundaryExact(r, name);
    assert Reversed(r) in Keys(rules);
    var n := LongestPrefix(Keys(rules), rev, |rev|).value;
    var s :| s in rules && Reversed(s) == rev[..n];
    if |r| < n { LongerMatchIsNested(r, s, name); }
  }

  lemma {:induction false} LongestMember(rules: set<string>) returns (l: string)
    requires rules != {}
    ensures l in rules && forall r :: r in rules ==> |r| <= |l|
    decreases |rules|
  {
    l :| l in rules;
    if rules != {l} {
      var m := LongestMember(rules - {l});
      if |m| > |l| { l := m; }
    }
  }

  /** When some rule lies under another, the plugin misses a name: the longest such rule with one more
      character in front is covered by the shorter rule but matches the longer one first. */
  lemma NestedRulesMiss(rules: set<string>, r: string, s: string) returns (name: string)
    requires r in rules && s in rules && ProperLabelSuffix(r, s)
    ensures Covered(rules, name) && !Blocked(rules, name)
  {
    var nested := set x | x in rules && ProperlyUnder(rules, x);
    assert s in nested;
    var l := LongestMember(nested);
    var p :| p in rules && ProperLabelSuffix(p, l);
    name := "x" + l;
    assert name[1..] == l;
    EndsWithTransitive("." + p, l, name);
    assert ProperlyUnder(rules, name) && name !in nested;
    OneLonger(rules, l, name);
  }

  /** With rule l but not "x" + l, the longest match for the latter is l, and it stops inside a label. */
  lemma OneLonger(rules: set<string>, l: string, name: string)
    requires l in rules && name == "x" + l && name !in rules
    ensures !Blocked(rules, name)
  {
    var rev := Reversed(name);
    assert name[1..] == l;
    ReversedPrefix(l, name);
    assert Reversed(l) in Keys(rules);
    forall t | t in rules ensures Reversed(t) != rev {
      if Reversed(t) == rev {
        ReversedTwice(t);
        ReversedTwice(name);
      }
    }
    assert rev[..|rev|] == rev && rev[|l|] == 'x';
  }

  ghost predicate ProperlyUnder(rules: set<string>, x: string) {
    exists r :: r in rules && ProperLabelSuffix(r, x)
  }

  ghost predicate ExactOn(rules: set<string>, name: string) {
    Blocked(rules, name) <==> Covered(rules, name)
  }

  /** One longest match and one boundary test decide membership for every name exactly when no rule lies
      under another. */
  lemma ExactIffAntichain(rules: set<string>)
    ensures (forall name :: ExactOn(rules, name)) <==> Antichain(rules)
  {
    if Antichain(rules) {
      forall name ensures ExactOn(rules, name) {
        if Blocked(rules, name) { BlockedIsCovered(rules, name); }
        if Covered(rules, name) { CoveredIsBlocked(rules, name); }
      }
    } else {
      var r, s :| r in rules && s in rules && ProperLabelSuffix(r, s);
      var name := NestedRulesMiss(rules, r, s);
      assert !ExactOn(rules, name);
    }
  }

  function Members(list: seq<string>): set<string> {
    set r | r in list
  }

  class BlockUndelegated {
    var suffixes: set<string>

    /** Init: loads the list into the trie. */
    constructor (undelegated: seq<string>)
      ensures suffixes == Keys(Members(undelegated))
    {
      suffixes := {};
      new;
      for i := 0 to |undelegated|
        invariant suffixes == Keys(Members(undelegated[..i]))
      {
        var pattern := StringReverse(undelegated[i]);
        suffixes := suffixes + {pattern};
        assert undelegated[..i + 1] == undelegated[..i] + [undelegated[i]];
      }
      assert undelegated[..|undelegated|] == undelegated;
    }

    /** Eval: whether the query is answered with a synthetic name error. */
    method Eval(qName: string, ghost rules: set<string>) returns (synth: bool)
      requires suffixes == Keys(rules)
      ensures synth == Blocked(rules, qName)
    {
      var revQname := StringReverse(qName);
      var hit := LongestPrefix(suffixes, revQname, |revQname|);
      if hit.None? { return false; }
      return hit.value == |revQname| || revQname[hit.value] == '.';
    }
  }
}
