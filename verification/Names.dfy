/** Domain names as strings: label suffixes, and the reversed-string tries that stand in for them. */
module Names {
  import opened Wrappers

  // ---------- label suffixes ----------

  predicate EndsWith(name: string, tail: string) {
    |tail| <= |name| && name[|name| - |tail|..] == tail
  }

  /** The name is the rule itself or lies under it. */
  predicate LabelSuffix(rule: string, name: string) {
    name == rule || EndsWith(name, "." + rule)
  }

  predicate ProperLabelSuffix(rule: string, name: string) {
    EndsWith(name, "." + rule)
  }

  lemma EndsWithTransitive(a: string, b: string, c: string)
    requires EndsWith(b, a) && EndsWith(c, b)
    ensures EndsWith(c, a)
  {
    assert c[|c| - |b|..][|b| - |a|..] == c[|c| - |a|..];
  }

  lemma ProperTransitive(a: string, b: string, c: string)
    requires ProperLabelSuffix(a, b) && LabelSuffix(b, c)
    ensures ProperLabelSuffix(a, c)
  {
    if b != c {
      assert ("." + b)[1..] == b;
      assert EndsWith("." + b, b);
      EndsWithTransitive(b, "." + b, c);
      EndsWithTransitive("." + a, b, c);
    }
  }

  lemma LabelSuffixTransitive(a: string, b: string, c: string)
    requires LabelSuffix(a, b) && LabelSuffix(b, c)
    ensures LabelSuffix(a, c)
  {
    if a != b { ProperTransitive(a, b, c); }
  }

  // ---------- reversal ----------

  function Reversed(s: string): (r: string)
    ensures |r| == |s|
    ensures forall i :: 0 <= i < |s| ==> r[i] == s[|s| - 1 - i]
  {
    seq(|s|, i requires 0 <= i < |s| => s[|s| - 1 - i])
  }

  lemma ReversedTwice(s: string)
    ensures Reversed(Reversed(s)) == s
  {
  }

  /** StringReverse: swaps from both ends of a copy. */
  method StringReverse(s: string) returns (r: string)
    ensures r == Reversed(s)
  {
    var a := new char[|s|](i requires 0 <= i < |s| => s[i]);
    var n, j := |s|, |s| - 1;
    for i := 0 to n / 2
      invariant j == n - 1 - i
      invariant forall k :: 0 <= k < i ==> a[k] == s[n - 1 - k] && a[n - 1 - k] == s[k]
      invariant forall k :: i <= k < n - i ==> a[k] == s[k]
    {
      a[i], a[j] := a[j], a[i];
      j := j - 1;
    }
    r := a[..];
  }

  /** Reversal turns "ends with" into "starts with". */
  lemma ReversedPrefix(tail: string, name: string)
    ensures Reversed(tail) <= Reversed(name) <==> EndsWith(name, tail)
  {
    var r, t := Reversed(name), Reversed(tail);
    if t <= r {
      forall i | 0 <= i < |tail| ensures name[|name| - |tail| + i] == tail[i] {
        assert t[|tail| - 1 - i] == r[|tail| - 1 - i];
      }
    }
    if EndsWith(name, tail) {
      forall i | 0 <= i < |tail| ensures r[i] == t[i] {
        assert name[|name| - |tail|..][|tail| - 1 - i] == tail[|tail| - 1 - i];
      }
    }
  }

  function SuffixKey(rule: string): string {
    Reversed(rule) + "."
  }

  /** The extra dot on both sides makes the trie prefix test exactly the label-suffix test. */
  lemma SuffixKeyExact(rule: string, name: string)
    ensures SuffixKey(rule) <= SuffixKey(name) <==> LabelSuffix(rule, name)
  {
    var k, n := SuffixKey(rule), SuffixKey(name);
    assert Reversed("." + rule) == Reversed(rule) + ".";
    ReversedPrefix("." + rule, name);
    if k <= n && |rule| == |name| {
      assert Reversed(rule) == k[..|rule|] == n[..|name|] == Reversed(name);
      ReversedTwice(rule);
      ReversedTwice(name);
    } else if k <= n {
      assert k == n[..|k|] == Reversed(name)[..|k|];
    }
    if EndsWith(name, "." + rule) {
      assert k == Reversed(name)[..|k|] == n[..|k|];
    }
  }

  // ---------- longest-prefix lookup ----------

  /** Length of the longest key that is a prefix of s, among those of length at most n. */
  function LongestPrefix(keys: set<string>, s: string, n: nat): (r: Option<nat>)
    requires n <= |s|
    ensures r.Some? ==> r.value <= n && s[..r.value] in keys
    ensures forall k :: k in keys && k <= s && |k| <= n ==> r.Some? && |k| <= r.value
  {
    if s[..n] in keys then Some(n)
    else if n == 0 then None
    else
      var r := LongestPrefix(keys, s, n - 1);
      assert forall k :: k in keys && k <= s && |k| == n ==> k == s[..n];
      r
  }
}
