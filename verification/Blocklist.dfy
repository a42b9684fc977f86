/** generate-domains-blocklist.py: merging blocklists and dropping entries that another entry already covers
    or that the allowlist exempts, for lists without glob patterns. */
module Blocklist {
  import opened Names
  import opened Wrappers

  // ---------- labels ----------

  function FirstDot(s: string): (d: nat)
    ensures d <= |s|
    ensures d < |s| ==> s[d] == '.'
  {
    if s == "" || s[0] == '.' then 0 else FirstDot(s[1..]) + 1
  }

  lemma {:induction false} FirstDotIsFirst(s: string, i: nat)
    requires i < |s| && s[i] == '.'
    ensures FirstDot(s) <= i
  {
    if s[0] != '.' { FirstDotIsFirst(s[1..], i - 1); }
  }

  /** str.split(name, ".") */
  function Split(s: string): (parts: seq<string>)
    ensures parts != []
  {
    var d := FirstDot(s);
    if d == |s| then [s] else [s[..d]] + Split(s[d + 1..])
  }

  /** str.join(".", parts) */
  function Join(parts: seq<string>): string {
    if parts == [] then ""
    else if |parts| == 1 then parts[0]
    else parts[0] + "." + Join(parts[1..])
  }

  lemma {:induction false} JoinCons(x: string, parts: seq<string>)
    requires parts != []
    ensures Join([x] + parts) == x + "." + Join(parts)
  {
    assert ([x] + parts)[1..] == parts;
  }

  lemma CutAtDot(s: string, d: nat)
    requires d < |s| && s[d] == '.'
    ensures s == s[..d] + "." + s[d + 1..]
  {
  }

  lemma {:induction false} JoinSplit(s: string)
    ensures Join(Split(s)) == s
  {
    var d := FirstDot(s);
    if d < |s| {
      var rest := Split(s[d + 1..]);
      JoinSplit(s[d + 1..]);
      JoinCons(s[..d], rest);
      CutAtDot(s, d);
    }
  }

  lemma ConsDrop(x: string, parts: seq<string>, k: nat)
    requires 1 <= k <= |parts| + 1
    ensures ([x] + parts)[k..] == parts[k - 1..]
  {
  }

  lemma SplitRest(s: string, k: nat)
    requires FirstDot(s) < |s| && 1 <= k <= |Split(s[FirstDot(s) + 1..])| + 1
    ensures |Split(s)| == |Split(s[FirstDot(s) + 1..])| + 1
    ensures Split(s)[k..] == Split(s[FirstDot(s) + 1..])[k - 1..]
  {
    ConsDrop(s[..FirstDot(s)], Split(s[FirstDot(s) + 1..]), k);
  }

  lemma {:induction false} SplitMore(s: string)
    requires |Split(s)| > 1
    ensures FirstDot(s) < |s| && |Split(s)| == |Split(s[FirstDot(s) + 1..])| + 1
  {
  }

  lemma AfterDot(s: string, d: nat)
    requires d < |s| && s[d] == '.'
    ensures ProperLabelSuffix(s[d + 1..], s) && EndsWith(s, s[d + 1..])
  {
    assert s[d..] == "." + s[d + 1..];
  }

  /** What is left after dropping one or more leading labels is a proper label suffix ... */
  lemma {:induction false} DroppedIsSuffix(s: string, k: nat)
    requires 1 <= k < |Split(s)|
    ensures ProperLabelSuffix(Join(Split(s)[k..]), s)
  {
    SplitMore(s);
    var rest := s[FirstDot(s) + 1..];
    SplitRest(s, k);
    AfterDot(s, FirstDot(s));
    if k == 1 {
      JoinSplit(rest);
    } else {
      DroppedIsSuffix(rest, k - 1);
      ProperTransitive(Join(Split(rest)[k - 1..]), rest, s);
    }
  }

  lemma SliceOfSlice(s: string, a: nat, b: nat)
    requires a + b <= |s|
    ensures s[a..][b..] == s[a + b..]
  {
  }

  lemma {:induction false} SuffixOfRest(s: string, t: string)
    requires ProperLabelSuffix(t, s)
    ensures FirstDot(s) < |s|
    ensures t == s[FirstDot(s) + 1..] || ProperLabelSuffix(t, s[FirstDot(s) + 1..])
  {
    var d, p := FirstDot(s), |s| - |t| - 1;
    assert s[p] == s[p..][0] == '.';
    FirstDotIsFirst(s, p);
    if p == d {
      SliceOfSlice(s, p, 1);
      assert ("." + t)[1..] == t;
    } else {
      SliceOfSlice(s, d + 1, p - d - 1);
    }
  }

  /** ... and every proper label suffix arises that way. */
  lemma {:induction false} SuffixIsDropped(s: string, t: string) returns (k: nat)
    requires ProperLabelSuffix(t, s)
    ensures 1 <= k < |Split(s)| && Join(Split(s)[k..]) == t
  {
    SuffixOfRest(s, t);
    var rest := s[FirstDot(s) + 1..];
    var j := 0;
    if t == rest {
      JoinSplit(rest);
    } else {
      j := SuffixIsDropped(rest, t);
    }
    SplitRest(s, j + 1);
    k := j + 1;
  }

  // ---------- has_suffix ----------

  /** A listed name is a proper label suffix of this one; the loop ends by looking up the empty string. */
  ghost predicate HasSuffix(names: set<string>, name: string) {
    "" in names || exists t :: t in names && ProperLabelSuffix(t, name)
  }

  method HasSuffixLoop(names: set<string>, name: string) returns (r: bool)
    ensures r <==> HasSuffix(names, name)
  {
    var parts := Split(name);
    ghost var k := 0;
    while |parts| > 0
      invariant k <= |Split(name)| && parts == Split(name)[k..]
      invariant forall j :: 1 <= j <= k ==> Join(Split(name)[j..]) !in names
    {
      parts := parts[1..];
      k := k + 1;
      var rest := Join(parts);
      if rest in names {
        if parts != [] { DroppedIsSuffix(name, k); }
        return true;
      }
    }
    assert Join(Split(name)[k..]) == "";
    forall t | t in names ensures !ProperLabelSuffix(t, name) {
      if ProperLabelSuffix(t, name) {
        var j := SuffixIsDropped(name, t);
      }
    }
    return false;
  }

  // ---------- deduplication ----------

  ghost predicate Exempt(allowed: set<string>, name: string) {
    name in allowed || HasSuffix(allowed, name)
  }

  /** What the generator keeps: no listed name above it, and not exempt. */
  ghost predicate Kept(all: set<string>, allowed: set<string>, name: string) {
    !HasSuffix(all, name) && !Exempt(allowed, name)
  }

  /** The report of one list: the names it contributes and how many it dropped for each reason. */
  datatype Section = Section(names: seq<string>, ignored: nat, exempted: nat)

  ghost predicate InLists(lists: seq<seq<string>>, name: string) {
    exists i :: 0 <= i < |lists| && name in lists[i]
  }

  /** All names emitted, section by section. */
  function Concat(out: seq<Section>): seq<string> {
    if out == [] then [] else Concat(out[..|out| - 1]) + out[|out| - 1].names
  }

  ghost predicate Distinct(s: seq<string>) {
    forall i, j :: 0 <= i < j < |s| ==> s[i] != s[j]
  }

  /** How many of the names lie under no listed one but are exempt. */
  ghost function CountExempt(names: seq<string>, all: set<string>, allowed: set<string>): nat {
    if names == [] then 0 else
    var n := names[|names| - 1];
    CountExempt(names[..|names| - 1], all, allowed) + if !HasSuffix(all, n) && Exempt(allowed, n) then 1 else 0
  }

  /** One list against the names emitted so far. */
  method ProcessList(names: seq<string>, all: set<string>, allowed: set<string>, unique: set<string>)
    returns (section: Section, unique': set<string>)
    requires forall n :: n in unique ==> Kept(all, allowed, n)
    ensures forall n :: n in unique' <==> n in unique || (n in names && Kept(all, allowed, n))
    ensures forall n :: n in section.names <==> n in unique' && n !in unique
    ensures Distinct(section.names)
    ensures AddsUp(section, names) && section.exempted == CountExempt(names, all, allowed)
  {
    var list: seq<string> := [];
    var ignored, exempted := 0, 0;
    unique' := unique;
    for i := 0 to |names|
      invariant forall n :: n in unique' <==> n in unique || (n in names[..i] && Kept(all, allowed, n))
      invariant forall n :: n in list <==> n in unique' && n !in unique
      invariant Distinct(list)
      invariant |list| + ignored + exempted == i && exempted == CountExempt(names[..i], all, allowed)
    {
      var name := names[i];
      assert names[..i + 1] == names[..i] + [name] && names[..i + 1][..i] == names[..i];
      var covered := HasSuffixLoop(all, name);
      if covered || name in unique' {
        ignored := ignored + 1;
      } else {
        var above := HasSuffixLoop(allowed, name);
        if above || name in allowed {
          exempted := exempted + 1;
        } else {
          list := list + [name];
          unique' := unique' + {name};
        }
      }
    }
    assert names[..|names|] == names;
    section := Section(list, ignored, exempted);
  }

  /** The names emitted are, each exactly once, the listed names that are kept. */
  ghost predicate Emitted(out: seq<Section>, lists: seq<seq<string>>, all: set<string>, allowed: set<string>) {
    && Distinct(Concat(out))
    && forall n :: n in Concat(out) <==> InLists(lists, n) && Kept(all, allowed, n)
  }

  /** Every name of the list is accounted for. */
  predicate AddsUp(section: Section, names: seq<string>) {
    |section.names| + section.ignored + section.exempted == |names|
  }

  /** The main loop, whatever the order of the lists and of the names in them. */
  method Deduplicate(lists: seq<seq<string>>, all: set<string>, allowed: set<string>) returns (out: seq<Section>)
    ensures |out| == |lists| && Emitted(out, lists, all, allowed)
    ensures forall i :: 0 <= i < |out| ==> AddsUp(out[i], lists[i])
  {
    out := [];
    var unique: set<string> := {};
    for i := 0 to |lists|
      invariant |out| == i && Emitted(out, lists[..i], all, allowed)
      invariant SameNames(unique, Concat(out))
      invariant forall j :: 0 <= j < i ==> AddsUp(out[j], lists[j])
    {
      var section, unique' := ProcessList(lists[i], all, allowed, unique);
      EmittedMore(out, section, lists, i, all, allowed, unique, unique');
      out := out + [section];
      unique := unique';
    }
    assert lists[..|lists|] == lists;
  }

  ghost predicate SameNames(names: set<string>, list: seq<string>) {
    forall n :: n in names <==> n in list
  }

  lemma {:induction false} EmittedMore(
    out: seq<Section>, section: Section, lists: seq<seq<string>>, i: nat, all: set<string>, allowed: set<string>,
    unique: set<string>, unique': set<string>)
    requires i < |lists| && Emitted(out, lists[..i], all, allowed) && SameNames(unique, Concat(out))
    requires forall n :: n in unique' <==> n in unique || (n in lists[i] && Kept(all, allowed, n))
    requires Distinct(section.names) && forall n :: n in section.names <==> n in unique' && n !in unique
    ensures Emitted(out + [section], lists[..i + 1], all, allowed) && SameNames(unique', Concat(out + [section]))
  {
    assert (out + [section])[..|out|] == out;
    assert Concat(out + [section]) == Concat(out) + section.names;
    DistinctConcat(Concat(out), section.names);
    forall n ensures n in Concat(out + [section]) <==> InLists(lists[..i + 1], n) && Kept(all, allowed, n) {
      ListsGrow(lists, i, n);
    }
  }

  lemma DistinctConcat(a: seq<string>, b: seq<string>)
    requires Distinct(a) && Distinct(b) && forall n :: n in b ==> n !in a
    ensures Distinct(a + b)
  {
    forall i, j | 0 <= i < |a| <= j < |a + b| ensures (a + b)[i] != (a + b)[j] {
      assert b[j - |a|] in b;
    }
  }

  lemma ListsGrow(lists: seq<seq<string>>, i: nat, n: string)
    requires i < |lists|
    ensures InLists(lists[..i + 1], n) <==> InLists(lists[..i], n) || n in lists[i]
  {
    var a, b := lists[..i], lists[..i + 1];
    if InLists(a, n) {
      var j :| 0 <= j < |a| && n in a[j];
      assert n in b[j];
    }
    if n in lists[i] { assert n in b[i]; }
  }

  // ---------- loading ----------

  /** One finished download of a source: the names parsed from it, or a failure. A source that the configuration
      lists twice is downloaded twice. */
  datatype Fetch = Fetch(url: string, names: Option<set<string>>)

  /** blocklists and all_names */
  datatype Loaded = Loaded(lists: map<string, set<string>>, all: set<string>)

  function Load(fetches: seq<Fetch>): Loaded {
    if fetches == [] then Loaded(map[], {})
    else
      var before, f := Load(fetches[..|fetches| - 1]), fetches[|fetches| - 1];
      if f.names.None? then before
      else Loaded(before.lists[f.url := f.names.value], before.all + f.names.value)
  }

  /** The collecting loop: a failure is passed over or ends the program. */
  method LoadBlocklists(fetches: seq<Fetch>, ignoreFailures: bool) returns (r: Option<Loaded>)
    ensures r.None? <==> !ignoreFailures && exists f :: f in fetches && f.names.None?
    ensures r.Some? ==> r.value == Load(fetches)
  {
    var lists: map<string, set<string>> := map[];
    var all: set<string> := {};
    for i := 0 to |fetches|
      invariant ignoreFailures || forall f :: f in fetches[..i] ==> f.names.Some?
      invariant Loaded(lists, all) == Load(fetches[..i])
    {
      var f := fetches[i];
      assert fetches[..i + 1] == fetches[..i] + [f];
      assert fetches[..i + 1][..i] == fetches[..i];
      match f.names {
        case Some(names) =>
          lists := lists[f.url := names];
          all := all + names;
        case None =>
          if !ignoreFailures { return None; }
      }
    }
    assert fetches[..|fetches|] == fetches;
    return Some(Loaded(lists, all));
  }

  /** The names of every download. */
  function AllNames(fetches: seq<Fetch>): set<string> {
    Load(fetches).all
  }

  ghost predicate Downloaded(fetches: seq<Fetch>, i: nat, name: string) {
    i < |fetches| && fetches[i].names.Some? && name in fetches[i].names.value
  }

  /** A successful download with no later one of the same source. */
  ghost predicate IsLast(fetches: seq<Fetch>, i: nat) {
    && i < |fetches| && fetches[i].names.Some?
    && forall j :: i < j < |fetches| && fetches[j].names.Some? ==> fetches[j].url != fetches[i].url
  }

  /** The name is in the last successful download of some source. */
  ghost predicate InLastFetch(fetches: seq<Fetch>, name: string) {
    exists i: nat :: IsLast(fetches, i) && name in fetches[i].names.value
  }

  /** all_names holds what any download brought ... */
  lemma {:induction false} AllNamesAreDownloaded(fetches: seq<Fetch>, name: string)
    ensures name in AllNames(fetches) <==> exists i: nat :: Downloaded(fetches, i, name)
  {
    if fetches != [] {
      var k := |fetches| - 1;
      var before := fetches[..k];
      AllNamesAreDownloaded(before, name);
      if name in AllNames(before) {
        var i: nat :| Downloaded(before, i, name);
        assert Downloaded(fetches, i, name);
      } else if name in AllNames(fetches) {
        assert Downloaded(fetches, k, name);
      } else if i: nat :| Downloaded(fetches, i, name) {
        assert i != k && Downloaded(before, i, name);
        assert false;
      }
    }
  }

  /** ... while a source keeps only its last one. */
  lemma {:induction false} LastFetchIsListed(fetches: seq<Fetch>, i: nat)
    requires IsLast(fetches, i)
    ensures fetches[i].url in Load(fetches).lists
    ensures Load(fetches).lists[fetches[i].url] == fetches[i].names.value
  {
    var k := |fetches| - 1;
    if i < k {
      assert IsLast(fetches[..k], i);
      LastFetchIsListed(fetches[..k], i);
    }
  }

  lemma {:induction false} ListedWasFetched(fetches: seq<Fetch>, url: string) returns (i: nat)
    requires url in Load(fetches).lists
    ensures IsLast(fetches, i) && fetches[i].url == url
  {
    var k := |fetches| - 1;
    i := k;
    if fetches[k].names.None? || fetches[k].url != url {
      i := ListedWasFetched(fetches[..k], url);
      assert fetches[..k][i] == fetches[i];
      forall j | i < j < |fetches| && fetches[j].names.Some? ensures fetches[j].url != url {
        assert j == k || fetches[..k][j] == fetches[j];
      }
    }
  }

  // ---------- the generated file ----------

  /** The iteration over blocklists.items() and over each set of names, in some order. */
  ghost predicate Enumerates(lists: seq<seq<string>>, urls: seq<string>, loaded: Loaded) {
    && |lists| == |urls| && Distinct(urls) && (forall u :: u in urls <==> u in loaded.lists)
    && forall i :: 0 <= i < |lists| ==> ListsAll(lists[i], loaded.lists[urls[i]])
  }

  ghost predicate ListsAll(list: seq<string>, names: set<string>) {
    Distinct(list) && forall n :: n in list <==> n in names
  }

  /** Whatever the order, the lists hold the names of each source's last download. */
  lemma {:induction false} ListsAreLastFetches(
    lists: seq<seq<string>>, urls: seq<string>, fetches: seq<Fetch>, name: string)
    requires Enumerates(lists, urls, Load(fetches))
    ensures InLists(lists, name) <==> InLastFetch(fetches, name)
  {
    if InLists(lists, name) {
      var k :| 0 <= k < |lists| && name in lists[k];
      assert urls[k] in urls && ListsAll(lists[k], Load(fetches).lists[urls[k]]);
      var i := ListedWasFetched(fetches, urls[k]);
      LastFetchIsListed(fetches, i);
    }
    if InLastFetch(fetches, name) {
      var i: nat :| IsLast(fetches, i) && name in fetches[i].names.value;
      LastFetchIsListed(fetches, i);
      assert fetches[i].url in urls;
      var k :| 0 <= k < |urls| && urls[k] == fetches[i].url;
      assert ListsAll(lists[k], Load(fetches).lists[urls[k]]);
      assert name in lists[k];
    }
  }

  method NamesInSomeOrder(names: set<string>) returns (list: seq<string>)
    ensures ListsAll(list, names)
  {
    list := [];
    var rest := names;
    while rest != {}
      invariant Distinct(list) && rest <= names && forall n :: n in list <==> n in names && n !in rest
      decreases |rest|
    {
      var n :| n in rest;
      DistinctConcat(list, [n]);
      list := list + [n];
      rest := rest - {n};
    }
  }

  /** The names written are, each exactly once, the kept names of each source's last download. */
  ghost predicate Generated(out: seq<Section>, fetches: seq<Fetch>, allowed: set<string>) {
    && Distinct(Concat(out))
    && forall n :: n in Concat(out) <==> InLastFetch(fetches, n) && Kept(AllNames(fetches), allowed, n)
  }

  /** blocklists_from_config_file, from the finished downloads to the file. */
  method Generate(fetches: seq<Fetch>, ignoreFailures: bool, allowed: set<string>) returns (r: Option<seq<Section>>)
    ensures r.None? <==> !ignoreFailures && exists f :: f in fetches && f.names.None?
    ensures r.Some? ==> Generated(r.value, fetches, allowed)
  {
    var loaded := LoadBlocklists(fetches, ignoreFailures);
    if loaded.None? { return None; }
    var urls := NamesInSomeOrder(loaded.value.lists.Keys);
    var lists: seq<seq<string>> := [];
    for i := 0 to |urls|
      invariant |lists| == i
      invariant forall j :: 0 <= j < i ==> ListsAll(lists[j], loaded.value.lists[urls[j]])
    {
      assert urls[i] in urls;
      var list := NamesInSomeOrder(loaded.value.lists[urls[i]]);
      lists := lists + [list];
    }
    var out := Deduplicate(lists, loaded.value.all, allowed);
    forall n ensures InLists(lists, n) <==> InLastFetch(fetches, n) {
      ListsAreLastFetches(lists, urls, fetches, n);
    }
    return Some(out);
  }

  // ---------- meaning ----------

  lemma SuffixOfSuffix(names: set<string>, t: string, name: string)
    requires HasSuffix(names, t) && ProperLabelSuffix(t, name)
    ensures HasSuffix(names, name)
  {
    if "" !in names {
      var a :| a in names && ProperLabelSuffix(a, t);
      ProperTransitive(a, t, name);
    }
  }

  lemma LastFetchIsInAll(fetches: seq<Fetch>, name: string)
    requires InLastFetch(fetches, name)
    ensures name in AllNames(fetches)
  {
    var i: nat :| IsLast(fetches, i) && name in fetches[i].names.value;
    assert Downloaded(fetches, i, name);
    AllNamesAreDownloaded(fetches, name);
  }

  /** The file, name by name: it lists a name exactly when the last download of some source brought it, it is not
      allowed, and neither an allowed name nor a downloaded one lies above it.  (An empty name lies above all.) */
  lemma {:induction false} WrittenNames(out: seq<Section>, fetches: seq<Fetch>, allowed: set<string>, n: string)
    requires Generated(out, fetches, allowed)
    ensures n in Concat(out) <==>
            && (exists i: nat :: IsLast(fetches, i) && n in fetches[i].names.value)
            && n !in allowed
            && (forall a :: a in allowed ==> a != "" && !ProperLabelSuffix(a, n))
            && (forall d, i: nat :: Downloaded(fetches, i, d) ==> d != "" && !ProperLabelSuffix(d, n))
  {
    var all := AllNames(fetches);
    forall d ensures d in all <==> exists i: nat :: Downloaded(fetches, i, d) { AllNamesAreDownloaded(fetches, d); }
    assert HasSuffix(all, n) <==> exists d :: d in all && (d == "" || ProperLabelSuffix(d, n));
    assert Exempt(allowed, n) <==> n in allowed || exists a :: a in allowed && (a == "" || ProperLabelSuffix(a, n));
  }

  /** What is written, over all lists together, is an antichain of the label order. */
  lemma {:induction false} EmittedIsAntichain(
    out: seq<Section>, fetches: seq<Fetch>, allowed: set<string>, a: string, b: string)
    requires Generated(out, fetches, allowed)
    requires a in Concat(out) && b in Concat(out)
    ensures !ProperLabelSuffix(a, b)
  {
    LastFetchIsInAll(fetches, a);
  }

  /** Above every listed entry that is not exempt there is a kept one. */
  lemma {:induction false} KeptAbove(all: set<string>, allowed: set<string>, x: string) returns (e: string)
    requires "" !in all && x in all && !Exempt(allowed, x)
    ensures e in all && Kept(all, allowed, e) && LabelSuffix(e, x)
    decreases |x|
  {
    if HasSuffix(all, x) {
      var t :| t in all && ProperLabelSuffix(t, x);
      if HasSuffix(allowed, t) { SuffixOfSuffix(allowed, t, x); }
      e := KeptAbove(all, allowed, t);
      LabelSuffixTransitive(e, t, x);
    } else {
      e := x;
    }
  }

  /** Some written entry covers the name. */
  ghost predicate Blocks(out: seq<Section>, name: string) {
    exists e :: e in Concat(out) && LabelSuffix(e, name)
  }

  /** Everything under a downloaded, non-exempt entry is blocked by the output. */
  ghost predicate Preserves(out: seq<Section>, all: set<string>, allowed: set<string>) {
    forall x, name :: x in all && !Exempt(allowed, x) && LabelSuffix(x, name) ==> Blocks(out, name)
  }

  /** When meaning is preserved: every kept name is in the last download of some source; or, if the empty name was
      downloaded, which the suffix loop takes for a suffix of everything, there was nothing to block. */
  ghost predicate Survives(fetches: seq<Fetch>, allowed: set<string>) {
    var all := AllNames(fetches);
    if "" in all then forall x :: x in all ==> Exempt(allowed, x)
    else forall e :: e in all && Kept(all, allowed, e) ==> InLastFetch(fetches, e)
  }

  lemma SurvivorsBlock(out: seq<Section>, fetches: seq<Fetch>, allowed: set<string>)
    requires Generated(out, fetches, allowed) && Survives(fetches, allowed)
    ensures Preserves(out, AllNames(fetches), allowed)
  {
    var all := AllNames(fetches);
    forall x, name | x in all && !Exempt(allowed, x) && LabelSuffix(x, name) ensures Blocks(out, name) {
      var e := KeptAbove(all, allowed, x);
      LabelSuffixTransitive(e, x, name);
      assert e in Concat(out);
    }
  }

  lemma BlockersSurvive(out: seq<Section>, fetches: seq<Fetch>, allowed: set<string>, x: string)
    requires Generated(out, fetches, allowed) && Preserves(out, AllNames(fetches), allowed)
    requires x in AllNames(fetches) && !Exempt(allowed, x)
    ensures "" !in AllNames(fetches) && (Kept(AllNames(fetches), allowed, x) ==> InLastFetch(fetches, x))
  {
    assert LabelSuffix(x, x) && Blocks(out, x);
    var f :| f in Concat(out) && LabelSuffix(f, x);
    LastFetchIsInAll(fetches, f);
  }

  lemma PreservesIff(out: seq<Section>, fetches: seq<Fetch>, allowed: set<string>)
    requires Generated(out, fetches, allowed)
    ensures Preserves(out, AllNames(fetches), allowed) <==> Survives(fetches, allowed)
  {
    var all := AllNames(fetches);
    if Survives(fetches, allowed) { SurvivorsBlock(out, fetches, allowed); }
    if Preserves(out, all, allowed) {
      forall x | x in all && !Exempt(allowed, x)
        ensures "" !in all && (Kept(all, allowed, x) ==> InLastFetch(fetches, x))
      {
        BlockersSurvive(out, fetches, allowed, x);
      }
    }
  }

  /** A repeated download of a source lost no name of the earlier one, as when no source is listed twice. */
  ghost predicate NothingLost(fetches: seq<Fetch>) {
    forall i, j :: 0 <= i < j < |fetches| && fetches[i].url == fetches[j].url ==>
      fetches[i].names.Some? && fetches[j].names.Some? ==> fetches[i].names.value <= fetches[j].names.value
  }

  lemma {:induction false} ReachesLastFetch(fetches: seq<Fetch>, i: nat, name: string)
    requires NothingLost(fetches) && Downloaded(fetches, i, name)
    ensures InLastFetch(fetches, name)
    decreases |fetches| - i
  {
    if !IsLast(fetches, i) {
      var j :| i < j < |fetches| && fetches[j].names.Some? && fetches[j].url == fetches[i].url;
      ReachesLastFetch(fetches, j, name);
    }
  }

  /** In particular when repeated downloads lose nothing and no name is empty, as the line parsers guarantee. */
  lemma DeduplicationPreservesBlocking(out: seq<Section>, fetches: seq<Fetch>, allowed: set<string>)
    requires Generated(out, fetches, allowed)
    requires "" !in AllNames(fetches) && NothingLost(fetches)
    ensures Preserves(out, AllNames(fetches), allowed)
  {
    forall e | e in AllNames(fetches) ensures InLastFetch(fetches, e) {
      AllNamesAreDownloaded(fetches, e);
      var i: nat :| Downloaded(fetches, i, e);
      ReachesLastFetch(fetches, i, e);
    }
    PreservesIff(out, fetches, allowed);
  }

  lemma AllNamesGrow(fetches: seq<Fetch>, f: Fetch, names: set<string>)
    requires f.names == Some(names)
    ensures AllNames(fetches + [f]) == AllNames(fetches) + names
  {
    assert (fetches + [f])[..|fetches|] == fetches;
  }

  /** A source listed twice whose second download differs: the names of the first are considered, but not written. */
  lemma RefetchedSourceLosesNames(out: seq<Section>, url: string)
    requires Generated(out, [Fetch(url, Some({"a.com"})), Fetch(url, Some({"b.com"}))], {})
    ensures AllNames([Fetch(url, Some({"a.com"})), Fetch(url, Some({"b.com"}))]) == {"a.com", "b.com"}
    ensures !Preserves(out, {"a.com", "b.com"}, {}) && !Blocks(out, "a.com")
  {
    var fetches := [Fetch(url, Some({"a.com"})), Fetch(url, Some({"b.com"}))];
    AllNamesGrow([], fetches[0], {"a.com"});
    AllNamesGrow([fetches[0]], fetches[1], {"b.com"});
    assert [] + [fetches[0]] == [fetches[0]] && [fetches[0]] + [fetches[1]] == fetches;
    forall e | e in Concat(out) ensures !LabelSuffix(e, "a.com") {
      var i: nat :| IsLast(fetches, i) && e in fetches[i].names.value;
      assert i == 1 && e == "b.com";
    }
    assert !Exempt({}, "a.com") && LabelSuffix("a.com", "a.com");
  }
}
