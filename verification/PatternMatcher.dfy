/** pattern_matcher.go: five kinds of rules in five structures, proved to match exactly the names that
    some added rule matches by its own definition. */
module PatternMatcher {
  import opened Names
  import opened Wrappers

  datatype Kind = Prefix | Suffix | Substring | Glob | Exact

  /** An accepted rule: its kind, its normalized text and the value stored with it. */
  datatype Rule<V> = Rule(kind: Kind, text: string, value: V)

  /** The library's glob matcher: which patterns it accepts and what they match. */
  datatype Globs = Globs(wellFormed: string -> bool, matches: (string, string) -> bool)

  // ---------- what a rule means ----------

  predicate Contains(name: string, part: string) {
    exists i :: 0 <= i <= |name| - |part| && At(name, i, part)
  }

  predicate At(name: string, i: int, part: string)
    requires 0 <= i <= |name| - |part|
  {
    name[i..i + |part|] == part
  }

  /** A name contains a part exactly when the part has something, possibly nothing, before and after it. */
  lemma ContainsIff(name: string, part: string)
    ensures Contains(name, part) <==> exists before, after :: name == before + part + after
  {
    if i :| 0 <= i <= |name| - |part| && At(name, i, part) {
      assert name == name[..i] + part + name[i + |part|..];
    }
    if before, after :| name == before + part + after {
      assert At(name, |before|, part);
    }
  }

  predicate Matches(g: Globs, kind: Kind, text: string, name: string) {
    match kind
    case Exact => name == text
    case Suffix => LabelSuffix(text, name)
    case Prefix => text <= name
    case Substring => Contains(name, text)
    case Glob => g.matches(text, name)
  }

  // ---------- reading a rule ----------

  predicate IsGlob(s: string) {
    exists i :: 0 <= i < |s| && (s[i] == '?' || s[i] == '[' || (s[i] == '*' && i != 0 && i != |s| - 1))
  }

  /** A wildcard counts anywhere, except a star at either end. */
  lemma IsGlobIff(s: string)
    ensures IsGlob(s) <==>
            exists before: string, c, after: string ::
              s == before + [c] + after && (c == '?' || c == '[' || (c == '*' && before != "" && after != ""))
  {
    if i :| 0 <= i < |s| && (s[i] == '?' || s[i] == '[' || (s[i] == '*' && i != 0 && i != |s| - 1)) {
      assert s == s[..i] + [s[i]] + s[i + 1..];
    }
    if before: string, c, after: string :|
      s == before + [c] + after && (c == '?' || c == '[' || (c == '*' && before != "" && after != ""))
    {
      assert s[|before|] == c;
    }
  }

  method IsGlobCandidate(s: string) returns (r: bool)
    ensures r == IsGlob(s)
  {
    for i := 0 to |s|
      invariant forall j :: 0 <= j < i ==> !(s[j] == '?' || s[j] == '[' || (s[j] == '*' && j != 0 && j != |s| - 1))
    {
      if s[i] == '?' || s[i] == '[' { return true; }
      if s[i] == '*' && i != 0 && i != |s| - 1 { return true; }
    }
    return false;
  }

  function LowerChar(c: char): char {
    if 'A' <= c <= 'Z' then c - 'A' + 'a' else c
  }

  /** Only the twenty-six capital letters change, each to its small form. */
  lemma LowerByTable(c: char)
    ensures
      var capital, small := "ABCDEFGHIJKLMNOPQRSTUVWXYZ", "abcdefghijklmnopqrstuvwxyz";
      && (forall i :: 0 <= i < 26 && capital[i] == c ==> LowerChar(c) == small[i])
      && (c !in capital ==> LowerChar(c) == c)
  {
    var capital := "ABCDEFGHIJKLMNOPQRSTUVWXYZ";
    if 'A' <= c <= 'Z' { assert capital[(c - 'A') as int] == c; }
  }

  function Lower(s: string): string {
    seq(|s|, i requires 0 <= i < |s| => LowerChar(s[i]))
  }

  datatype Parsed = Bad | Parsed(kind: Kind, text: string)

  function Nonempty(kind: Kind, text: string): Parsed {
    if text == "" then Bad else Parsed(kind, Lower(text))
  }

  /** How Add reads a rule: wildcards first, then `=`, then the label-suffix default. */
  function Parse(g: Globs, s: string): Parsed {
    var leading, trailing := |s| > 0 && s[0] == '*', |s| > 0 && s[|s| - 1] == '*';
    if IsGlob(s) then
      if |s| < 2 || !g.wellFormed(s) then Bad else Nonempty(Glob, s)
    else if leading && trailing then
      if |s| < 3 then Bad else Nonempty(Substring, s[1..|s| - 1])
    else if trailing then
      if |s| < 2 then Bad else Nonempty(Prefix, s[..|s| - 1])
    else if |s| > 0 && s[0] == '=' then
      if |s| < 2 then Bad else Nonempty(Exact, s[1..])
    else
      var t := if leading then s[1..] else s;
      Nonempty(Suffix, if |t| > 0 && t[0] == '.' then t[1..] else t)
  }

  /** The spellings of a rule, lower-cased. */
  predicate Spells(kind: Kind, text: string, written: string) {
    match kind
    case Exact => written == "=" + text
    case Suffix => written == text || written == "." + text || written == "*" + text || written == "*." + text
    case Prefix => written == text + "*"
    case Substring => written == "*" + text + "*"
    case Glob => written == text
  }

  lemma LowerConcat(a: string, b: string)
    ensures Lower(a + b) == Lower(a) + Lower(b)
  {
  }

  /** Whatever Add accepts is a non-empty text in one of the spellings of its kind. */
  lemma ParseReads(g: Globs, s: string)
    requires Parse(g, s).Parsed?
    ensures Parse(g, s).text != "" && Spells(Parse(g, s).kind, Parse(g, s).text, Lower(s))
  {
    var r := Parse(g, s);
    match r.kind {
      case Exact => LowerConcat("=", s[1..]);
      case Suffix =>
        if s[0] == '*' && |s| > 1 && s[1] == '.' { LowerConcat("*.", s[2..]); }
        else if s[0] == '*' || s[0] == '.' { LowerConcat(s[..1], s[1..]); }
      case Prefix => LowerConcat(s[..|s| - 1], "*");
      case Substring =>
        LowerConcat("*", s[1..|s| - 1]);
        LowerConcat("*" + s[1..|s| - 1], "*");
        assert s == "*" + s[1..|s| - 1] + "*";
      case Glob =>
    }
  }

  /** A lower-case text without wildcards and without a leading dot or equals sign. */
  predicate Plain(t: string) {
    && t != "" && t[0] != '=' && t[0] != '.' && Lower(t) == t
    && forall i :: 0 <= i < |t| ==> t[i] != '*' && t[i] != '?' && t[i] != '['
  }

  lemma SpellingIsNoGlob(kind: Kind, text: string, written: string)
    requires Plain(text) && kind != Glob && Spells(kind, text, written)
    ensures !IsGlob(written)
  {
  }

  lemma SuffixSpelling(g: Globs, text: string, written: string)
    requires Plain(text) && Spells(Suffix, text, written) && !IsGlob(written)
    ensures Parse(g, written) == Parsed(Suffix, text)
  {
    if written == "*." + text {
      assert written[1..] == "." + text && written[1..][1..] == text;
    } else if written != text {
      assert written[1..] == text;
    }
  }

  /** And every spelling of a plain text is read back as that rule. */
  lemma ParseUndoesSpelling(g: Globs, kind: Kind, text: string, written: string)
    requires Plain(text) && kind != Glob && Spells(kind, text, written)
    ensures Parse(g, written) == Parsed(kind, text)
  {
    SpellingIsNoGlob(kind, text, written);
    match kind {
      case Exact => assert written[1..] == text;
      case Suffix => SuffixSpelling(g, text, written);
      case Prefix => assert written[..|written| - 1] == text;
      case Substring => assert written[1..|written| - 1] == text;
      case Glob =>
    }
  }

  /** A trailing star is looked at before a leading equals sign. */
  lemma EqualsWithStar(g: Globs, text: string)
    requires Plain(text)
    ensures Parse(g, "=" + text + "*") == Parsed(Prefix, "=" + text)
  {
    var written := "=" + text + "*";
    assert !IsGlob(written) && written[..|written| - 1] == "=" + text;
    LowerConcat("=", text);
  }

  // ---------- the tables ----------

  /** The two tries are maps from keys to values with longest-prefix lookup. */
  datatype Tables<V> = Tables(
    prefixes: map<string, V>,
    suffixes: map<string, V>,
    substrings: seq<string>,
    patterns: seq<string>,
    exact: map<string, V>,
    indirect: map<string, V>)

  function Keep<V>(m: map<string, V>, k: string, v: V): map<string, V> {
    if k in m then m else m[k := v]
  }

  function Inserted<V>(t: Tables<V>, r: Rule<V>): Tables<V> {
    Tables(
      if r.kind == Prefix then Keep(t.prefixes, r.text, r.value) else t.prefixes,
      if r.kind == Suffix then Keep(t.suffixes, SuffixKey(r.text), r.value) else t.suffixes,
      if r.kind == Substring then t.substrings + [r.text] else t.substrings,
      if r.kind == Glob then t.patterns + [r.text] else t.patterns,
      if r.kind == Exact then t.exact[r.text := r.value] else t.exact,
      if r.kind == Substring || r.kind == Glob then t.indirect[r.text := r.value] else t.indirect)
  }

  function Built<V>(rules: seq<Rule<V>>): Tables<V> {
    if rules == [] then Tables(map[], map[], [], [], map[], map[])
    else Inserted(Built(rules[..|rules| - 1]), rules[|rules| - 1])
  }

  lemma {:induction false} BuiltStep<V>(rules: seq<Rule<V>>, r: Rule<V>)
    ensures Built(rules + [r]) == Inserted(Built(rules), r)
  {
    assert (rules + [r])[..|rules|] == rules;
  }

  // ---------- lookup ----------

  datatype Verdict<V> = NoMatch | Match(kind: Kind, text: string, value: V)

  /** The first listed text that matches, at position i or later. */
  function FirstMatch(g: Globs, kind: Kind, texts: seq<string>, name: string, i: nat): (r: Option<nat>)
    requires i <= |texts|
    ensures r.Some? ==> i <= r.value < |texts| && Matches(g, kind, texts[r.value], name)
    ensures forall j :: i <= j < (if r.Some? then r.value else |texts|) ==> !Matches(g, kind, texts[j], name)
    decreases |texts| - i
  {
    if i == |texts| then None
    else if Matches(g, kind, texts[i], name) then Some(i)
    else FirstMatch(g, kind, texts, name, i + 1)
  }

  /** The text of a suffix key. */
  function SuffixText(key: string): string {
    if key == "" then "" else Reversed(key[..|key| - 1])
  }

  function SuffixHit<V>(t: Tables<V>, name: string): Option<string> {
    var rev := SuffixKey(name);
    match LongestPrefix(t.suffixes.Keys, rev, |rev|)
    case None => None
    case Some(n) => Some(rev[..n])
  }

  function PrefixHit<V>(t: Tables<V>, name: string): Option<string> {
    match LongestPrefix(t.prefixes.Keys, name, |name|)
    case None => None
    case Some(n) => Some(name[..n])
  }

  /** Every listed text has a value. */
  ghost predicate Backed<V>(t: Tables<V>) {
    forall x :: x in t.substrings || x in t.patterns ==> x in t.indirect
  }

  function LookupListed<V>(g: Globs, t: Tables<V>, name: string): Verdict<V>
    requires Backed(t)
  {
    match FirstMatch(g, Substring, t.substrings, name, 0)
    case Some(i) => Match(Substring, t.substrings[i], t.indirect[t.substrings[i]])
    case None =>
      match FirstMatch(g, Glob, t.patterns, name, 0)
      case Some(i) => Match(Glob, t.patterns[i], t.indirect[t.patterns[i]])
      case None => NoMatch
  }

  /** The cascade of Eval: exact, longest suffix, longest prefix, substrings, globs. */
  function Lookup<V>(g: Globs, t: Tables<V>, name: string): Verdict<V>
    requires Backed(t)
  {
    if |name| < 2 then NoMatch
    else if name in t.exact then Match(Exact, name, t.exact[name])
    else
      match SuffixHit(t, name)
      case Some(key) => Match(Suffix, SuffixText(key), t.suffixes[key])
      case None =>
        match PrefixHit(t, name)
        case Some(text) => Match(Prefix, text, t.prefixes[text])
        case None => LookupListed(g, t, name)
  }

  // ---------- the tables hold exactly the rules ----------

  ghost predicate Has<V>(rules: seq<Rule<V>>, kind: Kind, text: string) {
    exists i :: 0 <= i < |rules| && rules[i].kind == kind && rules[i].text == text
  }

  ghost predicate From<V>(rules: seq<Rule<V>>, kind: Kind, text: string, value: V) {
    exists i :: 0 <= i < |rules| && rules[i] == Rule(kind, text, value)
  }

  ghost predicate Stored<V>(rules: seq<Rule<V>>, kind: Kind, m: map<string, V>) {
    && (forall x :: x in m <==> Has(rules, kind, x))
    && (forall x :: x in m ==> From(rules, kind, x, m[x]))
  }

  ghost predicate StoredReversed<V>(rules: seq<Rule<V>>, m: map<string, V>) {
    && (forall x :: SuffixKey(x) in m <==> Has(rules, Suffix, x))
    && (forall x :: SuffixKey(x) in m ==> From(rules, Suffix, x, m[SuffixKey(x)]))
    && (forall k :: k in m ==> k == SuffixKey(SuffixText(k)))
  }

  ghost predicate Listed<V>(rules: seq<Rule<V>>, kind: Kind, texts: seq<string>, indirect: map<string, V>) {
    && (forall x :: x in texts <==> Has(rules, kind, x))
    && (forall x :: x in texts ==>
          x in indirect && (From(rules, Substring, x, indirect[x]) || From(rules, Glob, x, indirect[x])))
  }

  ghost predicate Faithful<V>(t: Tables<V>, rules: seq<Rule<V>>) {
    && Stored(rules, Exact, t.exact)
    && Stored(rules, Prefix, t.prefixes)
    && StoredReversed(rules, t.suffixes)
    && Listed(rules, Substring, t.substrings, t.indirect)
    && Listed(rules, Glob, t.patterns, t.indirect)
  }

  lemma HasAppend<V>(rules: seq<Rule<V>>, r: Rule<V>, kind: Kind, text: string)
    ensures Has(rules + [r], kind, text) <==> Has(rules, kind, text) || (r.kind == kind && r.text == text)
  {
    var all := rules + [r];
    if Has(rules, kind, text) {
      var i :| 0 <= i < |rules| && rules[i].kind == kind && rules[i].text == text;
      assert all[i].kind == kind;
    }
    if r.kind == kind && r.text == text { assert all[|rules|].kind == kind; }
  }

  lemma FromAppend<V>(rules: seq<Rule<V>>, r: Rule<V>, kind: Kind, text: string, value: V)
    ensures From(rules, kind, text, value) ==> From(rules + [r], kind, text, value)
    ensures From(rules + [r], r.kind, r.text, r.value)
  {
    var all := rules + [r];
    if From(rules, kind, text, value) {
      var i :| 0 <= i < |rules| && rules[i] == Rule(kind, text, value);
      assert all[i] == Rule(kind, text, value);
    }
    assert all[|rules|] == Rule(r.kind, r.text, r.value);
  }

  lemma StoredAppend<V>(rules: seq<Rule<V>>, r: Rule<V>, kind: Kind, m: map<string, V>, m': map<string, V>)
    requires Stored(rules, kind, m)
    requires m'.Keys == (if r.kind == kind then m.Keys + {r.text} else m.Keys)
    requires forall x :: x in m' ==> (x in m && m'[x] == m[x]) || (r.kind == kind && x == r.text && m'[x] == r.value)
    ensures Stored(rules + [r], kind, m')
  {
    forall x ensures x in m' <==> Has(rules + [r], kind, x) { HasAppend(rules, r, kind, x); }
    forall x | x in m' ensures From(rules + [r], kind, x, m'[x]) { FromAppend(rules, r, kind, x, m'[x]); }
  }

  lemma SuffixKeyInvertible(x: string)
    ensures SuffixText(SuffixKey(x)) == x
  {
    var k := SuffixKey(x);
    assert k[..|k| - 1] == Reversed(x);
    ReversedTwice(x);
  }

  lemma KeepSuffix<V>(r: Rule<V>, m: map<string, V>, m': map<string, V>, x: string)
    requires m' == if r.kind == Suffix then Keep(m, SuffixKey(r.text), r.value) else m
    ensures SuffixKey(x) in m' <==> SuffixKey(x) in m || (r.kind == Suffix && x == r.text)
    ensures SuffixKey(x) in m' ==> m'[SuffixKey(x)] == if SuffixKey(x) in m then m[SuffixKey(x)] else r.value
  {
    SuffixKeyInvertible(x);
    SuffixKeyInvertible(r.text);
  }

  lemma StoredReversedAppend<V>(rules: seq<Rule<V>>, r: Rule<V>, m: map<string, V>, m': map<string, V>)
    requires StoredReversed(rules, m)
    requires m' == if r.kind == Suffix then Keep(m, SuffixKey(r.text), r.value) else m
    ensures StoredReversed(rules + [r], m')
  {
    forall x ensures SuffixKey(x) in m' <==> Has(rules + [r], Suffix, x) {
      HasAppend(rules, r, Suffix, x);
      KeepSuffix(r, m, m', x);
    }
    forall x | SuffixKey(x) in m' ensures From(rules + [r], Suffix, x, m'[SuffixKey(x)]) {
      FromAppend(rules, r, Suffix, x, m'[SuffixKey(x)]);
      KeepSuffix(r, m, m', x);
    }
    forall k | k in m' ensures k == SuffixKey(SuffixText(k)) {
      if k !in m { SuffixKeyInvertible(r.text); }
    }
  }

  lemma ListedAppend<V>(
    rules: seq<Rule<V>>, r: Rule<V>, kind: Kind, texts: seq<string>, texts': seq<string>,
    indirect: map<string, V>, indirect': map<string, V>)
    requires kind == Substring || kind == Glob
    requires Listed(rules, kind, texts, indirect)
    requires texts' == if r.kind == kind then texts + [r.text] else texts
    requires indirect' == if r.kind == Substring || r.kind == Glob then indirect[r.text := r.value] else indirect
    ensures Listed(rules + [r], kind, texts', indirect')
  {
    forall x ensures x in texts' <==> Has(rules + [r], kind, x) { HasAppend(rules, r, kind, x); }
    forall x | x in texts'
      ensures x in indirect'
           && (From(rules + [r], Substring, x, indirect'[x]) || From(rules + [r], Glob, x, indirect'[x]))
    {
      FromAppend(rules, r, Substring, x, indirect'[x]);
      FromAppend(rules, r, Glob, x, indirect'[x]);
    }
  }

  lemma InsertKeyed<V>(t: Tables<V>, rules: seq<Rule<V>>, r: Rule<V>)
    requires Faithful(t, rules)
    ensures Stored(rules + [r], Exact, Inserted(t, r).exact)
    ensures Stored(rules + [r], Prefix, Inserted(t, r).prefixes)
    ensures StoredReversed(rules + [r], Inserted(t, r).suffixes)
  {
    StoredAppend(rules, r, Exact, t.exact, Inserted(t, r).exact);
    StoredAppend(rules, r, Prefix, t.prefixes, Inserted(t, r).prefixes);
    StoredReversedAppend(rules, r, t.suffixes, Inserted(t, r).suffixes);
  }

  lemma InsertListed<V>(t: Tables<V>, rules: seq<Rule<V>>, r: Rule<V>)
    requires Faithful(t, rules)
    ensures Listed(rules + [r], Substring, Inserted(t, r).substrings, Inserted(t, r).indirect)
    ensures Listed(rules + [r], Glob, Inserted(t, r).patterns, Inserted(t, r).indirect)
  {
    ListedAppend(rules, r, Substring, t.substrings, Inserted(t, r).substrings, t.indirect, Inserted(t, r).indirect);
    ListedAppend(rules, r, Glob, t.patterns, Inserted(t, r).patterns, t.indirect, Inserted(t, r).indirect);
  }

  lemma InsertFaithful<V>(t: Tables<V>, rules: seq<Rule<V>>, r: Rule<V>)
    requires Faithful(t, rules)
    ensures Faithful(Inserted(t, r), rules + [r])
  {
    InsertKeyed(t, rules, r);
    InsertListed(t, rules, r);
  }

  lemma {:induction false} BuiltFaithful<V>(rules: seq<Rule<V>>)
    ensures Faithful(Built(rules), rules)
  {
    if rules != [] {
      BuiltFaithful(rules[..|rules| - 1]);
      InsertFaithful(Built(rules[..|rules| - 1]), rules[..|rules| - 1], rules[|rules| - 1]);
      assert rules == rules[..|rules| - 1] + [rules[|rules| - 1]];
    }
  }

  lemma {:induction false} BuiltShape<V>(rules: seq<Rule<V>>)
    ensures Backed(Built(rules))
    ensures forall k :: k in Built(rules).suffixes ==> k != ""
  {
    BuiltFaithful(rules);
    forall k | k in Built(rules).suffixes ensures k != "" {
      assert k == SuffixKey(SuffixText(k));
    }
  }

  // ---------- Eval matches exactly what the rules match ----------

  ghost predicate SomeMatch<V>(g: Globs, rules: seq<Rule<V>>, kind: Kind, name: string) {
    exists x :: Has(rules, kind, x) && Matches(g, kind, x, name)
  }

  lemma SuffixLookup<V>(g: Globs, t: Tables<V>, rules: seq<Rule<V>>, name: string)
    requires Faithful(t, rules)
    ensures SuffixHit(t, name).Some? <==> SomeMatch(g, rules, Suffix, name)
    ensures SuffixHit(t, name).Some? ==>
              var key := SuffixHit(t, name).value;
              var text := SuffixText(key);
              && key in t.suffixes && From(rules, Suffix, text, t.suffixes[key])
              && Has(rules, Suffix, text) && LabelSuffix(text, name)
              && forall x :: Has(rules, Suffix, x) && LabelSuffix(x, name) ==> |x| <= |text|
  {
    var rev := SuffixKey(name);
    forall x | Has(rules, Suffix, x) && LabelSuffix(x, name)
      ensures SuffixHit(t, name).Some? && |SuffixKey(x)| <= |SuffixHit(t, name).value|
    {
      SuffixKeyExact(x, name);
      assert SuffixKey(x) in t.suffixes;
    }
    if SuffixHit(t, name).Some? {
      var key := SuffixHit(t, name).value;
      assert key == SuffixKey(SuffixText(key));
      SuffixKeyExact(SuffixText(key), name);
      assert Matches(g, Suffix, SuffixText(key), name);
    }
  }

  lemma PrefixLookup<V>(g: Globs, t: Tables<V>, rules: seq<Rule<V>>, name: string)
    requires Faithful(t, rules)
    ensures PrefixHit(t, name).Some? <==> SomeMatch(g, rules, Prefix, name)
    ensures PrefixHit(t, name).Some? ==>
              var text := PrefixHit(t, name).value;
              && text in t.prefixes && From(rules, Prefix, text, t.prefixes[text])
              && Has(rules, Prefix, text) && text <= name
              && forall x :: Has(rules, Prefix, x) && x <= name ==> |x| <= |text|
  {
    if PrefixHit(t, name).Some? { assert Matches(g, Prefix, PrefixHit(t, name).value, name); }
    forall x | Has(rules, Prefix, x) && x <= name
      ensures PrefixHit(t, name).Some? && |x| <= |PrefixHit(t, name).value|
    {
      assert x in t.prefixes;
    }
  }

  lemma {:induction false} ListLookup<V>(
    g: Globs, rules: seq<Rule<V>>, kind: Kind, texts: seq<string>, indirect: map<string, V>, name: string)
    requires Listed(rules, kind, texts, indirect)
    ensures FirstMatch(g, kind, texts, name, 0).Some? <==> SomeMatch(g, rules, kind, name)
  {
    var r := FirstMatch(g, kind, texts, name, 0);
    if r.Some? { assert Has(rules, kind, texts[r.value]); }
    if SomeMatch(g, rules, kind, name) {
      var x :| Has(rules, kind, x) && Matches(g, kind, x, name);
      assert x in texts;
    }
  }

  /** The kinds in the order Eval tries them. */
  function Priority(k: Kind): nat {
    match k
    case Exact => 0
    case Suffix => 1
    case Prefix => 2
    case Substring => 3
    case Glob => 4
  }

  lemma TriedInOrder()
    ensures Priority(Exact) < Priority(Suffix) < Priority(Prefix) < Priority(Substring) < Priority(Glob)
  {
  }

  ghost predicate LongestOfKind<V>(g: Globs, rules: seq<Rule<V>>, kind: Kind, text: string, name: string) {
    forall x :: Has(rules, kind, x) && Matches(g, kind, x, name) ==> |x| <= |text|
  }

  lemma ExactLookup<V>(g: Globs, t: Tables<V>, rules: seq<Rule<V>>, name: string)
    requires Faithful(t, rules)
    ensures name in t.exact <==> SomeMatch(g, rules, Exact, name)
  {
    if name in t.exact { assert Has(rules, Exact, name) && Matches(g, Exact, name, name); }
  }

  lemma {:induction false} LookupOrder<V>(g: Globs, t: Tables<V>, rules: seq<Rule<V>>, name: string)
    requires |name| >= 2 && Backed(t)
    requires name in t.exact <==> SomeMatch(g, rules, Exact, name)
    requires SuffixHit(t, name).Some? <==> SomeMatch(g, rules, Suffix, name)
    requires PrefixHit(t, name).Some? <==> SomeMatch(g, rules, Prefix, name)
    requires FirstMatch(g, Substring, t.substrings, name, 0).Some? <==> SomeMatch(g, rules, Substring, name)
    requires FirstMatch(g, Glob, t.patterns, name, 0).Some? <==> SomeMatch(g, rules, Glob, name)
    ensures
      var v := Lookup(g, t, name);
      && (v.Match? ==>
            && SomeMatch(g, rules, v.kind, name)
            && forall k :: Priority(k) < Priority(v.kind) ==> !SomeMatch(g, rules, k, name))
      && (v.NoMatch? ==> forall k :: !SomeMatch(g, rules, k, name))
  {
    var v := Lookup(g, t, name);
    forall k | v.NoMatch? || Priority(k) < Priority(v.kind) ensures !SomeMatch(g, rules, k, name) {
      match k { case Exact => case Suffix => case Prefix => case Substring => case Glob => }
    }
  }

  lemma LookupTries<V>(g: Globs, t: Tables<V>, rules: seq<Rule<V>>, name: string)
    requires |name| >= 2 && Faithful(t, rules) && Backed(t)
    ensures
      var v := Lookup(g, t, name);
      && (v.Match? ==>
            && SomeMatch(g, rules, v.kind, name)
            && forall k :: Priority(k) < Priority(v.kind) ==> !SomeMatch(g, rules, k, name))
      && (v.NoMatch? ==> forall k :: !SomeMatch(g, rules, k, name))
  {
    ExactLookup(g, t, rules, name);
    SuffixLookup(g, t, rules, name);
    PrefixLookup(g, t, rules, name);
    ListLookup(g, rules, Substring, t.substrings, t.indirect, name);
    ListLookup(g, rules, Glob, t.patterns, t.indirect, name);
    LookupOrder(g, t, rules, name);
  }

  /** A report names a matching rule, the longest of its kind for suffixes and prefixes, and a value given with
      that text. */
  ghost predicate Reported<V>(g: Globs, rules: seq<Rule<V>>, v: Verdict<V>, name: string)
    requires v.Match?
  {
    && Has(rules, v.kind, v.text) && Matches(g, v.kind, v.text, name)
    && (v.kind == Suffix || v.kind == Prefix ==> LongestOfKind(g, rules, v.kind, v.text, name))
    && exists k :: From(rules, k, v.text, v.value)
  }

  lemma ExactReports<V>(g: Globs, t: Tables<V>, rules: seq<Rule<V>>, name: string)
    requires Stored(rules, Exact, t.exact) && name in t.exact
    ensures Reported(g, rules, Match(Exact, name, t.exact[name]), name)
  {
    assert From(rules, Exact, name, t.exact[name]);
  }

  lemma SuffixReports<V>(g: Globs, t: Tables<V>, rules: seq<Rule<V>>, name: string)
    requires Faithful(t, rules) && SuffixHit(t, name).Some?
    ensures var key := SuffixHit(t, name).value;
            key in t.suffixes && Reported(g, rules, Match(Suffix, SuffixText(key), t.suffixes[key]), name)
  {
    SuffixLookup(g, t, rules, name);
  }

  lemma PrefixReports<V>(g: Globs, t: Tables<V>, rules: seq<Rule<V>>, name: string)
    requires Faithful(t, rules) && PrefixHit(t, name).Some?
    ensures var text := PrefixHit(t, name).value;
            text in t.prefixes && Reported(g, rules, Match(Prefix, text, t.prefixes[text]), name)
  {
    PrefixLookup(g, t, rules, name);
  }

  lemma ListReports<V>(
    g: Globs, rules: seq<Rule<V>>, kind: Kind, texts: seq<string>, indirect: map<string, V>, name: string, i: nat)
    requires kind == Substring || kind == Glob
    requires Listed(rules, kind, texts, indirect)
    requires i < |texts| && Matches(g, kind, texts[i], name)
    ensures texts[i] in indirect && Reported(g, rules, Match(kind, texts[i], indirect[texts[i]]), name)
  {
    assert texts[i] in texts;
  }

  lemma LookupReports<V>(g: Globs, t: Tables<V>, rules: seq<Rule<V>>, name: string)
    requires Faithful(t, rules) && Backed(t)
    ensures Lookup(g, t, name).Match? ==> Reported(g, rules, Lookup(g, t, name), name)
  {
    var v := Lookup(g, t, name);
    if v.Match? {
      match v.kind {
        case Exact => ExactReports(g, t, rules, name);
        case Suffix => SuffixReports(g, t, rules, name);
        case Prefix => PrefixReports(g, t, rules, name);
        case Substring =>
          var i := FirstMatch(g, Substring, t.substrings, name, 0).value;
          ListReports(g, rules, Substring, t.substrings, t.indirect, name, i);
        case Glob =>
          var i := FirstMatch(g, Glob, t.patterns, name, 0).value;
          ListReports(g, rules, Glob, t.patterns, t.indirect, name, i);
      }
    }
  }

  /** Eval on any list of accepted rules and any name of two or more characters: it matches exactly when some
      rule matches by its own kind; what it reports is a rule of the first kind that matches, the longest
      such rule for suffixes and prefixes, with a value stored for that text. */
  lemma {:induction false} LookupMatchesRules<V>(g: Globs, rules: seq<Rule<V>>, name: string)
    requires |name| >= 2
    ensures Backed(Built(rules))
    ensures
      var v := Lookup(g, Built(rules), name);
      && (v.Match? <==> exists k :: SomeMatch(g, rules, k, name))
      && (v.Match? ==>
            && Reported(g, rules, v, name)
            && forall k :: SomeMatch(g, rules, k, name) ==> Priority(v.kind) <= Priority(k))
  {
    BuiltFaithful(rules);
    LookupTries(g, Built(rules), rules, name);
    LookupReports(g, Built(rules), rules, name);
  }

  // ---------- the matcher object ----------

  /** What Eval reports: the rule as it could have been written, and its value. */
  function Reason(kind: Kind, text: string): string {
    match kind
    case Exact => text
    case Suffix => "*." + text
    case Prefix => text + "*"
    case Substring => "*" + text + "*"
    case Glob => text
  }

  class Matcher<V> {
    const globs: Globs
    var prefixes: map<string, V>
    var suffixes: map<string, V>
    var substrings: seq<string>
    var patterns: seq<string>
    var exact: map<string, V>
    var indirectVals: map<string, V>

    /** The rules accepted so far. */
    ghost var rules: seq<Rule<V>>

    constructor (globs: Globs)
      ensures Valid() && rules == [] && this.globs == globs
    {
      this.globs := globs;
      prefixes, suffixes, substrings, patterns, exact, indirectVals := map[], map[], [], [], map[], map[];
      rules := [];
    }

    function View(): Tables<V>
      reads this
    {
      Tables(prefixes, suffixes, substrings, patterns, exact, indirectVals)
    }

    ghost predicate Valid()
      reads this
    {
      View() == Built(rules)
    }

    /** Add: rejects a malformed rule without effect, and otherwise accepts it under its kind. */
    method Add(pattern: string, value: V) returns (ok: bool)
      requires Valid()
      modifies this
      ensures Valid()
      ensures
        match Parse(globs, pattern)
        case Bad => !ok && rules == old(rules)
        case Parsed(kind, text) => ok && rules == old(rules) + [Rule(kind, text, value)]
    {
      var leadingStar := |pattern| > 0 && pattern[0] == '*';
      var trailingStar := |pattern| > 0 && pattern[|pattern| - 1] == '*';
      var glob := IsGlobCandidate(pattern);
      var kind, text := Suffix, pattern;
      if glob {
        kind := Glob;
        if |pattern| < 2 || !globs.wellFormed(pattern) { return false; }
      } else if leadingStar && trailingStar {
        kind := Substring;
        if |pattern| < 3 { return false; }
        text := pattern[1..|pattern| - 1];
      } else if trailingStar {
        kind := Prefix;
        if |pattern| < 2 { return false; }
        text := pattern[..|pattern| - 1];
      } else if |pattern| > 0 && pattern[0] == '=' {
        kind := Exact;
        if |pattern| < 2 { return false; }
        text := pattern[1..];
      } else {
        if leadingStar { text := text[1..]; }
        if |text| > 0 && text[0] == '.' { text := text[1..]; }
      }
      if |text| == 0 { return false; }
      Insert(kind, Lower(text), value);
      return true;
    }

    method Insert(kind: Kind, text: string, value: V)
      requires Valid()
      modifies this
      ensures Valid() && rules == old(rules) + [Rule(kind, text, value)]
    {
      BuiltStep(rules, Rule(kind, text, value));
      if kind == Suffix {
        InsertSuffix(text, value);
      } else {
        InsertPlain(kind, text, value);
      }
      rules := rules + [Rule(kind, text, value)];
    }

    method InsertSuffix(text: string, value: V)
      modifies `suffixes
      ensures View() == Inserted(old(View()), Rule(Suffix, text, value))
    {
      var reversed := StringReverse(text);
      var key := reversed + ".";
      if key !in suffixes { suffixes := suffixes[key := value]; }
    }

    method InsertPlain(kind: Kind, text: string, value: V)
      requires kind != Suffix
      modifies `prefixes, `substrings, `patterns, `exact, `indirectVals
      ensures View() == Inserted(old(View()), Rule(kind, text, value))
    {
      match kind {
        case Substring =>
          substrings := substrings + [text];
          indirectVals := indirectVals[text := value];
        case Glob =>
          patterns := patterns + [text];
          indirectVals := indirectVals[text := value];
        case Prefix =>
          if text !in prefixes { prefixes := prefixes[text := value]; }
        case Exact =>
          exact := exact[text := value];
      }
    }

    /** Eval: the lookup cascade, with its scanning loops. */
    method Eval(qName: string) returns (v: Verdict<V>, reason: string)
      requires Valid()
      ensures Backed(View()) && v == Lookup(globs, View(), qName)
      ensures v.Match? ==> reason == Reason(v.kind, v.text)
    {
      BuiltShape(rules);
      v, reason := NoMatch, "";
      if |qName| < 2 { return; }
      if qName in exact { return Match(Exact, qName, exact[qName]), qName; }
      var suffix := FindSuffix(qName);
      if suffix.Some? {
        var key := suffix.value;
        var text := StringReverse(key[..|key| - 1]);
        return Match(Suffix, text, suffixes[key]), "*." + text;
      }
      var prefix := PrefixHit(View(), qName);
      if prefix.Some? { return Match(Prefix, prefix.value, prefixes[prefix.value]), prefix.value + "*"; }
      v, reason := EvalListed(qName);
    }

    method EvalListed(qName: string) returns (v: Verdict<V>, reason: string)
      requires Backed(View())
      ensures v == LookupListed(globs, View(), qName)
      ensures v.Match? ==> reason == Reason(v.kind, v.text)
    {
      var hit := ScanList(Substring, substrings, qName);
      if hit.Some? {
        var text := substrings[hit.value];
        return Match(Substring, text, indirectVals[text]), "*" + text + "*";
      }
      hit := ScanList(Glob, patterns, qName);
      if hit.Some? {
        var text := patterns[hit.value];
        return Match(Glob, text, indirectVals[text]), text;
      }
      return NoMatch, "";
    }

    method FindSuffix(qName: string) returns (r: Option<string>)
      ensures r == SuffixHit(View(), qName)
    {
      var reversed := StringReverse(qName);
      var revQname := reversed + ".";
      var hit := LongestPrefix(suffixes.Keys, revQname, |revQname|);
      r := if hit.Some? then Some(revQname[..hit.value]) else None;
    }

    method ScanList(kind: Kind, texts: seq<string>, qName: string) returns (r: Option<nat>)
      ensures r == FirstMatch(globs, kind, texts, qName, 0)
    {
      for i := 0 to |texts|
        invariant FirstMatch(globs, kind, texts, qName, 0) == FirstMatch(globs, kind, texts, qName, i)
      {
        if Matches(globs, kind, texts[i], qName) { return Some(i); }
      }
      return None;
    }
  }
}
