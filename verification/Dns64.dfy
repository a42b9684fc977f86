/** DNS64 (plugin_dns64.go): IPv4 addresses embedded in IPv6 prefixes as in section 2.2 of RFC 6052, and the
    discovery of those prefixes as in RFC 7050. */
module Dns64 {
  import opened Wire
  import opened Wrappers

  type IPv4 = a: Bytes | |a| == 4 witness [0, 0, 0, 0]
  type IPv6 = a: Bytes | |a| == 16 witness [0, 0, 0, 0, 0, 0, 0, 0, 0, 0, 0, 0, 0, 0, 0, 0]

  /** A network of at most 96 bits, as Init and discovery admit. */
  datatype Net = Net(ip: IPv6, ones: nat)

  predicate Admitted(net: Net) {
    net.ones <= 96
  }

  // ---------- embedding ----------

  /** The octet of the IPv6 address that holds octet i of the IPv4 address: octet 8 is skipped. */
  function Position(shift: nat, i: nat): nat {
    if shift <= 8 <= shift + i then shift + i + 1 else shift + i
  }

  /** The prefix with the IPv4 address in its octets and every other octet kept. */
  ghost predicate Embeds(v: IPv6, net: Net, a: IPv4) {
    var shift := net.ones / 8;
    && (forall i :: 0 <= i < 4 ==> Position(shift, i) < 16 && v[Position(shift, i)] == a[i])
    && forall j :: 0 <= j < 16 && (forall i :: 0 <= i < 4 ==> Position(shift, i) != j) ==> v[j] == net.ip[j]
  }

  /** translateToIPv6 */
  method TranslateToIPv6(ipv4: IPv4, net: Net) returns (ipv6: array<Byte>)
    requires Admitted(net)
    ensures ipv6.Length == 16 && Embeds(ipv6[..], net, ipv4)
  {
    ipv6 := new Byte[16](j requires 0 <= j < 16 => net.ip[j]);
    ghost var shift := net.ones / 8;
    var ipShift := net.ones / 8;
    for i := 0 to 4
      invariant ipShift == shift + if shift <= 8 < shift + i then 1 else 0
      invariant forall k :: 0 <= k < i ==> Position(shift, k) < 16 && ipv6[Position(shift, k)] == ipv4[k]
      invariant forall j :: 0 <= j < 16 && (forall k :: 0 <= k < i ==> Position(shift, k) != j) ==> ipv6[j] == net.ip[j]
    {
      if ipShift + i == 8 { ipShift := ipShift + 1; }
      ipv6[ipShift + i] := ipv4[i];
    }
  }

  /** The IPv4 address held behind a prefix of that many bits. */
  function Extract(v: IPv6, ones: nat): IPv4
    requires ones <= 96
  {
    var shift := ones / 8;
    [v[Position(shift, 0)], v[Position(shift, 1)], v[Position(shift, 2)], v[Position(shift, 3)]]
  }

  /** Embedding is a function of its arguments, and an injective one: the address can be read back.  Octet 8
      stays the prefix's own. */
  lemma EmbeddingIsExact(v: IPv6, w: IPv6, net: Net, a: IPv4)
    requires Admitted(net) && Embeds(v, net, a)
    ensures Extract(v, net.ones) == a
    ensures v[8] == net.ip[8]
    ensures Embeds(w, net, a) <==> w == v
  {
    assert Extract(v, net.ones) == a;
    if Embeds(w, net, a) {
      var shift := net.ones / 8;
      forall j | 0 <= j < 16 ensures v[j] == w[j] {
        if i :| 0 <= i < 4 && Position(shift, i) == j {
          assert v[Position(shift, i)] == w[Position(shift, i)];
        }
      }
    }
  }

  // ---------- discovery ----------

  predicate WellKnown(a: IPv4) {
    a == [192, 0, 0, 170] || a == [192, 0, 0, 171]
  }

  /** The octets looked at, longest prefix first. */
  function PrefixEnd(v: IPv6): nat {
    if WellKnown([v[12], v[13], v[14], v[15]]) then 12
    else if WellKnown([v[9], v[10], v[11], v[12]]) then 8
    else if WellKnown([v[7], v[9], v[10], v[11]]) then 7
    else if WellKnown([v[6], v[7], v[9], v[10]]) then 6
    else if WellKnown([v[5], v[6], v[7], v[9]]) then 5
    else if WellKnown([v[4], v[5], v[6], v[7]]) then 4
    else 0
  }

  function Discovered(v: IPv6): Option<Net> {
    var end := PrefixEnd(v);
    if end > 0 then Some(Net(v[..end] + seq(16 - end, _ => 0), end * 8)) else None
  }

  /** The prefix lengths of RFC 6052. */
  predicate Standard(ones: nat) {
    ones == 32 || ones == 40 || ones == 48 || ones == 56 || ones == 64 || ones == 96
  }

  ghost predicate Masked(net: Net) {
    forall j :: net.ones / 8 <= j < 16 ==> net.ip[j] == 0
  }

  /** A prefix is found exactly when a well-known address sits behind it, and behind no longer standard one. */
  lemma DiscoveryExact(v: IPv6, ones: nat)
    requires Standard(ones)
    ensures PrefixEnd(v) * 8 == ones <==>
            && WellKnown(Extract(v, ones))
            && forall longer: nat :: Standard(longer) && longer > ones ==> !WellKnown(Extract(v, longer))
  {
    assert Extract(v, 96) == [v[12], v[13], v[14], v[15]];
    assert Extract(v, 64) == [v[9], v[10], v[11], v[12]];
    assert Extract(v, 56) == [v[7], v[9], v[10], v[11]];
    assert Extract(v, 48) == [v[6], v[7], v[9], v[10]];
    assert Extract(v, 40) == [v[5], v[6], v[7], v[9]];
    assert Extract(v, 32) == [v[4], v[5], v[6], v[7]];
  }

  /** After the first octet of a well-known address there is no other octet that could start one. */
  lemma OnlyFirstStarts(v: IPv6, net: Net, a: IPv4, j: nat)
    requires Masked(net) && WellKnown(a) && Embeds(v, net, a)
    requires net.ones / 8 <= j < 16 && j != Position(net.ones / 8, 0)
    ensures v[j] != 192
  {
    if i :| 0 <= i < 4 && Position(net.ones / 8, i) == j {
      assert v[j] == a[i] && i > 0;
    }
  }

  lemma LongerStartsLater(ones: nat, longer: nat)
    requires Standard(ones) && Standard(longer) && longer > ones
    ensures ones / 8 <= Position(longer / 8, 0) < 16 && Position(longer / 8, 0) != Position(ones / 8, 0)
  {
  }

  lemma WellKnownStart(v: IPv6, ones: nat)
    requires ones <= 96 && WellKnown(Extract(v, ones))
    ensures v[Position(ones / 8, 0)] == 192
  {
    assert Extract(v, ones)[0] == 192;
  }

  lemma NoLongerPrefix(v: IPv6, net: Net, a: IPv4, longer: nat)
    requires Masked(net) && WellKnown(a) && Embeds(v, net, a)
    requires Standard(net.ones) && Standard(longer) && longer > net.ones
    ensures !WellKnown(Extract(v, longer))
  {
    LongerStartsLater(net.ones, longer);
    OnlyFirstStarts(v, net, a, Position(longer / 8, 0));
    if WellKnown(Extract(v, longer)) { WellKnownStart(v, longer); }
  }

  lemma KeepsPrefix(v: IPv6, net: Net, a: IPv4)
    requires Admitted(net) && Masked(net) && Embeds(v, net, a)
    ensures v[..net.ones / 8] + seq(16 - net.ones / 8, _ => 0) == net.ip
  {
  }

  lemma Recovered(v: IPv6, net: Net)
    requires Standard(net.ones) && WellKnown(Extract(v, net.ones))
    requires forall longer: nat :: Standard(longer) && longer > net.ones ==> !WellKnown(Extract(v, longer))
    requires v[..net.ones / 8] + seq(16 - net.ones / 8, _ => 0) == net.ip
    ensures Discovered(v) == Some(net)
  {
    DiscoveryExact(v, net.ones);
  }

  /** A resolver that embeds a well-known address behind its prefix has that very prefix discovered. */
  lemma DiscoveryRecovers(v: IPv6, net: Net, a: IPv4)
    requires Standard(net.ones) && Masked(net) && Embeds(v, net, a)
    requires a == [192, 0, 0, 170] || a == [192, 0, 0, 171]
    ensures Discovered(v) == Some(net)
  {
    forall longer: nat | Standard(longer) && longer > net.ones ensures !WellKnown(Extract(v, longer)) {
      NoLongerPrefix(v, net, a, longer);
    }
    EmbeddingIsExact(v, v, net, a);
    KeepsPrefix(v, net, a);
    Recovered(v, net);
  }

  /** What is discovered is a masked standard prefix of the answer, with a well-known address behind it. */
  lemma DiscoverySound(v: IPv6, net: Net)
    requires Discovered(v) == Some(net)
    ensures Standard(net.ones) && Masked(net) && Admitted(net)
    ensures v[..net.ones / 8] == net.ip[..net.ones / 8]
    ensures Extract(v, net.ones) == [192, 0, 0, 170] || Extract(v, net.ones) == [192, 0, 0, 171]
  {
    DiscoveryExact(v, net.ones);
  }

  /** Without the zero suffix that RFC 6052 asks for, a longer prefix can be taken for the resolver's own. */
  lemma SuffixMisleads()
    ensures
      var v: IPv6 := [0x20, 1, 0xd, 0xb8, 192, 0, 0, 170, 0, 0, 0, 0, 192, 0, 0, 170];
      WellKnown(Extract(v, 32)) && Discovered(v).Some? && Discovered(v).value.ones == 96
  {
  }

  // ---------- fetching ----------

  datatype Answer = AAAA(addr: Bytes) | Other

  function Offer(answer: Answer): Option<Net> {
    if answer.AAAA? && |answer.addr| == 16 then Discovered(answer.addr) else None
  }

  /** The prefixes of the answers, in order, without repetition. */
  function Learned(answers: seq<Answer>): seq<Net> {
    if answers == [] then []
    else
      var before, offer := Learned(answers[..|answers| - 1]), Offer(answers[|answers| - 1]);
      if offer.Some? && offer.value !in before then before + [offer.value] else before
  }

  lemma {:induction false} LearnedExact(answers: seq<Answer>)
    ensures forall net :: net in Learned(answers) <==> exists i :: 0 <= i < |answers| && Offer(answers[i]) == Some(net)
    ensures forall i, j :: 0 <= i < j < |Learned(answers)| ==> Learned(answers)[i] != Learned(answers)[j]
    ensures forall net :: net in Learned(answers) ==> Standard(net.ones) && Masked(net)
  {
    if answers != [] {
      var init, last := answers[..|answers| - 1], answers[|answers| - 1];
      LearnedExact(init);
      assert answers == init + [last];
      if Offer(last).Some? { DiscoverySound(last.addr, Offer(last).value); }
      forall net ensures net in Learned(answers) <==> net in Learned(init) || Offer(last) == Some(net) {}
      forall net ensures net in Learned(answers) <==> exists i :: 0 <= i < |answers| && Offer(answers[i]) == Some(net) {
        if Offer(last) == Some(net) { assert Offer(answers[|init|]) == Some(net); }
        if i :| 0 <= i < |init| && Offer(init[i]) == Some(net) { assert Offer(answers[i]) == Some(net); }
      }
    }
  }

  datatype Outcome = Fetched | UnableToFetch | EmptyList

  class PluginDNS64 {
    var pref64: seq<Net>

    /** fetchPref64 once a response is in: the list is replaced as a whole, or not at all. */
    method FetchPref64(success: bool, answers: seq<Answer>) returns (outcome: Outcome)
      modifies this
      ensures outcome == if !success then UnableToFetch else if Learned(answers) == [] then EmptyList else Fetched
      ensures pref64 == if outcome == Fetched then Learned(answers) else old(pref64)
    {
      if !success { return UnableToFetch; }
      var unique: set<Net> := {};
      var prefixes: seq<Net> := [];
      for k := 0 to |answers|
        invariant prefixes == Learned(answers[..k])
        invariant forall net :: net in unique <==> net in prefixes
        invariant pref64 == old(pref64)
      {
        assert answers[..k + 1][..k] == answers[..k];
        var offer := Offer(answers[k]);
        if offer.Some? && offer.value !in unique {
          prefixes := prefixes + [offer.value];
          unique := unique + {offer.value};
        }
      }
      assert answers[..|answers|] == answers;
      if |prefixes| == 0 { return EmptyList; }
      pref64 := prefixes;
      return Fetched;
    }
  }
}
