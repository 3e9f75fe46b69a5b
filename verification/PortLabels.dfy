/** The laws of port forwards for the label keys as the program reads them (buildNATRules, loader_gateway.go),
    and labels for which the order in which Go goes through them decides whether there is a rule. */
module PortLabels {
  import opened Runes
  import opened Digits
  import opened Seqs
  import opened Listings
  import opened Ownership
  import opened Gateway
  import opened NatRules
  import opened PortForwards
  import opened GatewayRows
  import opened SteadyForwards

  // ----- Reading label keys -----

  function PortKey(index: string, name: string): string {
    PORT_FORWARD_PREFIX + (index + "." + name)
  }

  lemma {:induction false} IndexOfFirst(a: string, b: string, c: char)
    requires !Contains(a, c)
    ensures IndexOf(a + [c] + b, c) == |a|
    decreases |a|
  {
    var s := a + [c] + b;
    if a != "" {
      assert s[0] == a[0] != c && s[1..] == a[1..] + [c] + b;
      assert !Contains(a[1..], c);
      IndexOfFirst(a[1..], b, c);
    }
  }

  lemma PortKeyParts(index: string, name: string)
    requires !Contains(index, '.')
    ensures var rest := PortKey(index, name)[|PORT_FORWARD_PREFIX|..];
            && HasPrefix(PortKey(index, name), PORT_FORWARD_PREFIX)
            && IndexOf(rest, '.') == |index| && rest[..|index|] == index && rest[|index| + 1..] == name
  {
    IndexOfFirst(index, name, '.');
  }

  /** A key with an integer index is read as that entry and field. */
  lemma PortKeyRead(index: string, name: string)
    requires !Contains(index, '.') && Atoi(index).Some?
    ensures ParsePortLabel(PortKey(index, name)) == Some(PortLabel(Atoi(index).value, FieldOf(name)))
  {
    PortKeyParts(index, name);
  }

  lemma {:induction false} LeadingZero(digits: string)
    requires AllDigits(digits)
    ensures AllDigits(['0'] + digits) && DigitsValue(['0'] + digits) == DigitsValue(digits)
    decreases |digits|
  {
    var s, n := ['0'] + digits, |digits| - 1;
    assert forall i :: 0 <= i < |s| ==> IsDigit(s[i]);
    assert s[..|s| - 1] == ['0'] + digits[..n] && s[|s| - 1] == digits[n];
    if n == 0 {
      assert digits[..0] == "" && ['0'] + "" == ['0'] && ['0'][..0] == "";
      assert DigitsValue(['0']) == 0;
    } else {
      LeadingZero(digits[..n]);
    }
  }

  lemma DigitsRead(digits: string)
    requires AllDigits(digits) && DigitsValue(digits) <= MAX_INT64
    ensures Atoi(digits) == Some(DigitsValue(digits)) && !Contains(digits, '.')
  {
    assert IsDigit(digits[0]);
  }

  /** An index can be written with leading zeros: two keys for one field of one entry. */
  lemma KeysClash(digits: string, name: string)
    requires AllDigits(digits) && DigitsValue(digits) <= MAX_INT64
    ensures PortKey(digits, name) != PortKey(['0'] + digits, name)
    ensures ParsePortLabel(PortKey(digits, name)) == ParsePortLabel(PortKey(['0'] + digits, name))
            == Some(PortLabel(DigitsValue(digits), FieldOf(name)))
  {
    LeadingZero(digits);
    DigitsRead(digits);
    DigitsRead(['0'] + digits);
    PortKeyRead(digits, name);
    PortKeyRead(['0'] + digits, name);
    assert |PortKey(digits, name)| != |PortKey(['0'] + digits, name)|;
  }

  // ----- Labels that clash -----

  /** A complete port forward, and an empty protocol for the index with a leading zero. */
  function ClashingLabels(digits: string, protocol: string, src: string, dst: string): map<string, string> {
    map[PortKey(digits, "protocol") := protocol, PortKey(digits, "src_port") := src, PortKey(digits, "dst_port") := dst,
        PortKey(['0'] + digits, "protocol") := ""]
  }

  lemma FieldsRead(digits: string)
    requires AllDigits(digits) && DigitsValue(digits) <= MAX_INT64
    ensures var i := DigitsValue(digits);
            && ParsePortLabel(PortKey(digits, "protocol")) == Some(PortLabel(i, Protocol))
            && ParsePortLabel(PortKey(digits, "src_port")) == Some(PortLabel(i, SrcPort))
            && ParsePortLabel(PortKey(digits, "dst_port")) == Some(PortLabel(i, DstPort))
            && ParsePortLabel(PortKey(['0'] + digits, "protocol")) == Some(PortLabel(i, Protocol))
  {
    KeysClash(digits, "protocol");
    KeysClash(digits, "src_port");
    KeysClash(digits, "dst_port");
  }

  /** Four keys that are read as one entry, the protocol being set twice. */
  lemma ClashUnsteady(read: Reader, labels: map<string, string>, p: string, s: string, d: string, z: string, i: int)
    requires labels.Keys == {p, s, d, z} && labels[p] != "" && labels[s] != "" && labels[d] != "" && labels[z] == ""
    requires read(p) == read(z) == Some(PortLabel(i, Protocol))
    requires read(s) == Some(PortLabel(i, SrcPort)) && read(d) == Some(PortLabel(i, DstPort))
    ensures !Steady(read, labels) && !Unambiguous(read, labels)
  {
    assert p in labels && s in labels && d in labels && z in labels;
    assert Sets(read, p, i, Protocol) && Sets(read, s, i, SrcPort) && Sets(read, d, i, DstPort)
        && Sets(read, z, i, Protocol);
    assert Possible(read, labels, i);
    assert Required(Protocol);
    forall j ensures !Sure(read, labels, j) {
      assert j != i ==> !exists k :: k in labels && Sets(read, k, j, Protocol);
    }
  }

  lemma FourEntries<K, V>(p: K, s: K, d: K, z: K, a: V, b: V, c: V, e: V)
    requires p != s && p != d && p != z && s != d && s != z && d != z
    ensures var m := map[p := a, s := b, d := c, z := e]; m[p] == a && m[s] == b && m[d] == c && m[z] == e
  {
  }

  lemma KeysDiffer(digits: string, protocol: string, src: string, dst: string)
    requires AllDigits(digits) && DigitsValue(digits) <= MAX_INT64
    ensures var labels := ClashingLabels(digits, protocol, src, dst);
            && labels[PortKey(digits, "protocol")] == protocol && labels[PortKey(digits, "src_port")] == src
            && labels[PortKey(digits, "dst_port")] == dst && labels[PortKey(['0'] + digits, "protocol")] == ""
  {
    FieldsRead(digits);
    KeysClash(digits, "protocol");
    FourEntries(PortKey(digits, "protocol"), PortKey(digits, "src_port"), PortKey(digits, "dst_port"),
                PortKey(['0'] + digits, "protocol"), protocol, src, dst, "");
  }

  /** With such labels there is an order with a rule, and one without. */
  lemma ClashingRules(digits: string, protocol: string, src: string, dst: string, hostIP: string, cid: string)
    returns (rules: seq<Row>)
    requires AllDigits(digits) && DigitsValue(digits) <= MAX_INT64 && protocol != "" && src != "" && dst != ""
    ensures var labels := ClashingLabels(digits, protocol, src, dst);
            var describe := Describing(Descriptions(), cid);
            && !Steady(ParsePortLabel, labels) && !Unambiguous(ParsePortLabel, labels)
            && rules != [] && RulesOf(ParsePortLabel, labels, hostIP, describe, rules)
            && RulesOf(ParsePortLabel, labels, hostIP, describe, [])
  {
    var labels, describe := ClashingLabels(digits, protocol, src, dst), Describing(Descriptions(), cid);
    FieldsRead(digits);
    KeysDiffer(digits, protocol, src, dst);
    ClashUnsteady(ParsePortLabel, labels, PortKey(digits, "protocol"), PortKey(digits, "src_port"),
                  PortKey(digits, "dst_port"), PortKey(['0'] + digits, "protocol"), DigitsValue(digits));
    rules := BothWays(ParsePortLabel, labels, hostIP, describe);
  }

  lemma BothWays(read: Reader, labels: map<string, string>, hostIP: string, describe: string -> string)
    returns (rules: seq<Row>)
    requires !Steady(read, labels)
    ensures rules != [] && RulesOf(read, labels, hostIP, describe, rules) && RulesOf(read, labels, hostIP, describe, [])
  {
    var i :| Possible(read, labels, i);
    var o1 := NotSureIncomplete(read, labels);
    var o2 := PossibleComplete(read, labels, i);
    var none := RulesExist(read, labels, o1, hostIP, describe);
    rules := RulesExist(read, labels, o2, hostIP, describe);
  }

  /** For example `1` and `01`. */
  lemma OneAndZeroOne()
    ensures AllDigits("1") && DigitsValue("1") == 1
    ensures ['0'] + "1" == "01"
    ensures ParsePortLabel(PortKey("1", "protocol")) == ParsePortLabel(PortKey("01", "protocol"))
        == Some(PortLabel(1, Protocol))
  {
    assert "1"[..0] == "" && IsDigit("1"[0]) && DigitsValue("") == 0;
    FieldsRead("1");
  }

  // ----- The laws, as the program reads labels -----

  /** Entries are the same for every iteration order exactly when no two labels set one field differently. */
  lemma EntriesExact(labels: map<string, string>)
    ensures Unambiguous(ParsePortLabel, labels) <==>
            forall order, other :: Lists(order, labels) && Lists(other, labels) ==>
              CollectEntries(ParsePortLabel, labels, order) == CollectEntries(ParsePortLabel, labels, other)
  {
    EntriesOrderIndependent(ParsePortLabel, labels);
  }

  /** Whether there are rules does not depend on the order exactly when the labels are steady, as they are
      without clashes. */
  lemma RulesExact(labels: map<string, string>, hostIP: string, cid: string)
    ensures var describe := Describing(Descriptions(), cid);
            Steady(ParsePortLabel, labels) <==>
            forall rules, others :: RulesOf(ParsePortLabel, labels, hostIP, describe, rules)
                                    && RulesOf(ParsePortLabel, labels, hostIP, describe, others) ==>
              (rules == [] <==> others == [])
    ensures Unambiguous(ParsePortLabel, labels) ==> Steady(ParsePortLabel, labels)
  {
    SteadyExact(ParsePortLabel, labels, hostIP, Describing(Descriptions(), cid));
    if Unambiguous(ParsePortLabel, labels) {
      UnambiguousSteady(ParsePortLabel, labels);
    }
  }

  /** buildNATRules */
  method BuildContainerRules(labels: map<string, string>, hostIP: string, containerID: string) returns (rules: seq<Row>)
    ensures RulesOf(ParsePortLabel, labels, hostIP, Describing(Descriptions(), containerID), rules)
    ensures Unambiguous(ParsePortLabel, labels) ==>
              var describe := Describing(Descriptions(), containerID);
              forall others :: RulesOf(ParsePortLabel, labels, hostIP, describe, others) ==> others == rules
  {
    rules := BuildNATRules(ParsePortLabel, labels, hostIP, Describing(Descriptions(), containerID));
    if Unambiguous(ParsePortLabel, labels) {
      forall others | RulesOf(ParsePortLabel, labels, hostIP, Describing(Descriptions(), containerID), others)
        ensures others == rules
      {
        RulesUnique(ParsePortLabel, labels, hostIP, Describing(Descriptions(), containerID), others, rules);
      }
    }
  }
}
