/** Which port forward labels end in which field of a rule, spelled out (buildNATRules, loader_gateway.go). */
module ForwardAsks {
  import opened Runes
  import opened Digits
  import opened Seqs
  import opened Listings
  import opened Ownership
  import opened Gateway
  import opened NatRules
  import opened PortForwards
  import opened RunningContainers
  import opened GatewayRows
  import opened PortLabels
  import opened GatewayAsks

  // ----- Indices -----

  /** Numbers in decimal are read as themselves, with a sign or without, if they are 64-bit integers. */
  lemma IndexRead(n: nat)
    ensures Atoi(Decimal(n)) == if n <= 9223372036854775807 then Some(n as int) else None
  {
    DecimalRead(n);
    assert IsDigit(Decimal(n)[0]);
  }

  lemma SignedDigits(sign: char, digits: string, n: nat)
    requires (sign == '+' || sign == '-') && AllDigits(digits) && DigitsValue(digits) == n
    ensures Atoi([sign] + digits) == SignedIndex(sign, n)
  {
    var s := [sign] + digits;
    assert s[1..] == digits && s[0] == sign;
  }

  function SignedIndex(sign: char, n: nat): Option<int> {
    var m: int := n;
    var v: int := if sign == '-' then -m else m;
    if -9223372036854775808 <= v <= 9223372036854775807 then Some(v) else None
  }

  lemma SignedIndexRead(n: nat, sign: char)
    requires sign == '+' || sign == '-'
    ensures Atoi([sign] + Decimal(n)) == SignedIndex(sign, n)
  {
    DecimalRead(n);
    SignedDigits(sign, Decimal(n), n);
  }

  lemma IndexPlain(n: string)
    requires Atoi(n).Some?
    ensures !Contains(n, '.')
  {
    var digits := if n != "" && (n[0] == '+' || n[0] == '-') then n[1..] else n;
    assert AllDigits(digits);
    forall i | 0 <= i < |n| ensures n[i] != '.' {
      if digits == n {
        assert IsDigit(digits[i]);
      } else if i > 0 {
        assert IsDigit(digits[i - 1]);
      }
    }
  }

  // ----- Labels -----

  /** The label with this key gives the field of port forward i this value. */
  ghost predicate SetsField(labels: map<string, string>, i: int, name: string, value: string) {
    exists n :: Atoi(n) == Some(i) && HoldsLabel(labels, "gateway.portforward." + n + "." + name, value)
  }

  predicate HoldsLabel(labels: map<string, string>, key: string, value: string) {
    key in labels && labels[key] == value
  }

  predicate FieldName(name: string) {
    name == "protocol" || name == "src_port" || name == "dst_port" || name == "description"
  }

  /** No field is given two values. */
  ghost predicate OneValueEach(labels: map<string, string>) {
    forall i, name, v, w :: FieldName(name) && SetsField(labels, i, name, v) && SetsField(labels, i, name, w) ==> v == w
  }

  lemma KeyText(n: string, name: string)
    ensures "gateway.portforward." + n + "." + name == PortKey(n, name)
  {
    ConcatAssociative("gateway.portforward.", n, "." + name);
    ConcatAssociative(n, ".", name);
    ConcatAssociative("gateway.portforward." + n, ".", name);
  }

  lemma KeyForward(n: string, i: int, name: string)
    requires Atoi(n) == Some(i)
    ensures ParsePortLabel("gateway.portforward." + n + "." + name) == Some(PortLabel(i, FieldOf(name)))
  {
    IndexPlain(n);
    PortKeyRead(n, name);
    KeyText(n, name);
  }

  lemma KeyBack(key: string, i: int, name: string) returns (n: string)
    requires FieldName(name) && ParsePortLabel(key) == Some(PortLabel(i, FieldOf(name)))
    ensures Atoi(n) == Some(i) && key == "gateway.portforward." + n + "." + name
  {
    var rest := key[|PORT_FORWARD_PREFIX|..];
    var dot := IndexOf(rest, '.');
    n := rest[..dot];
    FieldNamed(rest[dot + 1..], name);
    Rejoined(key, PORT_FORWARD_PREFIX, dot);
    KeyText(n, name);
  }

  lemma FieldNamed(a: string, b: string)
    requires FieldName(b) && FieldOf(a) == FieldOf(b)
    ensures a == b
  {
  }

  lemma Rejoined(key: string, prefix: string, dot: nat)
    requires HasPrefix(key, prefix) && var rest := key[|prefix|..]; dot < |rest| && rest[dot] == '.'
    ensures var rest := key[|prefix|..]; key == prefix + (rest[..dot] + "." + rest[dot + 1..])
  {
    var rest := key[|prefix|..];
    assert rest == rest[..dot] + ['.'] + rest[dot + 1..] && key == prefix + rest;
  }

  lemma SetsExact(labels: map<string, string>, i: int, name: string, value: string)
    requires FieldName(name)
    ensures SetsField(labels, i, name, value) <==>
            exists k :: k in labels && ParsePortLabel(k) == Some(PortLabel(i, FieldOf(name))) && labels[k] == value
  {
    if n :| Atoi(n) == Some(i) && HoldsLabel(labels, "gateway.portforward." + n + "." + name, value) {
      KeyForward(n, i, name);
    }
    if k :| k in labels && ParsePortLabel(k) == Some(PortLabel(i, FieldOf(name))) && labels[k] == value {
      var n := KeyBack(k, i, name);
    }
  }

  lemma NameOfField(f: Field) returns (name: string)
    requires f != Other
    ensures FieldName(name) && FieldOf(name) == f
  {
    name := match f
      case Protocol => "protocol"
      case SrcPort => "src_port"
      case DstPort => "dst_port"
      case Description => "description";
  }

  lemma OneValueUnambiguous(labels: map<string, string>)
    requires OneValueEach(labels)
    ensures Unambiguous(ParsePortLabel, labels)
  {
    forall j, k | j in labels && k in labels && ParsePortLabel(j).Some? && ParsePortLabel(j) == ParsePortLabel(k)
                  && ParsePortLabel(j).value.field != Other
      ensures labels[j] == labels[k]
    {
      var l := ParsePortLabel(j).value;
      var name := NameOfField(l.field);
      SetsExact(labels, l.index, name, labels[j]);
      SetsExact(labels, l.index, name, labels[k]);
    }
  }

  // ----- Rules -----

  /** The value the labels give a field; empty if none does. */
  ghost predicate Gives(labels: map<string, string>, i: int, name: string, value: string) {
    SetsField(labels, i, name, value) || (value == "" && forall v :: !SetsField(labels, i, name, v))
  }

  /** A port forward that is asked for: its protocol, source port, destination port and description. */
  ghost predicate Asks(labels: map<string, string>, i: int, p: string, s: string, d: string, x: string) {
    && Gives(labels, i, "protocol", p) && Gives(labels, i, "src_port", s) && Gives(labels, i, "dst_port", d)
    && Gives(labels, i, "description", x) && p != "" && s != "" && d != ""
  }

  /** The rule for it: from the source port on the outside to the destination port of the host. */
  function RuleFor(cid: string, hostIP: string, p: string, s: string, d: string, x: string): Row {
    Row("[homelab-manager] " + cid + (if x == "" then "" else " " + x), NatRule("wan", p, "any", s, hostIP, d))
  }

  lemma CollectedGives(labels: map<string, string>, order: seq<string>, i: int, name: string)
    requires Unambiguous(ParsePortLabel, labels) && Lists(order, labels) && FieldName(name)
    ensures forall v :: Gives(labels, i, name, v) <==>
              v == GetField(EntryAt(CollectEntries(ParsePortLabel, labels, order), i), FieldOf(name))
  {
    var f := FieldOf(name);
    var got := GetField(EntryAt(CollectEntries(ParsePortLabel, labels, order), i), f);
    CollectedField(ParsePortLabel, labels, order, i, f);
    forall v ensures Gives(labels, i, name, v) <==> v == got {
      GivesOne(labels, order, i, name, got, v);
    }
  }

  lemma GivesOne(labels: map<string, string>, order: seq<string>, i: int, name: string, got: string, v: string)
    requires Lists(order, labels) && FieldName(name)
    requires forall k :: k in order && ParsePortLabel(k) == Some(PortLabel(i, FieldOf(name))) ==> got == labels[k]
    requires (forall k :: k in order ==> ParsePortLabel(k) != Some(PortLabel(i, FieldOf(name)))) ==> got == ""
    ensures Gives(labels, i, name, v) <==> v == got
  {
    SetsExact(labels, i, name, v);
    SetsExact(labels, i, name, got);
    forall w ensures SetsField(labels, i, name, w) ==> w == got {
      SetsExact(labels, i, name, w);
    }
    if forall k :: k in order ==> ParsePortLabel(k) != Some(PortLabel(i, FieldOf(name))) {
      assert forall w :: !SetsField(labels, i, name, w) by {
        forall w ensures !SetsField(labels, i, name, w) {
          SetsExact(labels, i, name, w);
        }
      }
    } else {
      var k :| k in order && ParsePortLabel(k) == Some(PortLabel(i, FieldOf(name)));
      assert SetsField(labels, i, name, got);
    }
  }

  lemma AsksExact(labels: map<string, string>, order: seq<string>, i: int)
    requires Unambiguous(ParsePortLabel, labels) && Lists(order, labels)
    ensures var e := EntryAt(CollectEntries(ParsePortLabel, labels, order), i);
            forall p, s, d, x :: Asks(labels, i, p, s, d, x) <==> CompleteEntry(e) && e == Entry(p, s, d, x)
  {
    CollectedGives(labels, order, i, "protocol");
    CollectedGives(labels, order, i, "src_port");
    CollectedGives(labels, order, i, "dst_port");
    CollectedGives(labels, order, i, "description");
  }

  /** Which entry each rule comes from. */
  lemma {:induction false} RuleRowsAt(es: Entries, indices: seq<int>, hostIP: string, describe: string -> string)
    returns (ns: seq<int>)
    requires Ascending(indices) && forall i :: 0 <= i < |indices| ==> indices[i] in es
    ensures var rows := RuleRows(es, indices, hostIP, describe);
            && |ns| == |rows| && Ascending(ns)
            && forall m :: 0 <= m < |ns| ==>
                 ns[m] in es && CompleteEntry(es[ns[m]]) && rows[m] == RuleRow(es[ns[m]], hostIP, describe)
    ensures forall i :: i in ns <==> i in indices && i in es && CompleteEntry(es[i])
    decreases |indices|
  {
    if indices == [] {
      ns := [];
    } else {
      var n := |indices| - 1;
      var e, before := es[indices[n]], RuleRows(es, indices[..n], hostIP, describe);
      ns := RuleRowsAt(es, indices[..n], hostIP, describe);
      if CompleteEntry(e) {
        LastRule(es, indices, ns);
        ns := ns + [indices[n]];
      } else {
        assert before + [] == before;
        assert forall i :: i in indices <==> i == indices[n] || i in indices[..n];
      }
    }
  }

  lemma LastRule(es: Entries, indices: seq<int>, ns: seq<int>)
    requires indices != [] && Ascending(indices) && Ascending(ns) && indices[|indices| - 1] in es
    requires CompleteEntry(es[indices[|indices| - 1]])
    requires forall i :: i in ns <==> i in indices[..|indices| - 1] && i in es && CompleteEntry(es[i])
    ensures var more := ns + [indices[|indices| - 1]];
            && Ascending(more)
            && forall i :: i in more <==> i in indices && i in es && CompleteEntry(es[i])
  {
    var n := |indices| - 1;
    assert forall i :: i in indices <==> i == indices[n] || i in indices[..n];
    forall m | 0 <= m < |ns| ensures ns[m] < indices[n] {
      assert ns[m] in ns;
    }
  }

  /** Labels that give no field two values: there is exactly one rule for each port forward that is asked for, with
      its values, by ascending index, and no other. */
  lemma ForwardsExact(labels: map<string, string>, hostIP: string, cid: string, rules: seq<Row>)
    returns (ns: seq<int>)
    requires OneValueEach(labels)
    requires RulesOf(ParsePortLabel, labels, hostIP, Describing(Descriptions(), cid), rules)
    ensures |ns| == |rules| && Ascending(ns)
    ensures forall i :: i in ns <==> exists p, s, d, x :: Asks(labels, i, p, s, d, x)
    ensures forall m, p, s, d, x :: 0 <= m < |ns| && Asks(labels, ns[m], p, s, d, x) ==>
              rules[m] == RuleFor(cid, hostIP, p, s, d, x)
  {
    OneValueUnambiguous(labels);
    var describe := Describing(Descriptions(), cid);
    var order, indices :| RulesFrom(ParsePortLabel, labels, order, indices, hostIP, describe, rules);
    var es := CollectEntries(ParsePortLabel, labels, order);
    ns := RuleRowsAt(es, indices, hostIP, describe);
    forall i ensures i in ns <==> exists p, s, d, x :: Asks(labels, i, p, s, d, x) {
      AsksExact(labels, order, i);
      var e := EntryAt(es, i);
      assert CompleteEntry(e) ==> Asks(labels, i, e.protocol, e.srcPort, e.dstPort, e.description);
    }
    forall m, p, s, d, x | 0 <= m < |ns| && Asks(labels, ns[m], p, s, d, x)
      ensures rules[m] == RuleFor(cid, hostIP, p, s, d, x)
    {
      AsksExact(labels, order, ns[m]);
      DescriptionText(cid, x);
    }
  }

  lemma HoldsSets(labels: map<string, string>, n: string, i: int, name: string, v: string)
    requires Atoi(n) == Some(i) && HoldsLabel(labels, "gateway.portforward." + n + "." + name, v)
    ensures SetsField(labels, i, name, v)
  {
  }

  /** For example, the three labels that a port forward needs. */
  lemma OneForward(labels: map<string, string>, hostIP: string, cid: string, rules: seq<Row>, n: string, p: string,
                   s: string, d: string) returns (m: nat)
    requires OneValueEach(labels) && Atoi(n).Some? && p != "" && s != "" && d != ""
    requires RulesOf(ParsePortLabel, labels, hostIP, Describing(Descriptions(), cid), rules)
    requires HoldsLabel(labels, "gateway.portforward." + n + "." + "protocol", p)
    requires HoldsLabel(labels, "gateway.portforward." + n + "." + "src_port", s)
    requires HoldsLabel(labels, "gateway.portforward." + n + "." + "dst_port", d)
    requires forall x :: !SetsField(labels, Atoi(n).value, "description", x)
    ensures m < |rules| && rules[m] == RuleFor(cid, hostIP, p, s, d, "")
  {
    var i := Atoi(n).value;
    HoldsSets(labels, n, i, "protocol", p);
    HoldsSets(labels, n, i, "src_port", s);
    HoldsSets(labels, n, i, "dst_port", d);
    assert Asks(labels, i, p, s, d, "");
    m := ForwardAt(labels, hostIP, cid, rules, i, p, s, d, "");
  }

  lemma ForwardAt(labels: map<string, string>, hostIP: string, cid: string, rules: seq<Row>, i: int, p: string,
                  s: string, d: string, x: string) returns (m: nat)
    requires OneValueEach(labels) && Asks(labels, i, p, s, d, x)
    requires RulesOf(ParsePortLabel, labels, hostIP, Describing(Descriptions(), cid), rules)
    ensures m < |rules| && rules[m] == RuleFor(cid, hostIP, p, s, d, x)
  {
    var ns := ForwardsExact(labels, hostIP, cid, rules);
    assert i in ns;
    m :| 0 <= m < |ns| && ns[m] == i;
  }

  /** The port forwards of a container that runs: those it asks for, to the IP of its host; none without one. */
  lemma WantedForwardsExact(info: ContainerInfo, cid: string, rows: seq<Row>) returns (ns: seq<int>)
    requires OneValueEach(info.labels) && DesiredForwards(Descriptions(), ParsePortLabel, info, cid, rows)
    ensures info.hostIP == "" ==> rows == []
    ensures info.hostIP != "" ==>
              && |ns| == |rows| && Ascending(ns)
              && (forall i :: i in ns <==> exists p, s, d, x :: Asks(info.labels, i, p, s, d, x))
              && forall m, p, s, d, x :: 0 <= m < |ns| && Asks(info.labels, ns[m], p, s, d, x) ==>
                   rows[m] == RuleFor(cid, info.hostIP, p, s, d, x)
  {
    var rules :| IsForwards(Descriptions(), ParsePortLabel, info, cid, rules, rows);
    ns := ForwardsExact(info.labels, info.hostIP, cid, rules);
  }
}
