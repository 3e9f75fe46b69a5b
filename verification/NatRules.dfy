/** What the labels of a container ask of the gateway (loader_gateway.go): DNS domains and port forwards. */
module NatRules {
  import opened Runes
  import opened Seqs
  import opened Ownership
  import opened Digits

  // ----- Domains -----

  /** strings.Fields */
  function Fields(s: string): seq<string>
    decreases |s|
  {
    if s == "" then []
    else if IsSpace(s[0]) then Fields(s[1..])
    else
      var n := WordLength(s);
      [s[..n]] + Fields(s[n..])
  }

  function WordLength(s: string): (n: nat)
    ensures n <= |s|
    ensures s != "" && !IsSpace(s[0]) ==> n > 0
  {
    if s == "" || IsSpace(s[0]) then 0 else 1 + WordLength(s[1..])
  }

  function WithoutWildcards(domains: seq<string>): seq<string> {
    if domains == [] then []
    else (if Contains(domains[0], '*') then [] else [domains[0]]) + WithoutWildcards(domains[1..])
  }

  function ExtractDNSTargets(labels: map<string, string>, labelPrefix: string): seq<string> {
    if "gateway.dns" in labels && labels["gateway.dns"] == "false" then []
    else if labelPrefix !in labels then []
    else WithoutWildcards(Fields(labels[labelPrefix]))
  }

  /** strings.IndexByte, or -1. */
  function IndexOf(s: string, c: char): (i: int)
    ensures -1 <= i < |s|
    ensures i >= 0 ==> s[i] == c && forall j :: 0 <= j < i ==> s[j] != c
    ensures i == -1 ==> !Contains(s, c)
  {
    if s == "" then -1
    else if s[0] == c then 0
    else
      var i := IndexOf(s[1..], c);
      if i == -1 then -1 else i + 1
  }

  datatype HostName = HostName(hostname: string, domain: string)

  function SplitDomain(fqdn: string): Option<HostName> {
    var i := IndexOf(fqdn, '.');
    if i < 1 || i == |fqdn| - 1 then None else Some(HostName(fqdn[..i], fqdn[i + 1..]))
  }

  /** A domain splits exactly when it has something before and after its first dot, and the parts are
      that text. */
  lemma SplitDomainExact(fqdn: string)
    ensures SplitDomain(fqdn).Some? <==>
            exists i :: 1 <= i < |fqdn| - 1 && fqdn[i] == '.' && forall j :: 0 <= j < i ==> fqdn[j] != '.'
    ensures SplitDomain(fqdn).Some? ==>
              var h := SplitDomain(fqdn).value;
              h.hostname + "." + h.domain == fqdn && !Contains(h.hostname, '.') && h.hostname != "" && h.domain != ""
  {
  }

  /** The host overrides a container asks for, in order. */
  function OverrideRows(domains: seq<string>, caddyIP: string, description: string): seq<Row> {
    if domains == [] then []
    else
      var h := SplitDomain(domains[0]);
      (if h.None? then [] else [Row(description, HostOverride(h.value.hostname, h.value.domain, caddyIP))])
      + OverrideRows(domains[1..], caddyIP, description)
  }

  // ----- Port forwards -----

  /** strconv.Atoi: an optional sign and digits, in the range of int. */
  function Atoi(s: string): Option<int> {
    var signed := s != "" && (s[0] == '+' || s[0] == '-');
    var digits := if signed then s[1..] else s;
    if !AllDigits(digits) then None
    else
      var n: int := DigitsValue(digits);
      var v: int := if signed && s[0] == '-' then -n else n;
      if -MAX_INT64 - 1 <= v <= MAX_INT64 then Some(v) else None
  }

  datatype Field = Protocol | SrcPort | DstPort | Description | Other

  function FieldOf(name: string): Field {
    if name == "protocol" then Protocol
    else if name == "src_port" then SrcPort
    else if name == "dst_port" then DstPort
    else if name == "description" then Description
    else Other
  }

  const PORT_FORWARD_PREFIX := "gateway.portforward."

  datatype PortLabel = PortLabel(index: int, field: Field)

  /** The entry and field a label key sets, if it is a port forward label. */
  function ParsePortLabel(key: string): Option<PortLabel> {
    if !HasPrefix(key, PORT_FORWARD_PREFIX) then None
    else
      var rest := key[|PORT_FORWARD_PREFIX|..];
      var dot := IndexOf(rest, '.');
      if dot == -1 then None
      else
        var index := Atoi(rest[..dot]);
        if index.None? then None else Some(PortLabel(index.value, FieldOf(rest[dot + 1..])))
  }
}
