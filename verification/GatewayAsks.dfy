/** What labels ask of the gateway, spelled out (extractDNSTargets, splitDomain, buildNATRules,
    loader_gateway.go): which words become host overrides, and which label ends in which field of a rule. */
module GatewayAsks {
  import opened Runes
  import opened Digits
  import opened Seqs
  import opened Listings
  import opened Ownership
  import opened Gateway
  import opened NatRules
  import opened PortForwards
  import opened RunningContainers
  import opened GatewayRows
  import opened PortLabels

  // ----- Words -----

  predicate AllSpace(s: string) {
    forall i :: 0 <= i < |s| ==> IsSpace(s[i])
  }

  /** The words with a gap before each and one after the last. */
  function Spread(gaps: seq<string>, words: seq<string>): string
    requires |gaps| == |words| + 1
    decreases |words|
  {
    if words == [] then gaps[0] else gaps[0] + (words[0] + Spread(gaps[1..], words[1..]))
  }

  /** The words of a text: what stands between white space. There is only one way to read it so. */
  ghost predicate WordsOf(s: string, gaps: seq<string>, words: seq<string>) {
    && |gaps| == |words| + 1 && s == Spread(gaps, words)
    && (forall k :: 0 <= k < |gaps| ==> AllSpace(gaps[k]) && (0 < k < |words| ==> gaps[k] != ""))
    && (forall k :: 0 <= k < |words| ==> words[k] != "" && NoSpace(words[k]))
  }

  lemma {:induction false} WordLengthWord(s: string)
    ensures var n := WordLength(s); NoSpace(s[..n]) && (n < |s| ==> IsSpace(s[n]))
    decreases |s|
  {
    if s != "" && !IsSpace(s[0]) {
      WordLengthWord(s[1..]);
      var n := WordLength(s);
      assert s[1..][..n - 1] == s[1..n];
      assert s[..n] == [s[0]] + s[1..n];
    }
  }

  lemma MoreSpace(c: char, s: string, gaps: seq<string>, words: seq<string>)
    requires IsSpace(c) && WordsOf(s, gaps, words)
    ensures WordsOf([c] + s, [[c] + gaps[0]] + gaps[1..], words)
  {
    var more := [[c] + gaps[0]] + gaps[1..];
    assert more[1..] == gaps[1..];
    if words != [] {
      ConcatAssociative([c], gaps[0], words[0] + Spread(gaps[1..], words[1..]));
    }
  }

  lemma MoreWord(w: string, s: string, gaps: seq<string>, words: seq<string>)
    requires w != "" && NoSpace(w) && WordsOf(s, gaps, words) && (words != [] ==> gaps[0] != "")
    ensures WordsOf(w + s, [""] + gaps, [w] + words)
  {
    assert ([""] + gaps)[1..] == gaps && ([w] + words)[1..] == words;
    assert "" + (w + s) == w + s;
  }

  lemma FirstWord(s: string, n: nat, rest: seq<string>)
    requires s != "" && !IsSpace(s[0]) && n == WordLength(s) && WordsOf(s[n..], rest, Fields(s[n..]))
    requires s[n..] != "" && IsSpace(s[n..][0]) ==> rest[0] != ""
    ensures WordsOf(s, [""] + rest, [s[..n]] + Fields(s[n..]))
  {
    WordLengthWord(s);
    assert n < |s| ==> s[n..][0] == s[n];
    MoreWord(s[..n], s[n..], rest, Fields(s[n..]));
    assert s == s[..n] + s[n..];
  }

  lemma {:induction false} FieldsExact(s: string) returns (gaps: seq<string>)
    ensures WordsOf(s, gaps, Fields(s)) && (s != "" && IsSpace(s[0]) ==> gaps[0] != "")
    decreases |s|
  {
    if s == "" {
      gaps := [""];
    } else if IsSpace(s[0]) {
      var rest := FieldsExact(s[1..]);
      MoreSpace(s[0], s[1..], rest, Fields(s[1..]));
      assert s == [s[0]] + s[1..];
      gaps := [[s[0]] + rest[0]] + rest[1..];
    } else {
      var n := WordLength(s);
      var rest := FieldsExact(s[n..]);
      FirstWord(s, n, rest);
      gaps := [""] + rest;
    }
  }

  lemma {:induction false} FirstFieldFields(s: string)
    ensures FirstField(s) == if Fields(s) == [] then "" else Fields(s)[0]
    decreases |s|
  {
    if s != "" {
      if IsSpace(s[0]) {
        FirstFieldFields(s[1..]);
      } else {
        TakeWordLength(s);
      }
    }
  }

  lemma {:induction false} TakeWordLength(s: string)
    ensures TakeWord(s) == s[..WordLength(s)]
    decreases |s|
  {
    if s != "" && !IsSpace(s[0]) {
      TakeWordLength(s[1..]);
      var n := WordLength(s);
      assert s[..n] == [s[0]] + s[1..][..n - 1];
    }
  }

  /** The container a description names: the first word after our tag. */
  lemma ContainerNamed(description: string) returns (gaps: seq<string>, words: seq<string>)
    ensures if |description| < 17 || description[..17] != "[homelab-manager]"
            then ExtractContainerID(description) == ""
            else
              && WordsOf(description[17..], gaps, words)
              && ExtractContainerID(description) == if words == [] then "" else words[0]
  {
    OwnedExact(description);
    gaps, words := [], [];
    if Tagged(description) {
      gaps := FieldsExact(description[17..]);
      words := Fields(description[17..]);
      FirstFieldFields(description[17..]);
      assert |DESCRIPTION_PREFIX| == 17;
    }
  }

  // ----- DNS -----

  ghost predicate Rising(at: seq<nat>) {
    forall k, l :: 0 <= k < l < |at| ==> at[k] < at[l]
  }

  /** The elements at some indices, in order. */
  ghost predicate Picked<T>(all: seq<T>, at: seq<nat>, picked: seq<T>) {
    |picked| == |at| && Rising(at) && forall k :: 0 <= k < |at| ==> at[k] < |all| && picked[k] == all[at[k]]
  }

  lemma {:induction false} Starless(words: seq<string>) returns (at: seq<nat>)
    ensures Picked(words, at, WithoutWildcards(words))
    ensures forall i: nat :: i in at <==> i < |words| && '*' !in words[i]
    decreases |words|
  {
    if words == [] {
      at := [];
    } else {
      var rest := Starless(words[1..]);
      at := Next(!Contains(words[0], '*'), rest);
      NextPicked(words, rest, WithoutWildcards(words[1..]), !Contains(words[0], '*'));
      forall i: nat ensures i in at <==> i < |words| && '*' !in words[i] {
        NextMember(!Contains(words[0], '*'), rest, i);
        if i > 0 {
          assert i - 1 in rest <==> i - 1 < |words[1..]| && '*' !in words[1..][i - 1];
        }
      }
    }
  }

  /** Indices of the rest as indices of the whole, with the first in front or not. */
  function Next(first: bool, rest: seq<nat>): seq<nat> {
    (if first then [0] else []) + Up(rest)
  }

  function Up(rest: seq<nat>): (r: seq<nat>)
    ensures |r| == |rest| && forall k :: 0 <= k < |r| ==> r[k] == rest[k] + 1
  {
    seq(|rest|, k requires 0 <= k < |rest| => rest[k] + 1)
  }

  lemma NextMember(first: bool, rest: seq<nat>, i: nat)
    ensures i in Next(first, rest) <==> if i == 0 then first else i - 1 in rest
  {
    if i > 0 && i - 1 in rest {
      var k :| 0 <= k < |rest| && rest[k] == i - 1;
      assert Up(rest)[k] == i;
    }
  }

  lemma NextPicked<T>(all: seq<T>, rest: seq<nat>, picked: seq<T>, first: bool)
    requires all != [] && Picked(all[1..], rest, picked)
    ensures Picked(all, Next(first, rest), (if first then [all[0]] else []) + picked)
  {
    var at, r := Next(first, rest), (if first then [all[0]] else []) + picked;
    forall k | 0 <= k < |rest| ensures all[rest[k] + 1] == picked[k] && rest[k] + 1 < |all| {
      assert all[1..][rest[k]] == picked[k];
    }
  }

  /** The domains of a container: the words of its site label without a star, in order; none if it has no such
      label, or opts out. */
  lemma DnsTargetsExact(labels: map<string, string>, labelPrefix: string)
    returns (gaps: seq<string>, words: seq<string>, at: seq<nat>)
    ensures var domains := ExtractDNSTargets(labels, labelPrefix);
            if labelPrefix !in labels || ("gateway.dns" in labels && labels["gateway.dns"] == "false")
            then domains == []
            else
              && WordsOf(labels[labelPrefix], gaps, words) && Picked(words, at, domains)
              && forall i: nat :: i in at <==> i < |words| && '*' !in words[i]
  {
    gaps, words, at := [], [], [];
    if labelPrefix in labels {
      words := Fields(labels[labelPrefix]);
      gaps := FieldsExact(labels[labelPrefix]);
      at := Starless(words);
    }
  }

  /** The two parts of a domain: what is before and after its first dot. */
  ghost predicate Parts(fqdn: string, hostname: string, domain: string) {
    hostname != "" && domain != "" && '.' !in hostname && fqdn == hostname + "." + domain
  }

  ghost predicate HasParts(fqdn: string) {
    exists h, d :: Parts(fqdn, h, d)
  }

  lemma PartsSplit(fqdn: string, h: string, d: string)
    requires Parts(fqdn, h, d)
    ensures SplitDomain(fqdn) == Some(HostName(h, d))
  {
    assert !Contains(h, '.') && fqdn == h + ['.'] + d;
    IndexOfFirst(h, d, '.');
    assert fqdn[..|h|] == h && fqdn[|h| + 1..] == d;
  }

  lemma SplitParts(fqdn: string)
    ensures SplitDomain(fqdn).Some? <==> HasParts(fqdn)
    ensures SplitDomain(fqdn).Some? ==> Parts(fqdn, SplitDomain(fqdn).value.hostname, SplitDomain(fqdn).value.domain)
  {
    SplitDomainExact(fqdn);
    if SplitDomain(fqdn).Some? {
      var h := SplitDomain(fqdn).value;
      assert Parts(fqdn, h.hostname, h.domain) by {
        assert forall i :: 0 <= i < |h.hostname| ==> h.hostname[i] != '.';
      }
    }
    if h, d :| Parts(fqdn, h, d) {
      PartsSplit(fqdn, h, d);
    }
  }

  /** The row maps the first part of the domain, in the rest of it, to the address. */
  ghost predicate Overrides(row: Row, fqdn: string, ip: string, description: string) {
    exists h, d :: Parts(fqdn, h, d) && row == Row(description, HostOverride(h, d, ip))
  }

  /** The rows are overrides for the domains at these indices. */
  ghost predicate OverridesAt(domains: seq<string>, at: seq<nat>, rows: seq<Row>, ip: string, description: string) {
    && |rows| == |at| && Rising(at)
    && forall k :: 0 <= k < |at| ==> at[k] < |domains| && Overrides(rows[k], domains[at[k]], ip, description)
  }

  lemma MoreOverrides(domains: seq<string>, rest: seq<nat>, rows: seq<Row>, ip: string, description: string,
                      first: seq<Row>)
    requires domains != [] && OverridesAt(domains[1..], rest, rows, ip, description) && |first| <= 1
    requires first != [] ==> Overrides(first[0], domains[0], ip, description)
    ensures OverridesAt(domains, Next(first != [], rest), first + rows, ip, description)
  {
    UpOverrides(domains, rest, rows, ip, description);
    if first == [] {
      assert [] + Up(rest) == Up(rest) && [] + rows == rows;
    } else {
      assert first == [first[0]];
      OneMore(domains, Up(rest), rows, ip, description, first[0]);
    }
  }

  lemma UpOverrides(domains: seq<string>, rest: seq<nat>, rows: seq<Row>, ip: string, description: string)
    requires domains != [] && OverridesAt(domains[1..], rest, rows, ip, description)
    ensures OverridesAt(domains, Up(rest), rows, ip, description) && 0 !in Up(rest)
  {
    forall k | 0 <= k < |rest|
      ensures rest[k] + 1 < |domains| && Overrides(rows[k], domains[rest[k] + 1], ip, description)
    {
      assert domains[1..][rest[k]] == domains[rest[k] + 1];
    }
  }

  lemma OneMore(domains: seq<string>, up: seq<nat>, rows: seq<Row>, ip: string, description: string, row: Row)
    requires domains != [] && OverridesAt(domains, up, rows, ip, description) && 0 !in up
    requires Overrides(row, domains[0], ip, description)
    ensures OverridesAt(domains, [0] + up, [row] + rows, ip, description)
  {
    var at, r := [0] + up, [row] + rows;
    forall k | 0 <= k < |at| ensures at[k] < |domains| && Overrides(r[k], domains[at[k]], ip, description) {
      if k > 0 {
        assert at[k] == up[k - 1] && r[k] == rows[k - 1];
      }
    }
    forall k, l | 0 <= k < l < |at| ensures at[k] < at[l] {
      assert at[l] == up[l - 1] && up[l - 1] in up;
    }
  }

  lemma MoreIndices(domains: seq<string>, rest: seq<nat>, first: bool)
    requires domains != [] && (first <==> HasParts(domains[0]))
    requires forall i: nat :: i in rest <==> i < |domains[1..]| && HasParts(domains[1..][i])
    ensures forall i: nat :: i in Next(first, rest) <==> i < |domains| && HasParts(domains[i])
  {
    forall i: nat ensures i in Next(first, rest) <==> i < |domains| && HasParts(domains[i]) {
      NextMember(first, rest, i);
      if i > 0 {
        assert i - 1 in rest <==> i - 1 < |domains[1..]| && HasParts(domains[1..][i - 1]);
      }
    }
  }

  /** Each domain that has two parts becomes one host override, in order. */
  lemma {:induction false} OverridesExact(domains: seq<string>, ip: string, description: string)
    returns (at: seq<nat>)
    ensures OverridesAt(domains, at, OverrideRows(domains, ip, description), ip, description)
    ensures forall i: nat :: i in at <==> i < |domains| && HasParts(domains[i])
    decreases |domains|
  {
    if domains == [] {
      at := [];
    } else {
      var h := SplitDomain(domains[0]);
      var rest := OverridesExact(domains[1..], ip, description);
      var first := if h.None? then [] else [Row(description, HostOverride(h.value.hostname, h.value.domain, ip))];
      SplitParts(domains[0]);
      MoreOverrides(domains, rest, OverrideRows(domains[1..], ip, description), ip, description, first);
      MoreIndices(domains, rest, first != []);
      at := Next(first != [], rest);
    }
  }

  /** The host overrides of a container that runs: for its domains, to the Caddy IP, in its name; none if there is
      no Caddy IP. */
  lemma WantedOverridesExact(info: ContainerInfo, labelPrefix: string, caddyIP: string, cid: string)
    returns (at: seq<nat>)
    ensures var domains := ExtractDNSTargets(info.labels, labelPrefix);
            var rows := DesiredOverrides(Descriptions(), info, labelPrefix, caddyIP, cid);
            if caddyIP == "" then rows == []
            else
              && OverridesAt(domains, at, rows, caddyIP, "[homelab-manager] " + cid)
              && forall i: nat :: i in at <==> i < |domains| && HasParts(domains[i])
  {
    var domains := ExtractDNSTargets(info.labels, labelPrefix);
    DescriptionText(cid, "");
    assert "[homelab-manager] " + cid + "" == "[homelab-manager] " + cid;
    at := OverridesExact(domains, caddyIP, "[homelab-manager] " + cid);
  }
}
