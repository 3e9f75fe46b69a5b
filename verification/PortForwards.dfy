/** The entries that port forward labels fill (buildNATRules, loader_gateway.go), for any reading of label
    keys, and when they depend on the order in which Go goes through the labels. */
module PortForwards {
  import opened Seqs
  import opened Ownership
  import opened NatRules
  import opened Listings

  datatype Entry = Entry(protocol: string, srcPort: string, dstPort: string, description: string)

  type Entries = map<int, Entry>

  function SetField(e: Entry, field: Field, value: string): Entry {
    match field
    case Protocol => e.(protocol := value)
    case SrcPort => e.(srcPort := value)
    case DstPort => e.(dstPort := value)
    case Description => e.(description := value)
    case Other => e
  }

  function GetField(e: Entry, field: Field): string {
    match field
    case Protocol => e.protocol
    case SrcPort => e.srcPort
    case DstPort => e.dstPort
    case Description => e.description
    case Other => ""
  }

  function EntryAt(es: Entries, index: int): Entry {
    if index in es then es[index] else Entry("", "", "", "")
  }

  type Reader = string -> Option<PortLabel>

  /** One turn of the loop over the labels. */
  function AddPortLabel(es: Entries, read: Reader, key: string, value: string): Entries {
    var l := read(key);
    if l.None? then es
    else es[l.value.index := SetField(EntryAt(es, l.value.index), l.value.field, value)]
  }

  function CollectEntries(read: Reader, labels: map<string, string>, order: seq<string>): Entries
    requires forall k :: k in order ==> k in labels
  {
    if order == [] then map[]
    else
      var n := |order| - 1;
      AddPortLabel(CollectEntries(read, labels, order[..n]), read, order[n], labels[order[n]])
  }

  /** Two labels do not set the same field of the same entry to different values: as when the index is
      written both `1` and `01`. */
  ghost predicate Unambiguous(read: Reader, labels: map<string, string>) {
    forall j, k :: j in labels && k in labels && read(j).Some? && read(j) == read(k) && read(j).value.field != Other ==>
      labels[j] == labels[k]
  }

  /** The field of an entry is what a label sets it to, and empty if none does. */
  lemma {:induction false} CollectedField(read: Reader, labels: map<string, string>, order: seq<string>, index: int,
                                          field: Field)
    requires Unambiguous(read, labels) && (forall k :: k in order ==> k in labels) && field != Other
    ensures var v := GetField(EntryAt(CollectEntries(read, labels, order), index), field);
            && (forall k :: k in order && read(k) == Some(PortLabel(index, field)) ==> v == labels[k])
            && ((forall k :: k in order ==> read(k) != Some(PortLabel(index, field))) ==> v == "")
    ensures index in CollectEntries(read, labels, order) <==>
            exists k :: k in order && read(k).Some? && read(k).value.index == index
    decreases |order|
  {
    if order != [] {
      var n := |order| - 1;
      CollectedField(read, labels, order[..n], index, field);
      assert forall k :: k in order <==> k == order[n] || k in order[..n];
    }
  }

  lemma SameFields(a: Entry, b: Entry)
    requires forall f :: f != Other ==> GetField(a, f) == GetField(b, f)
    ensures a == b
  {
    assert GetField(a, Protocol) == GetField(b, Protocol) && GetField(a, SrcPort) == GetField(b, SrcPort);
    assert GetField(a, DstPort) == GetField(b, DstPort) && GetField(a, Description) == GetField(b, Description);
  }

  lemma UnambiguousSameEntries(read: Reader, labels: map<string, string>, order: seq<string>, other: seq<string>)
    requires Unambiguous(read, labels) && Lists(order, labels) && Lists(other, labels)
    ensures CollectEntries(read, labels, order) == CollectEntries(read, labels, other)
  {
    var a, b := CollectEntries(read, labels, order), CollectEntries(read, labels, other);
    forall i ensures i in a <==> i in b {
      CollectedField(read, labels, order, i, Protocol);
      CollectedField(read, labels, other, i, Protocol);
    }
    forall i | i in a ensures a[i] == b[i] {
      forall f | f != Other ensures GetField(a[i], f) == GetField(b[i], f) {
        CollectedField(read, labels, order, i, f);
        CollectedField(read, labels, other, i, f);
      }
      SameFields(a[i], b[i]);
    }
  }

  lemma {:induction false} SomeOrder(keys: set<string>) returns (order: seq<string>)
    ensures NoDuplicates(order) && forall k :: k in order <==> k in keys
    decreases |keys|
  {
    if keys == {} {
      order := [];
    } else {
      var k :| k in keys;
      var rest := SomeOrder(keys - {k});
      order := rest + [k];
    }
  }

  lemma LastSets(read: Reader, labels: map<string, string>, order: seq<string>, key: string, l: PortLabel)
    requires (forall k :: k in order + [key] ==> k in labels) && read(key) == Some(l) && l.field != Other
    ensures GetField(EntryAt(CollectEntries(read, labels, order + [key]), l.index), l.field) == labels[key]
  {
    assert (order + [key])[..|order|] == order;
  }

  /** Two labels that clash: which of them comes last decides. */
  lemma AmbiguousDiffers(read: Reader, labels: map<string, string>, j: string, k: string)
    returns (order: seq<string>, other: seq<string>)
    requires j in labels && k in labels && read(j).Some? && read(j) == read(k) && read(j).value.field != Other
    requires labels[j] != labels[k]
    ensures Lists(order, labels) && Lists(other, labels)
    ensures CollectEntries(read, labels, order) != CollectEntries(read, labels, other)
  {
    var rest := SomeOrder(labels.Keys - {j, k});
    order, other := rest + [k] + [j], rest + [j] + [k];
    ListsTwoLast(rest, k, j, labels);
    ListsTwoLast(rest, j, k, labels);
    LastSets(read, labels, rest + [k], j, read(j).value);
    LastSets(read, labels, rest + [j], k, read(k).value);
  }

  /** The entries are the same for every iteration order of the labels exactly when no two labels set the
      same field of the same entry to different values. */
  lemma EntriesOrderIndependent(read: Reader, labels: map<string, string>)
    ensures Unambiguous(read, labels) <==>
            forall order, other :: Lists(order, labels) && Lists(other, labels) ==>
              CollectEntries(read, labels, order) == CollectEntries(read, labels, other)
  {
    if Unambiguous(read, labels) {
      forall order, other | Lists(order, labels) && Lists(other, labels)
        ensures CollectEntries(read, labels, order) == CollectEntries(read, labels, other)
      {
        UnambiguousSameEntries(read, labels, order, other);
      }
    } else {
      var j, k :| j in labels && k in labels && read(j).Some? && read(j) == read(k) && read(j).value.field != Other
                  && labels[j] != labels[k];
      var order, other := AmbiguousDiffers(read, labels, j, k);
    }
  }

  // ----- Rules -----

  predicate CompleteEntry(e: Entry) {
    e.protocol != "" && e.srcPort != "" && e.dstPort != ""
  }

  function RuleRow(e: Entry, hostIP: string, describe: string -> string): Row {
    Row(describe(e.description), NatRule("wan", e.protocol, "any", e.srcPort, hostIP, e.dstPort))
  }

  /** The rules of the entries with the given indices, in that order, skipping incomplete ones. */
  function RuleRows(es: Entries, indices: seq<int>, hostIP: string, describe: string -> string): seq<Row>
    requires forall i :: 0 <= i < |indices| ==> indices[i] in es
  {
    if indices == [] then []
    else
      var n := |indices| - 1;
      var e := es[indices[n]];
      RuleRows(es, indices[..n], hostIP, describe) + if CompleteEntry(e) then [RuleRow(e, hostIP, describe)] else []
  }

  ghost predicate Ascending(s: seq<int>) {
    forall i, j :: 0 <= i < j < |s| ==> s[i] < s[j]
  }

  lemma BothEmpty(a: seq<int>, b: seq<int>)
    requires forall i :: i in a <==> i in b
    ensures a == [] <==> b == []
  {
    if a != [] {
      var x := a[0];
      assert x in a && x in b;
    }
    if b != [] {
      var x := b[0];
      assert x in b && x in a;
    }
  }

  /** sort.Ints leaves the only ascending listing of the indices. */
  lemma {:induction false} AscendingUnique(a: seq<int>, b: seq<int>)
    requires Ascending(a) && Ascending(b) && forall i :: i in a <==> i in b
    ensures a == b
    decreases |a|
  {
    BothEmpty(a, b);
    if a != [] {
      assert a[0] in b && b[0] in a;
      assert a[0] == b[0];
      forall i ensures i in a[1..] <==> i in b[1..] {
        assert i in a[1..] <==> i in a && i != a[0];
        assert i in b[1..] <==> i in b && i != b[0];
      }
      AscendingUnique(a[1..], b[1..]);
      assert a == [a[0]] + a[1..] && b == [b[0]] + b[1..];
    }
  }
}
