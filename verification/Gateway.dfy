/** Ownership of router rows (gateway/state.go, gateway/dns.go): descriptions, the tracked UUIDs, and the
    single effects that reconcileGateway has on one of the two tables (host overrides, NAT rules). */
module Gateway {
  import opened Runes
  import opened Seqs
  import opened Ownership

  const DESCRIPTION_PREFIX := "[homelab-manager]"

  // ----- Descriptions -----

  function MakeDescription(containerID: string, extra: string): string {
    if extra == "" then DESCRIPTION_PREFIX + " " + containerID
    else DESCRIPTION_PREFIX + " " + containerID + " " + extra
  }

  predicate OwnedByUs(description: string) {
    HasPrefix(description, DESCRIPTION_PREFIX)
  }

  /** A description is ours exactly if it begins with this text. */
  predicate Tagged(description: string) {
    |description| >= 17 && description[..17] == "[homelab-manager]"
  }

  lemma OwnedExact(description: string)
    ensures OwnedByUs(description) <==> Tagged(description)
  {
    assert |DESCRIPTION_PREFIX| == 17;
    if OwnedByUs(description) {
      assert description[..17] == DESCRIPTION_PREFIX;
    }
  }

  lemma DescriptionText(containerID: string, extra: string)
    ensures MakeDescription(containerID, extra) ==
            "[homelab-manager] " + containerID + if extra == "" then "" else " " + extra
  {
    assert "[homelab-manager]" + " " == "[homelab-manager] ";
    var a := "[homelab-manager] " + containerID;
    assert a + "" == a && a + " " + extra == a + (" " + extra);
  }

  function SkipSpace(s: string): string {
    if s != "" && IsSpace(s[0]) then SkipSpace(s[1..]) else s
  }

  function TakeWord(s: string): string {
    if s == "" || IsSpace(s[0]) then "" else [s[0]] + TakeWord(s[1..])
  }

  /** strings.Fields(s)[0], or "" if there are no fields. */
  function FirstField(s: string): string {
    TakeWord(SkipSpace(s))
  }

  function ExtractContainerID(description: string): string {
    if HasPrefix(description, DESCRIPTION_PREFIX) then FirstField(description[|DESCRIPTION_PREFIX|..]) else ""
  }

  lemma {:induction false} TakeWordConcat(a: string, b: string)
    ensures NoSpace(TakeWord(a))
    ensures NoSpace(a) && (b == "" || IsSpace(b[0])) ==> TakeWord(a + b) == a
    decreases |a|
  {
    if a == "" {
      assert a + b == b;
    } else {
      assert (a + b)[1..] == a[1..] + b && (a + b)[0] == a[0];
      TakeWordConcat(a[1..], b);
      if NoSpace(a) {
        assert !IsSpace(a[0]) && NoSpace(a[1..]);
      }
    }
  }

  /** A description decodes to the container it was made for exactly when the ID has no white space,
      whatever the label text is. */
  lemma DescriptionDecodes(containerID: string, extra: string)
    requires containerID != ""
    ensures OwnedByUs(MakeDescription(containerID, extra))
    ensures ExtractContainerID(MakeDescription(containerID, extra)) == containerID <==> NoSpace(containerID)
  {
    var d := MakeDescription(containerID, extra);
    var tail := if extra == "" then "" else " " + extra;
    var after := d[|DESCRIPTION_PREFIX|..];
    assert d == DESCRIPTION_PREFIX + (" " + (containerID + tail));
    assert after == " " + (containerID + tail);
    assert after[1..] == containerID + tail;
    TakeWordConcat(SkipSpace(after), "");
    if NoSpace(containerID) {
      var rest := containerID + tail;
      assert rest[0] == containerID[0] && !IsSpace(rest[0]);
      assert after[0] == ' ' && SkipSpace(rest) == rest;
      TakeWordConcat(containerID, tail);
      assert FirstField(after) == containerID;
      assert d[..|DESCRIPTION_PREFIX|] == DESCRIPTION_PREFIX;
    }
  }

  /** Container IDs are nonempty and free of white space. */
  predicate ValidID(cid: string) {
    cid != "" && NoSpace(cid)
  }

  /** How the gateway codes ownership in descriptions. */
  function Descriptions(): Codec {
    Codec(OwnedByUs, ExtractContainerID, MakeDescription, ValidID)
  }

  /** Over all runs, with failures and restarts: a row that has no such description is never deleted or changed
      by the program, and not tracked. */
  lemma RunKeepsOthers(s: Side, events: seq<Event>, u: Uuid)
    requires Safe(Descriptions(), s) && RunOf(Descriptions(), s, events)
    requires u in s.rows && !Tagged(s.rows[u].description) && ForeignDelete(u) !in events
    ensures var t := AfterEvents(Descriptions(), s, events);
            && u in t.rows && t.rows[u] == s.rows[u]
            && forall cid :: u !in t.Of(cid)
  {
    DescriptionsDecode();
    OwnedExact(s.rows[u].description);
    RunSafe(Descriptions(), s, events);
    NotTracked(AfterEvents(Descriptions(), s, events), u);
  }

  lemma NotTracked(t: Side, u: Uuid)
    requires Safe(Descriptions(), t) && u in t.rows && !Tagged(t.rows[u].description)
    ensures forall cid :: u !in t.Of(cid)
  {
    OwnedExact(t.rows[u].description);
    forall cid ensures u !in t.Of(cid) {
      assert u in t.Of(cid) ==> RowOf(Descriptions(), t.born, u, cid);
    }
  }

  lemma DescriptionsDecode()
    ensures Decodes(Descriptions())
  {
    forall cid, extra | ValidID(cid)
      ensures OwnedByUs(MakeDescription(cid, extra)) && ExtractContainerID(MakeDescription(cid, extra)) == cid
    {
      DescriptionDecodes(cid, extra);
    }
  }
}
