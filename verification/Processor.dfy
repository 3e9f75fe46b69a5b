/** Process (caddyfile/processor.go): the greedy filter of top-level blocks against an adapter.
    The adapter is any deterministic predicate on texts. */
module Processing {
  import opened Runes
  import opened Seqs
  import opened Lexing
  import opened Trees
  import opened Sorting
  import opened Writing
  import opened Parsing
  import opened RoundTrips
  import opened NormalForms

  datatype LogEntry = InvalidCaddyfile(content: string) | RemovedBlock(content: string)

  datatype Outcome = Outcome(output: string, log: seq<LogEntry>)

  type Adapter = string -> bool

  /** Block.Marshal */
  function MarshalBlock(t: Tree): string {
    WriteTree(SortTree(t), 0)
  }

  /** The loop over the sorted blocks: what newContainer and the log hold after `blocks`. */
  function Filter(accepts: Adapter, blocks: seq<Tree>): (seq<Tree>, seq<LogEntry>)
    decreases |blocks|
  {
    if blocks == [] then ([], [])
    else
      var n := |blocks| - 1;
      var (kept, log) := Filter(accepts, blocks[..n]);
      if accepts(Marshal(kept + [blocks[n]])) then (kept + [blocks[n]], log)
      else (kept, log + [RemovedBlock(MarshalBlock(blocks[n]))])
  }

  function Process(accepts: Adapter, text: string): Outcome {
    if text == "" then Outcome(text, [])
    else
      var c := Unmarshal(text);
      if c.None? then Outcome("", [InvalidCaddyfile(text)])
      else
        var (kept, log) := Filter(accepts, SortForest(c.value));
        Outcome(Marshal(kept), log)
  }

  // ----- What is kept and what is dropped -----

  /** The blocks whose flag is set. */
  function Select(blocks: seq<Tree>, flags: seq<bool>): seq<Tree>
    requires |blocks| == |flags|
  {
    if blocks == [] then []
    else
      Select(blocks[..|blocks| - 1], flags[..|flags| - 1])
      + (if flags[|flags| - 1] then [blocks[|blocks| - 1]] else [])
  }

  /** The log: the blocks whose flag is not set. */
  function Removals(blocks: seq<Tree>, flags: seq<bool>): seq<LogEntry>
    requires |blocks| == |flags|
  {
    if blocks == [] then []
    else
      Removals(blocks[..|blocks| - 1], flags[..|flags| - 1])
      + (if flags[|flags| - 1] then [] else [RemovedBlock(MarshalBlock(blocks[|blocks| - 1]))])
  }

  /** A block is kept exactly when the adapter accepts it together with the blocks kept before it. */
  ghost predicate Greedy(accepts: Adapter, blocks: seq<Tree>, flags: seq<bool>)
    requires |blocks| == |flags|
  {
    forall i :: 0 <= i < |blocks| ==>
      (flags[i] <==> accepts(Marshal(Select(blocks[..i], flags[..i]) + [blocks[i]])))
  }

  lemma GreedyExtend(accepts: Adapter, blocks: seq<Tree>, flags: seq<bool>, t: Tree)
    requires |blocks| == |flags| && Greedy(accepts, blocks, flags)
    ensures var keep := accepts(Marshal(Select(blocks, flags) + [t]));
            && Greedy(accepts, blocks + [t], flags + [keep])
            && Select(blocks + [t], flags + [keep]) == Select(blocks, flags) + (if keep then [t] else [])
            && Removals(blocks + [t], flags + [keep])
               == Removals(blocks, flags) + (if keep then [] else [RemovedBlock(MarshalBlock(t))])
  {
    var keep := accepts(Marshal(Select(blocks, flags) + [t]));
    var bs, fs, n := blocks + [t], flags + [keep], |blocks|;
    assert bs[..n] == blocks && fs[..n] == flags;
    forall i | 0 <= i < |bs|
      ensures fs[i] <==> accepts(Marshal(Select(bs[..i], fs[..i]) + [bs[i]]))
    {
      if i < n {
        assert bs[..i] == blocks[..i] && fs[..i] == flags[..i];
      }
    }
  }

  lemma {:induction false} FilterGreedy(accepts: Adapter, blocks: seq<Tree>) returns (flags: seq<bool>)
    ensures |flags| == |blocks| && Greedy(accepts, blocks, flags)
    ensures Filter(accepts, blocks) == (Select(blocks, flags), Removals(blocks, flags))
    decreases |blocks|
  {
    if blocks == [] {
      flags := [];
    } else {
      var n := |blocks| - 1;
      flags := FilterGreedy(accepts, blocks[..n]);
      var kept, log := Select(blocks[..n], flags), Removals(blocks[..n], flags);
      GreedyExtend(accepts, blocks[..n], flags, blocks[n]);
      flags := flags + [accepts(Marshal(kept + [blocks[n]]))];
      assert blocks == blocks[..n] + [blocks[n]];
      assert kept + [] == kept && log + [] == log;
    }
  }

  /** Only sorted blocks are kept, so keeping and removing never disturbs their order. */
  lemma {:induction false} SelectSorted(blocks: seq<Tree>, flags: seq<bool>)
    requires |blocks| == |flags| && SortedForest(blocks)
    ensures SortedForest(Select(blocks, flags))
    ensures forall t :: t in Select(blocks, flags) ==> t in blocks
  {
    if blocks != [] {
      var n := |blocks| - 1;
      SortedPrefix(blocks, n);
      SelectSorted(blocks[..n], flags[..n]);
      var r := Select(blocks[..n], flags[..n]);
      forall t | t in r ensures Leq(t, blocks[n]) && t in blocks {
        assert t in blocks[..n];
        var i :| 0 <= i < n && blocks[i] == t;
        assert Leq(blocks[i], blocks[n]);
      }
      SortedExtend(r, blocks[n]);
      assert r + [] == r;
    }
  }

  lemma SortedPrefix(ts: seq<Tree>, n: nat)
    requires SortedForest(ts) && n <= |ts|
    ensures SortedForest(ts[..n])
  {
    forall i, j | 0 <= i <= j < n ensures Leq(ts[..n][i], ts[..n][j]) {
      assert Leq(ts[i], ts[j]);
    }
  }

  lemma SortedExtend(ts: seq<Tree>, t: Tree)
    requires SortedForest(ts) && SortedTree(t) && forall u :: u in ts ==> Leq(u, t)
    ensures SortedForest(ts + [t])
  {
    var r := ts + [t];
    LeqTotal(t, t);
    forall i, j | 0 <= i <= j < |r| ensures Leq(r[i], r[j]) {
      if j < |ts| {
        assert Leq(ts[i], ts[j]);
      } else if i < |ts| {
        assert ts[i] in ts;
      }
    }
  }

  /** Every nonempty prefix of the kept blocks was accepted when its last block was tried. */
  ghost predicate PrefixesAccepted(accepts: Adapter, ts: seq<Tree>) {
    forall n :: 1 <= n <= |ts| ==> accepts(Marshal(ts[..n]))
  }

  lemma {:induction false} FilterPrefixesAccepted(accepts: Adapter, blocks: seq<Tree>)
    ensures PrefixesAccepted(accepts, Filter(accepts, blocks).0)
    decreases |blocks|
  {
    if blocks != [] {
      var n := |blocks| - 1;
      FilterPrefixesAccepted(accepts, blocks[..n]);
      var kept := Filter(accepts, blocks[..n]).0;
      var more := kept + [blocks[n]];
      if accepts(Marshal(more)) {
        forall m | 1 <= m <= |more| ensures accepts(Marshal(more[..m])) {
          assert more[..m] == if m < |more| then kept[..m] else more;
        }
      }
    }
  }

  lemma {:induction false} FilterKeepsAccepted(accepts: Adapter, blocks: seq<Tree>)
    requires PrefixesAccepted(accepts, blocks)
    ensures Filter(accepts, blocks) == (blocks, [])
    decreases |blocks|
  {
    if blocks != [] {
      var n := |blocks| - 1;
      forall m | 1 <= m <= n ensures accepts(Marshal(blocks[..n][..m])) {
        assert blocks[..n][..m] == blocks[..m];
      }
      FilterKeepsAccepted(accepts, blocks[..n]);
      assert blocks[..n] + [blocks[n]] == blocks == blocks[..n + 1];
    }
  }

  /** What Process returns is empty or was accepted; its blocks are the sorted input blocks that the
      adapter accepted together with exactly the blocks kept before them; the log lists the others. */
  lemma ProcessSound(accepts: Adapter, text: string)
    ensures var r := Process(accepts, text);
            r.output == "" || accepts(r.output)
    ensures text != "" && Unmarshal(text).None? ==>
              Process(accepts, text) == Outcome("", [InvalidCaddyfile(text)])
    ensures text != "" && Unmarshal(text).Some? ==>
              var blocks := SortForest(Unmarshal(text).value);
              exists flags: seq<bool> :: |flags| == |blocks| && Greedy(accepts, blocks, flags)
                && SortForest(Select(blocks, flags)) == Select(blocks, flags)
                && Process(accepts, text) == Outcome(WriteForest(Select(blocks, flags), 0), Removals(blocks, flags))
  {
    if text != "" && Unmarshal(text).Some? {
      var blocks := SortForest(Unmarshal(text).value);
      var flags := FilterGreedy(accepts, blocks);
      var kept := Select(blocks, flags);
      SortForestCorrect(Unmarshal(text).value);
      SelectSorted(blocks, flags);
      SortForestIdentity(kept);
      FilterPrefixesAccepted(accepts, blocks);
      assert kept[..|kept|] == kept;
      assert |flags| == |blocks| && Greedy(accepts, blocks, flags);
    }
  }

  // ----- Idempotence -----

  /** No top-level block begins with the mark that the lexer discards. */
  predicate MarkFree(ts: seq<Tree>) {
    forall i :: 0 <= i < |ts| ==> ts[i].keys != [] ==> !HasPrefix(ts[i].keys[0], [BYTE_ORDER_MARK])
  }

  lemma MarkFreeText(ts: seq<Tree>)
    requires WellFormed(ts) && MarkFree(ts)
    ensures !HasPrefix(WriteForest(ts, 0), [BYTE_ORDER_MARK])
  {
    if ts != [] {
      WriteTreeBody(ts[0], 0);
      var first, sep, rest := BodyStart(ts[0], 0);
      QuoteStart(first);
      FirstChar(Quote(first), [sep], rest, WriteForest(ts[1..], 0));
      assert Repeat('\t', 0) + Body(ts[0], 0) == Body(ts[0], 0);
    }
  }

  lemma FirstChar(a: string, b: string, c: string, d: string)
    requires a != ""
    ensures (a + b + c + d)[0] == a[0]
  {
  }

  lemma QuoteStart(key: string)
    requires key != ""
    ensures Quote(key) != "" && Quote(key)[0] in {'`', '"', key[0]}
  {
  }

  /** Reindexed sorted blocks marshal, prefix by prefix, to the same texts. */
  lemma MarshalReindexPrefix(ts: seq<Tree>, n: nat)
    requires SortedForest(ts) && n <= |ts|
    ensures |Reindex(0, ts)| == |ts| && Marshal(Reindex(0, ts)[..n]) == Marshal(ts[..n])
  {
    ReindexAt(0, ts);
    ReindexAt(0, ts[..n]);
    assert Reindex(0, ts)[..n] == Reindex(0, ts[..n]);
    SortedPrefix(ts, n);
    ReindexSorted(0, ts[..n]);
    SortForestIdentity(ts[..n]);
    SortForestIdentity(Reindex(0, ts[..n]));
    WriteReindex(0, ts[..n], 0);
  }

  /** Filtering the reindexed kept blocks keeps all of them. */
  lemma FilterAgain(accepts: Adapter, kept: seq<Tree>)
    requires SortedForest(kept) && PrefixesAccepted(accepts, kept)
    ensures Filter(accepts, Reindex(0, kept)) == (Reindex(0, kept), [])
  {
    ReindexAt(0, kept);
    forall n | 1 <= n <= |kept| ensures accepts(Marshal(Reindex(0, kept)[..n])) {
      MarshalReindexPrefix(kept, n);
    }
    FilterKeepsAccepted(accepts, Reindex(0, kept));
  }

  /** Kept blocks are well-formed top-level blocks of the input. */
  lemma KeptReadable(ts: seq<Tree>, kept: seq<Tree>)
    requires WellFormed(ts) && MarkFree(ts) && forall t :: t in kept ==> t in SortForest(ts)
    ensures WellFormed(kept) && MarkFree(kept)
  {
    SortForestCorrect(ts);
    SortEachAt(ts);
    WellFormedAll(ts);
    forall i | 0 <= i < |kept|
      ensures WellFormedTree(kept[i])
      ensures kept[i].keys != [] ==> !HasPrefix(kept[i].keys[0], [BYTE_ORDER_MARK])
    {
      assert kept[i] in kept;
      assert kept[i] in SortForest(ts);
      assert kept[i] in multiset(SortForest(ts));
      var j := FindInContents(SortEach(ts), kept[i]);
      SortTreeWellFormed(ts[j]);
      assert kept[i].keys == ts[j].keys;
    }
    WellFormedAll(kept);
  }

  /** Running Process on its own output returns the same text and an empty log. */
  lemma ProcessIdempotent(accepts: Adapter, text: string)
    requires text != "" && Unmarshal(text).Some? ==>
               WellFormed(Unmarshal(text).value) && MarkFree(Unmarshal(text).value)
    ensures Process(accepts, Process(accepts, text).output) == Outcome(Process(accepts, text).output, [])
  {
    if text != "" && Unmarshal(text).Some? {
      var ts := Unmarshal(text).value;
      var flags := FilterGreedy(accepts, SortForest(ts));
      var kept := Filter(accepts, SortForest(ts)).0;
      SortForestCorrect(ts);
      SelectSorted(SortForest(ts), flags);
      if kept != [] {
        KeptReadable(ts, kept);
        MarkFreeText(kept);
        SortForestIdentity(kept);
        UnmarshalMarshal(kept);
        FilterPrefixesAccepted(accepts, SortForest(ts));
        FilterAgain(accepts, kept);
        WriteReindex(0, kept, 0);
        ReindexAt(0, kept);
        assert Marshal(kept) != "" by { WriteNonempty(kept[0], 0); }
      }
    }
  }

  // ----- Why keys must be printable -----

  lemma LexEmptyKey()
    ensures Tokens(Start(), ['"', '"']) == [Token(1, "")]
    ensures Tokens(Start(), "\n") == []
  {
    var quoted := Start().(token := Token(1, ""), quoted := true);
    assert ['"', '"'][1..] == ['"'];
    FeedSilent(Start(), ['"', '"']);
    assert Step(Start(), '"').0 == quoted;
    FeedOne(quoted, '"');
    FeedOne(Start(), '\n');
    assert ['\n'] == "\n";
  }

  lemma ParseEmptyToken()
    ensures ParseToken(Begin(), Token(1, "")) == Some(Parser([Node(0, [""], [])], [0], false, 1))
  {
    var p := OpenBlock(Relocate(Begin(), 1));
    assert p == Parser([Node(0, [], [])], [0], false, 1);
    assert Last(p.forest) == Node(0, [], []) && [] + [""] == [""];
    assert AddKeyAtEnd(p.forest, "") == ReplaceLast(p.forest, Node(0, [""], [])) == [Node(0, [""], [])];
  }

  lemma ParseEmptyKey()
    ensures Unmarshal(['"', '"']) == Some([Node(0, [""], [])])
    ensures Unmarshal("\n") == Some([])
  {
    LexEmptyKey();
    ParseEmptyToken();
    ParseOne(Some(Begin()), Token(1, ""));
    assert ParseTokens(Some(Begin()), []) == Some(Begin());
  }

  lemma PrintEmptyKey()
    ensures Marshal([Node(0, [""], [])]) == "\n" && Marshal([]) == ""
    ensures SortForest([Node(0, [""], [])]) == [Node(0, [""], [])]
  {
    var t := Node(0, [""], []);
    SortSingle(t);
    assert [t][1..] == [] && WriteForest([], 0) == "";
    assert Repeat('\t', 0) == "" && WriteKeys(t.keys) == "";
    assert WriteTree(t, 0) == "" + "" + "" + "\n";
    assert WriteForest([t], 0) == WriteTree(t, 0) + WriteForest([], 0);
  }

  lemma SortSingle(t: Tree)
    requires t.kids == []
    ensures SortForest([t]) == [t]
  {
    LeqTotal(t, t);
    SortForestIdentity([t]);
  }

  /** A block whose only key is empty prints as a blank line, and is gone the next time. */
  lemma EmptyKeyNotIdempotent(accepts: Adapter)
    requires accepts("\n")
    ensures Process(accepts, ['"', '"']).output == "\n"
    ensures Process(accepts, "\n").output == ""
  {
    ParseEmptyKey();
    PrintEmptyKey();
    var t := Node(0, [""], []);
    assert [t][..0] == [] && [] + [t] == [t];
    assert Filter(accepts, []) == ([], []);
    assert Filter(accepts, [t]) == ([t], []);
  }
}
