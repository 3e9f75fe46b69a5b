/** GenerateCaddyfile (generator/generator.go) as a whole: from Caddyfiles and labels to the text that is pushed. */
module WholeGenerator {
  import opened Seqs
  import opened Trees
  import opened Sorting
  import opened Writing
  import opened Merging
  import opened MergeLaws
  import opened MergeShuffles
  import opened MergeOrders
  import opened Parsing
  import opened Layout
  import opened Processing
  import opened Labels
  import opened Blocks
  import opened BlockProcessing
  import opened LabelReading
  import opened Generating
  import opened Listings

  const EMPTY_CADDYFILE := "# Empty caddyfile"

  /** A Caddyfile or swarm config, or the labels of a container or service. */
  datatype Source = CaddyfileText(content: string) | LabelSet(labels: map<string, string>)

  /** What a source can be read as; labels can come in any order. None: an error, which is only logged. */
  ghost predicate ReadAs(source: Source, template: Template, read: Option<seq<Tree>>) {
    match source
    case CaddyfileText(content) => read == Unmarshal(content)
    case LabelSet(labels) =>
      WellFormedLabels(labels) && exists keys :: Lists(keys, labels) && read == FromLabels(labels, keys, template)
  }

  predicate WellFormedSource(source: Source) {
    source.LabelSet? ==> WellFormedLabels(source.labels)
  }

  /** The trees of the sources that could be read. */
  function Present(inputs: seq<Option<seq<Tree>>>): seq<seq<Tree>> {
    if inputs == [] then []
    else Present(inputs[..|inputs| - 1]) + if inputs[|inputs| - 1].Some? then [inputs[|inputs| - 1].value] else []
  }

  function Generated(trees: seq<Tree>, processCaddyfile: bool, accepts: Adapter): string {
    var text := Marshal(trees);
    var content := if processCaddyfile then Process(accepts, text).output else text;
    if content == "" then EMPTY_CADDYFILE else content
  }

  lemma {:induction false} AccumulateNext(ts: seq<Tree>, sources: seq<seq<Tree>>, next: seq<Tree>)
    ensures Accumulate(ts, sources + [next]) == Merge(Accumulate(ts, sources), next)
    decreases |sources|
  {
    if sources == [] {
      assert sources + [next] == [next] && [next][1..] == [];
      assert Accumulate(Merge(ts, next), []) == Merge(ts, next);
    } else {
      assert (sources + [next])[1..] == sources[1..] + [next];
      AccumulateNext(Merge(ts, sources[0]), sources[1..], next);
    }
  }

  lemma PresentNext(inputs: seq<Option<seq<Tree>>>, read: Option<seq<Tree>>)
    ensures Accumulate([], Present(inputs + [read]))
            == var before := Accumulate([], Present(inputs)); if read.Some? then Merge(before, read.value) else before
  {
    assert (inputs + [read])[..|inputs|] == inputs;
    if read.Some? {
      AccumulateNext([], Present(inputs), read.value);
    } else {
      assert Present(inputs) + [] == Present(inputs);
    }
  }

  method ReadSource(source: Source, template: Template) returns (container: Container?, ghost read: Option<seq<Tree>>)
    requires WellFormedSource(source)
    ensures ReadAs(source, template, read) && (container == null <==> read.None?)
    ensures container != null ==> fresh(container.Repr) && container.Valid() && container.view == read.value
  {
    match source
    case CaddyfileText(content) =>
      container := UnmarshalBlocks(content);
      read := Unmarshal(content);
    case LabelSet(labels) =>
      ghost var keys;
      container, keys := FromLabelsBlocks(labels, template);
      read := FromLabels(labels, keys, template);
  }

  /** The merge accumulation. */
  method AccumulateSources(sources: seq<Source>, template: Template)
    returns (caddyfileBlock: Container, ghost inputs: seq<Option<seq<Tree>>>)
    requires forall i :: 0 <= i < |sources| ==> WellFormedSource(sources[i])
    ensures |inputs| == |sources| && forall i :: 0 <= i < |sources| ==> ReadAs(sources[i], template, inputs[i])
    ensures caddyfileBlock.Valid() && fresh(caddyfileBlock.Repr)
    ensures caddyfileBlock.view == Accumulate([], Present(inputs))
  {
    caddyfileBlock := new Container();
    inputs := [];
    for i := 0 to |sources|
      invariant |inputs| == i && forall k :: 0 <= k < i ==> ReadAs(sources[k], template, inputs[k])
      invariant forall o :: o in caddyfileBlock.Repr ==> fresh(o)
      invariant caddyfileBlock.Valid() && caddyfileBlock.view == Accumulate([], Present(inputs))
    {
      var read := MergeSource(caddyfileBlock, sources[i], template, inputs);
      inputs := inputs + [read];
    }
  }

  /** One source is read and merged, if it can be read. */
  method MergeSource(caddyfileBlock: Container, source: Source, template: Template,
                     ghost inputs: seq<Option<seq<Tree>>>)
    returns (ghost read: Option<seq<Tree>>)
    requires WellFormedSource(source) && caddyfileBlock.Valid()
    requires caddyfileBlock.view == Accumulate([], Present(inputs))
    modifies caddyfileBlock.Repr
    ensures ReadAs(source, template, read)
    ensures caddyfileBlock.Valid() && caddyfileBlock.view == Accumulate([], Present(inputs + [read]))
    ensures forall o :: o in caddyfileBlock.Repr && o !in old(caddyfileBlock.Repr) ==> fresh(o)
  {
    var block;
    block, read := ReadSource(source, template);
    PresentNext(inputs, read);
    if block != null {
      caddyfileBlock.Merge(block);
    }
  }

  method GenerateCaddyfile(sources: seq<Source>, template: Template, processCaddyfile: bool, accepts: Adapter)
    returns (content: string)
    requires forall i :: 0 <= i < |sources| ==> WellFormedSource(sources[i])
    ensures exists inputs :: AllReadAs(sources, template, inputs)
                             && content == Generated(Accumulate([], Present(inputs)), processCaddyfile, accepts)
  {
    var caddyfileBlock, inputs := AccumulateSources(sources, template);
    assert AllReadAs(sources, template, inputs);
    ghost var trees := caddyfileBlock.view;
    var globalCaddyfile := Hoist(caddyfileBlock);
    content := globalCaddyfile.Marshal();
    var others := caddyfileBlock.Marshal();
    content := content + others;
    HoistPrints(trees);
    if processCaddyfile {
      var log;
      content, log := ProcessText(accepts, content);
    }
    if |content| == 0 {
      content := EMPTY_CADDYFILE;
    }
  }

  // ----- What is known of the text -----

  /** The placeholder is a Caddyfile without blocks. */
  lemma PlaceholderEmpty()
    ensures EMPTY_CADDYFILE != "" && Unmarshal(EMPTY_CADDYFILE) == Some([])
  {
    var text := EMPTY_CADDYFILE[1..];
    assert EMPTY_CADDYFILE == ['#'] + text;
    OnlyComment(text);
  }

  /** The text is never empty; with processing on, it was accepted by the adapter unless it is the
      placeholder. */
  lemma GeneratedAccepted(trees: seq<Tree>, processCaddyfile: bool, accepts: Adapter)
    ensures var content := Generated(trees, processCaddyfile, accepts);
            && content != ""
            && (processCaddyfile ==> content == EMPTY_CADDYFILE || accepts(content))
  {
    ProcessSound(accepts, Marshal(trees));
  }

  lemma ReadsAlike(source: Source, template: Template, read: Option<seq<Tree>>, other: Option<seq<Tree>>)
    requires ReadAs(source, template, read) && ReadAs(source, template, other)
    ensures (read.Some? <==> other.Some?) && (read.Some? ==> AlikeForest(read.value, other.value))
  {
    if source.LabelSet? {
      var keys :| Lists(keys, source.labels) && read == FromLabels(source.labels, keys, template);
      var others :| Lists(others, source.labels) && other == FromLabels(source.labels, others, template);
      FromLabelsDeterministic(source.labels, keys, others, template);
      if read.Some? {
        ShuffledForestSorts(read.value, other.value);
      }
    }
  }

  /** The blocks of label sets can be read in any order; and if there are label sets, proxy blocks have
      their shape at every level. */
  ghost predicate Rereadable(sources: seq<Source>, inputs: seq<Option<seq<Tree>>>)
    requires |inputs| == |sources|
  {
    && (forall i :: 0 <= i < |sources| && sources[i].LabelSet? && inputs[i].Some? ==> OrderFree(inputs[i].value))
    && ((exists i :: 0 <= i < |sources| && sources[i].LabelSet?) ==> AllShaped(inputs))
  }

  ghost predicate AllShaped(inputs: seq<Option<seq<Tree>>>) {
    forall i :: 0 <= i < |inputs| && inputs[i].Some? ==> Shaped(inputs[i].value)
  }

  ghost predicate AllReadAs(sources: seq<Source>, template: Template, inputs: seq<Option<seq<Tree>>>) {
    |inputs| == |sources| && forall i :: 0 <= i < |sources| ==> ReadAs(sources[i], template, inputs[i])
  }

  lemma {:induction false} PresentRereads(sources: seq<Source>, template: Template,
                                          inputs: seq<Option<seq<Tree>>>, others: seq<Option<seq<Tree>>>)
    requires AllReadAs(sources, template, inputs) && AllReadAs(sources, template, others) && AllShaped(inputs)
    requires forall i :: 0 <= i < |sources| && sources[i].LabelSet? && inputs[i].Some? ==> OrderFree(inputs[i].value)
    ensures Rereads(Present(inputs), Present(others))
    decreases |sources|
  {
    if sources != [] {
      var n := |sources| - 1;
      PresentRereads(sources[..n], template, inputs[..n], others[..n]);
      ReadsAlike(sources[n], template, inputs[n], others[n]);
    }
  }

  /** The generated text does not depend on the order in which Go goes through any of the label maps. */
  lemma GeneratedDeterministic(sources: seq<Source>, template: Template, inputs: seq<Option<seq<Tree>>>,
                               others: seq<Option<seq<Tree>>>, processCaddyfile: bool, accepts: Adapter)
    requires AllReadAs(sources, template, inputs) && AllReadAs(sources, template, others)
    requires Rereadable(sources, inputs)
    ensures Generated(Accumulate([], Present(inputs)), processCaddyfile, accepts)
            == Generated(Accumulate([], Present(others)), processCaddyfile, accepts)
  {
    if exists i :: 0 <= i < |sources| && sources[i].LabelSet? {
      PresentRereads(sources, template, inputs, others);
      AccumulateAlike(Present(inputs), Present(others));
    } else {
      assert forall i :: 0 <= i < |sources| ==> sources[i].CaddyfileText? && inputs[i] == others[i];
      assert inputs == others;
    }
  }
}
