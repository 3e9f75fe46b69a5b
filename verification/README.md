# Verified model of homelab-manager

This project models, in Dafny, three parts of homelab-manager, a Caddy plugin that configures Caddy servers and an
OPNsense router from Docker labels, and proves what they are for.

* **The Caddyfile engine.** Labels become trees of blocks, trees are merged, sorted, printed, lexed and parsed
  again, and filtered through the Caddy adapter. The values and their laws are in `Tree.dfy`, `Sort.dfy`,
  `Lexer.dfy`, `Parser.dfy`, `Writer.dfy`, `KeyForms.dfy`, `RoundTrip.dfy`, `NormalForm.dfy`, `Processor.dfy`,
  `Merge*.dfy`, `Label*.dfy`, `GeneratorExact.dfy`. The code that changes blocks in place is modelled in place: classes `Block` and `Container`
  (`Blocks.dfy`) with a ghost `view`, the tree a container stands for, and `Repr`, the objects it is built from;
  `BlockParser.dfy`, `LabelBlocks.dfy`, `LabelReader.dfy`, `BlockProcessor.dfy`, `Hoist.dfy` and `Generator.dfy` run
  the parser, the label builder, the filter and the generator on them, through pointers into the tree
  (`Spines.dfy`). Every such method is tied to the function on trees whose laws are proved.
* **The gateway.** `Ownership.dfy` is a state machine of the router's table, the tracked UUIDs, failures and
  restarts; `Gateway.dfy` the coding of ownership in descriptions; `NatRules.dfy`, `PortForwards.dfy`, `Steady.dfy`,
  `PortLabels.dfy` and `GatewayRows.dfy` what labels ask for; `GatewayState.dfy`, `Running.dfy`, `Reconcile.dfy` and
  `GatewayPass.dfy` a pass of `reconcileGateway`, call by call, over a router whose calls fail as they like;
  `Startup.dfy` startup and the first pass together. Laws that hold for any coding and any reading of label keys
  are proved for all of them; `PortLabels.dfy` and `Startup.dfy` put in the program's own.
* **The config push.** `Push.dfy` takes the statements of `update` and `updateServer` as interleaved steps of any
  number of updates and goroutines; `PushResults.dfy` proves what holds in every run, `PushServed.dfy` exactly which
  servers are left behind, `PushOverlap.dfy` what overlapping costs.

What the specifications of these parts mean is spelled out in the program's own words, with every constant written
out, in modules of their own: `LexerLaws.dfy` (comments, line ends, quotes), `ParserLaws.dfy` (blocks and lines),
`SiblingOrder.dfy`, `MergePairs.dfy`, `Layout.dfy` (the written text), `LabelPaths.dfy`, `GatewayAsks.dfy` (host
overrides) and `ForwardAsks.dfy` (port forwards).

`Runes.dfy`, `Digits.dfy`, `Seqs.dfy` and `Listings.dfy` hold what the other modules share. Where Go goes through a
map, the model takes the keys in any order. Errors are `None` or `null`.

Terms: a *printable* key is one the writer's quoting forms carry through the lexer; a *well-formed* forest has
printable keys only and no block without both keys and children. A *merge key* is first key and matcher for
`reverse_proxy` and `php_fastcgi`, and all keys for other blocks; the *proxy shape* is that only the first argument
of such a block looks like a matcher. Trees are *alike* if they are the same up to the order of siblings at every
level, and children *coherent* if at every level siblings that share a merge key are alike. Two blocks that share a
merge key *blend* if they have the same Order, keys that come out the same in either order, and with each merge key
equally many children or at most one; where at most one, those blend, and where more, they are alike.

What the proofs found where the code does less than one could expect:

* Merging `reverse_proxy * /x` into a bare `reverse_proxy` changes its matcher; `MatcherKept` says exactly when the
  matcher stays.
* Siblings with the same merge key make `Merge` depend on grouping (`NotAssociativeWithDuplicates`), and labels can
  make the generated Caddyfile depend on Go's map order: two label groups for one site, one of which has the same
  directive twice, as `caddy_0` and `caddy_1` with the same value, `caddy_0.x_0` and `caddy_0.x_1`. The directive is
  printed twice or once (`OrderShows`, `SameNamesExample`). The readings of a label set are exactly the trees alike
  to any one of them (`ReadingsExact`). They merge to alike trees, whatever other sources come before and after, if
  and only if in one of them blocks that share a merge key blend and their children are coherent (`AnywhereExact`,
  for any blocks of the proxy shape); if Orders depend on the merge key only, as without order numbers, the generated
  texts are the same under exactly this condition (`LabelSetExact`), and for a single label set under the first half
  of it (`LabelSetAloneExact`), which the labels of `OrderShows` do not meet.
* A block whose only key is empty prints as a blank line, and `Process` is not idempotent on it
  (`EmptyKeyNotIdempotent`). `FeedKeyExact` says which keys the quoting forms carry.
* Port forward labels that write one index as `1` and as `01` set the same field twice; then entries depend on Go's
  map order, and a second pass can add rules the first did not. `KeysClash` and `ClashingRules` give such labels,
  `EntriesExact`, `RulesExact` and `ConvergedQuiet` the exact conditions.
* A Caddyfile that cannot be adapted is remembered all the same: the next update with it does not try again and pushes
  what there was before (`FailedAdaptation`, `NotTriedAgain`).
* Updates that overlap can leave an older configuration in place until the Caddyfile changes again (`LostUpdate`,
  `StaysStale`), and can leave a server behind although no call failed (`LeftBehind`); an update that runs alone
  repairs the latter (`AloneServes`). A goroutine that finds the updating flag clear never leaves its server behind
  (`FlagClearServes`); `ServedExactly` is the exact condition.

## Model

| member | source | states |
|---|---|---|
| Lexing.Lexer.Load | caddyfile/lexer.go:45-62 | fails exactly on empty input; drops one leading byte order mark; starts at line 1 |
| Lexing.Lexer.Next | caddyfile/lexer.go:74-170 | one call leaves the fields, the unread input and the token that the automaton of single characters computes |
| Lexing.FeedCountsLines | caddyfile/lexer.go:83-168 | from any state, line + skippedLines grows by exactly the newlines read, through comments, quotes and escaped newlines |
| Lexing.AdvanceCountsLines | caddyfile/lexer.go:74-170 | the same for one call of next and the text it consumes |
| Lexing.FeedLinesAscend | caddyfile/lexer.go:74-170 | lines of successive tokens never decrease |
| Lexing.AllTokensLines | caddyfile/marshal.go:163-175 | for a whole input token lines ascend between 1 and 1 + its newlines |
| Lexing.ReadAllTokens | caddyfile/marshal.go:163-175 | the loop over next returns all tokens of the input, or the error of empty input |
| LexerLaws.CommentRead | caddyfile/lexer.go:135-148 | between words, `#`, a text and a newline emit nothing and leave what the newline alone leaves; if there is a backslash in the text, what an escaped newline leaves |
| LexerLaws.CommentEnds | caddyfile/lexer.go:145-148 | a comment at the end of the input is no token |
| LexerLaws.CommentDeleted | caddyfile/lexer.go:135-148 | deleting a comment, anywhere between words, changes no token, or if there is a backslash in it no token's text |
| LexerLaws.CommentDeletedInput | caddyfile/marshal.go:163-175 | the same for the tokens of a whole input |
| LexerLaws.CommentUnmarshalled | caddyfile/marshal.go:154-161 | and, without a backslash in the comment, for the blocks that are read |
| LexerLaws.SimpleRead | caddyfile/lexer.go:125-168 | a word is a token on the line it stands on, and a space or a newline ends it |
| LexerLaws.LineContinues | caddyfile/lexer.go:130-133 | an escaped newline between words emits nothing and leaves the line as it is |
| LexerLaws.ContinuedLine | caddyfile/lexer.go:128-138 | a word after an escaped newline is on the line of the word before, and the line after that has its number in the text |
| LexerLaws.CarriageReturns | caddyfile/lexer.go:126-128 | without quotes, an input has the tokens it has without its carriage returns |
| LexerLaws.ByteOrderMark | caddyfile/lexer.go:49-59 | one leading U+FEFF is dropped |
| LexerLaws.QuotesRead | caddyfile/lexer.go:97-123 | between double quotes a text is one token, with `\"` for a double quote, white space and newlines included, and line numbers go on |
| LexerLaws.BackticksRead | caddyfile/lexer.go:97-123 | between backticks a text is one token as it stands |
| Trees.CompareAntisymmetric | caddyfile/marshal.go:83-144 | swapping arguments negates compareBlocks, and it is 0 exactly on recursively equal trees |
| Trees.CompareTransitive | caddyfile/marshal.go:83-144 | compareBlocks is transitive, so with the above a total order |
| Blocks.CompareBlocks | caddyfile/marshal.go:83-144 | the in-place comparison with its loops computes that order |
| SiblingOrder.CompareExact | caddyfile/marshal.go:83-144 | it is negative exactly if the first block comes first: global options, snippets, named matchers, the rest; then the smaller Order; then, where the keys first differ, the text that ends or has the smaller character, or fewer keys; then the same for children |
| SiblingOrder.SortedInOrder | caddyfile/marshal.go:71-81 | after sorting no sibling comes before an earlier one in that order |
| Sorting.SortForestCorrect | caddyfile/marshal.go:71-81 | sorting orders siblings at every level and keeps the blocks |
| Sorting.SortForestIdentity | caddyfile/marshal.go:71-81 | sorting a sorted tree changes nothing |
| Sorting.SortedUnique | caddyfile/marshal.go:71-81 | there is only one sorted arrangement of given trees |
| Sorting.ShuffledForestSorts | caddyfile/marshal.go:71-81 | two trees sort to the same tree if and only if one is a recursive sibling permutation of the other |
| Blocks.Container.SortSiblings | caddyfile/marshal.go:77-80 | stable insertion in place sorts the children and permutes the pointers |
| Blocks.Container.Sort | caddyfile/marshal.go:71-81 | sorts the whole tree in place, each block keeping its own header and sorted children |
| Blocks.Container.Write | caddyfile/marshal.go:29-34 | appends the text of the tree to the buffer |
| Blocks.Block.Write | caddyfile/marshal.go:36-69 | appends indentation, quoted keys and braced children |
| Blocks.WriteKeyTo | caddyfile/marshal.go:44-56 | appends a key in its quoting form |
| Layout.KeyForms | caddyfile/marshal.go:44-56 | a key is written as it stands, between double quotes if it has a space, between backticks if it has a newline or a double quote |
| Layout.BlockText | caddyfile/marshal.go:36-69 | a block is a line with its keys; with children it ends in a brace, and their lines, with a tab more each, and a closing brace follow |
| Blocks.Container.Marshal | caddyfile/marshal.go:13-18 | sorts in place and returns the text of the sorted tree |
| Blocks.Block.Marshal | caddyfile/marshal.go:21-26 | sorts the block's children in place and returns its text |
| Writing.FeedKey | caddyfile/marshal.go:44-56 | the lexer reads a written lexable key and separator as one token with that text, and counts its newlines |
| KeyForms.FeedKeyExact | caddyfile/lexer.go:95-168 | a written key comes back as that one token, with nothing pending, if and only if it is lexable |
| Parsing.ParseTokenOnSpine | caddyfile/marshal.go:188-211 | every stacked container lies on the rightmost spine that ends at the current block, in every reachable state |
| Parsing.ParserConservation | caddyfile/marshal.go:177-215 | parsing succeeds if and only if no prefix closes more braces than it opens; then the preorder of keys is the sequence of other tokens |
| ParserLaws.BlockPerLine | caddyfile/marshal.go:177-215 | in any layout, each line with something but closing braces makes one block, with the words of the line for keys, and there are no others; a token with newlines in it continues its line |
| ParserLaws.UnmarshalIndexed | caddyfile/marshal.go:199-205 | in any layout, each Order is the index among the siblings |
| BlockParsing.StartBlock | caddyfile/marshal.go:199-205 | a fresh block with its sibling index as Order goes to the end of the container on top of the stack, and the whole tree stays consistent |
| BlockParsing.TurnOn | caddyfile/marshal.go:188-211 | one turn of the loop through pointers refines the step on trees and depths |
| BlockParsing.ParseBlocks | caddyfile/marshal.go:177-215 | the loop builds, in fresh objects, exactly the tree of the specification, or reports its error |
| BlockProcessing.UnmarshalBlocks | caddyfile/marshal.go:154-161 | lexing and parsing on the heap give the specified tree or its error |
| RoundTrips.RoundTrip | caddyfile/marshal.go:29-215 | lexing and parsing what was written of a nonempty well-formed tree gives the same keys and nesting, each Order the sibling index |
| NormalForms.UnmarshalMarshal | caddyfile/marshal.go:13-18 | reading the marshalled text gives the sorted tree with Orders reindexed |
| NormalForms.ReindexSorted | caddyfile/marshal.go:83-111 | reindexing a sorted tree leaves it sorted |
| NormalForms.MarshalNormalForm | caddyfile/marshal.go:13-18 | marshalling what was read back gives the same text |
| Merging.MatchesKeys | caddyfile/merge.go:11-14 | blocks are merged exactly when their merge keys are equal |
| Merging.MatcherKept | caddyfile/merge.go:23-37 | a merged proxy block keeps its matcher if and only if it had an argument or the first key taken over is no other matcher |
| Merging.MatcherCanChange | caddyfile/merge.go:23-37 | a concrete merge that changes the matcher |
| Merging.MergeBlockShape | caddyfile/merge.go:23-30 | under the proxy shape merging keeps merge key and shape, and appends the upstream keys |
| MergePairs.ProxiesMerge | caddyfile/merge.go:11-37 | two `reverse_proxy` or two `php_fastcgi` blocks for the same matcher, written or not, become one with the upstreams of both in order |
| MergePairs.ProxiesStayApart | caddyfile/merge.go:11-18 | with different matchers, or names, they stay two |
| MergePairs.OthersMerge | caddyfile/merge.go:11-18 | any other two blocks become one if and only if all their keys are equal |
| MergePairs.ProxyExamples | caddyfile/merge.go:23-41 | without matchers, with one that begins with `/` or `@`, and with two |
| MergePaths.MergeMeaning | caddyfile/merge.go:6-21 | the merge-key paths of the result are the union, and at every path the upstream keys are the sum as multisets |
| MergeLaws.MergeDistinctKeys | caddyfile/merge.go:6-21 | under the proxy shape distinct top-level merge keys stay distinct whatever is merged in |
| MergeLaws.MergeDistinct | caddyfile/merge.go:6-21 | under the proxy shape distinct at every level in both inputs gives distinct at every level |
| MergeLaws.MergeClosed | caddyfile/merge.go:6-21 | on distinct siblings of the proxy shape the nested loops combine block by block in place and append the rest in order |
| MergeLaws.AccumulateTwo | generator/generator.go:71-181 | of two sources the blocks of the first keep their places and take up those of the second, whose others follow |
| MergeLaws.MergeAssociative | caddyfile/merge.go:6-30 | under the proxy shape, for any A, and B and C with distinct siblings at every level: merging B then C into A is merging (B merged with C) into A, with Orders, key order and sibling order |
| MergeLaws.NotAssociativeWithDuplicates | caddyfile/merge.go:6-30 | siblings sharing a merge key for which the grouping matters |
| MergeLaws.AccumulatedGlobal | generator/generator.go:71-181 | the accumulated Caddyfile never has two keyless global blocks |
| MergeShuffles.ClassMerge | caddyfile/merge.go:6-21 | under the proxy shape merging happens key by key: the blocks of the result with one merge key are those of both inputs with it, merged |
| MergeShuffles.MergeKin | caddyfile/merge.go:6-30 | under the proxy shape, what merging makes of its inputs depends, at every level, only on the order of siblings that share a merge key |
| MergeOrders.PermuteKin | caddyfile/merge.go:6-21 | under the proxy shape, blocks with coherent children that blend pairwise, or have different merge keys, can be merged in any order |
| MergeOrders.MergeShuffled | caddyfile/merge.go:6-30 | under the proxy shape, shuffling a coherent first input, and a second one in which blocks that share a merge key blend and have coherent children, only shuffles the result |
| MergeOrders.DistinctOrderFree | caddyfile/merge.go:6-21 | siblings with distinct merge keys at every level meet that condition |
| MergeExact.MergeGrows | caddyfile/merge.go:6-21 | merging never makes a container smaller, and one that does not grow is not changed at all |
| MergeExact.MustAgree | caddyfile/merge.go:6-30 | under the proxy shape, whatever the children: if the order of blocks does not matter, those that share a merge key have the same Order, keys that come out the same, and equally many children with each merge key or at most one |
| MergeExact.BlocksExact | caddyfile/merge.go:6-30 | under the proxy shape, where blocks that share a merge key have coherent children: blocks merge to the same container in any order, up to the order of siblings, if and only if those that share a merge key blend |
| MergeExact.ChildlessExact | caddyfile/merge.go:6-30 | under the proxy shape, without children: if and only if of any two with one merge key it does not matter which comes first |
| MergeExact.PlainExact | caddyfile/merge.go:6-21 | and if they are no proxies: if and only if those with the same keys have the same Order |
| MergeAnywhere.AnywhereExact | generator/generator.go:71-181 | under the proxy shape, with any children: whatever sources are merged before and after it, every order of a source accumulates to the same tree, up to the order of siblings, if and only if its blocks that share a merge key blend and have coherent children |
| MergeTexts.TextExact | caddyfile/marshal.go:13-69 | well-formed trees whose Orders depend on the merge key only, and in the same way, have the same text if and only if they are alike |
| MergeTexts.AnywhereTextExact | generator/generator.go:71-181 | the condition of AnywhereExact is exact for the text, too, if the blocks are well-formed and their Orders depend on the merge key only |
| Blocks.Container.Merge | caddyfile/merge.go:6-21 | merging in place, moving blocks between containers, computes the merge of the trees |
| Blocks.Container.MergeReverseProxyLike | caddyfile/merge.go:23-30 | takes over all keys but the name and a matcher right after it, and merges the children |
| Blocks.Container.FindMatch | caddyfile/merge.go:9-18 | the search by first key finds the first block with an equal merge key |
| Blocks.BlocksAreEqual | caddyfile/merge.go:43-53 | true exactly on equal key lists |
| Blocks.Block.AddKeys | caddyfile/caddyfile.go:53-55 | appends the keys |
| Blocks.Container.AddBlock | caddyfile/caddyfile.go:58-60 | appends the block, which becomes part of the container |
| Blocks.Container.GetAllByFirstKey | caddyfile/caddyfile.go:71-79 | all children with that first key, and only those, in order |
| Blocks.Container.Remove | caddyfile/caddyfile.go:82-90 | removes that very block and nothing else, even among equal ones |
| Processing.ProcessSound | caddyfile/processor.go:11-40 | the output is empty or accepted; kept blocks are those of the sorted input that were accepted with exactly the blocks kept before; the log lists the others |
| Processing.ProcessIdempotent | caddyfile/processor.go:11-40 | for well-formed input, processing the output again returns the same text and no log |
| Processing.EmptyKeyNotIdempotent | caddyfile/processor.go:11-40 | an input with an unprintable key on which it is not idempotent |
| BlockProcessing.TryBlock | caddyfile/processor.go:29-37 | adding, sorting in place and removing on rejection leaves the blocks kept before, as they were |
| BlockProcessing.FilterBlocks | caddyfile/processor.go:28-38 | the loop over blocks shared by two containers computes the greedy filter |
| BlockProcessing.ProcessText | caddyfile/processor.go:11-40 | the whole of Process on the heap computes the specified output and log |
| Labels.PrefixMatch | caddyfile/fromlabels.go:13 | the order prefix of a segment is taken whenever it can be, and its value is the Order |
| Labels.NameMatch | caddyfile/fromlabels.go:13 | the name is the shortest one that leaves nothing or `_` and digits |
| Labels.ParentShorter | caddyfile/fromlabels.go:38-52 | a parent path is shorter, through escaping and unescaping of dots |
| LabelPaths.PathParts | caddyfile/fromlabels.go:38-76 | a path put together from a parent, a number or none, a name with its dots escaped, and a suffix or none, is taken apart into that parent, Order and name; without a number the Order is 2147483647, with one no more than 9223372036854775807 |
| LabelPaths.TopPathParts | caddyfile/fromlabels.go:38-76 | the same without a parent |
| LabelPaths.FromLabelsTree | caddyfile/fromlabels.go:18-61 | the tree has a block for each label and each of its parents, below its parent's; its keys are its name, unless it is at the top, and the words of its value |
| LabelPaths.NumberedFirst | caddyfile/fromlabels.go:63-72 | of two siblings of one kind, one with a number below 2147483647 in front comes before one without |
| Labels.FromLabelsDeterministic | caddyfile/fromlabels.go:18-36 | for every two iteration orders of the labels: an error in both or none, the same tree up to sibling permutation, the same marshalled bytes |
| LabelTrees.AnyOrder | caddyfile/fromlabels.go:18-61 | the same for any way of finding parents, arguments and headers |
| LabelBlocks.GetOrCreateBlock | caddyfile/fromlabels.go:38-61 | the recursion through blocksByPath creates exactly the missing blocks of a path, anywhere in the tree, and returns the pointer registered for it |
| LabelReading.AddLabelTo | caddyfile/fromlabels.go:22-33 | one label creates its blocks and appends the arguments read from its value to the right block |
| LabelReading.AssembleBlocks | caddyfile/fromlabels.go:18-36 | the loop over labels builds, in fresh objects, the specified tree or reports an error |
| LabelReading.ReadArgs | caddyfile/fromlabels.go:87-101 | the loop over next returns the texts of all tokens |
| LexerLaws.ArgsExact | caddyfile/fromlabels.go:87-101 | the arguments are the texts of the tokens of the value, all of them, in order |
| LabelReadings.ReadingsExact | caddyfile/fromlabels.go:18-61 | given one reading of a label set, a tree is a reading in some iteration order if and only if it is a sibling permutation of that one, at every level |
| LabelReading.FromLabelsBlocks | caddyfile/fromlabels.go:18-36 | FromLabels over a map in any order builds the tree specified for that order |
| LabelOrders.OrderShows | caddyfile/fromlabels.go:18-61 | for two label groups with one value, one of which has two directives of one name, two orders of the label map for which the generated text differs; their blocks do not blend |
| LabelOrders.SameNamesExample | caddyfile/fromlabels.go:63-72 | `caddy_0`, `caddy_1` and `x_0`, `x_1` are such names: the number after a name is not part of it and gives no Order |
| Spines.AddBlockAlong | caddyfile/caddyfile.go:58-60 | appending a block to a container deep in a tree changes the tree there and keeps all of it consistent |
| Spines.AddKeysAlong | caddyfile/caddyfile.go:53-55 | appending keys to a block deep in a tree changes the tree there and keeps all of it consistent |
| Generating.HoistPrints | generator/generator.go:183-196 | printing global blocks and then the others prints the whole container |
| Generating.Hoist | generator/generator.go:184-190 | removing while iterating moves exactly the global blocks, and both parts keep their order |
| WholeGenerator.AccumulateSources | generator/generator.go:71-181 | sources that can be read are merged in order, the others skipped |
| WholeGenerator.GenerateCaddyfile | generator/generator.go:56-215 | the text for the accumulated tree: sorted, global blocks first, processed if asked, never empty |
| WholeGenerator.GeneratedAccepted | generator/generator.go:198-208 | the text is not empty, and with processing on it was accepted unless it is the placeholder |
| WholeGenerator.PlaceholderEmpty | generator/generator.go:207-209 | the placeholder is not empty and is read as no blocks |
| WholeGenerator.GeneratedDeterministic | generator/generator.go:56-215 | with processing or without, the generated text is the same for all iteration orders of all label maps, if in each label set blocks that share a merge key blend and have coherent children and, when there are label sets, proxy blocks have their shape |
| GeneratorExact.LabelSetExact | generator/generator.go:56-215 | for a label set with well-formed blocks of the proxy shape whose Orders depend on the merge key only: without processing the generated text is the same for all iteration orders, whatever such sources with the same Orders are merged before and after, if and only if blocks that share a merge key blend and have coherent children |
| GeneratorExact.LabelSetAloneExact | generator/generator.go:56-215 | the same with no other source, where repeated blocks have coherent children: if and only if blocks that share a merge key blend |
| GeneratorExact.UnnumberedOrders | caddyfile/fromlabels.go:63-72 | labels none of whose paths begins with an order number make blocks that all have the same Order |
| Gateway.DescriptionDecodes | gateway/state.go:151-170 | a description decodes to the container it was made for if and only if the ID has no white space, whatever the label text |
| Gateway.DescriptionsDecode | gateway/dns.go:83-85 | the description format meets what the ownership laws ask of a coding |
| Gateway.OwnedExact | gateway/dns.go:83-85 | a description is ours if and only if its first 17 characters are `[homelab-manager]` |
| Gateway.DescriptionText | gateway/state.go:149-156 | that tag, a space, the container ID and, if there is one, a space and the label's text |
| GatewayAsks.ContainerNamed | gateway/state.go:158-170 | the container a description names is the first word after the tag |
| Ownership.StepSafe | gateway/state.go:39-115 | every event, failed or not, keeps tracked UUIDs distinct, owned, and under the container their row decodes to |
| Ownership.RunSafe | loader_gateway.go:139-218 | the same over all runs with failures and restarts; rows that are not ours are never deleted or changed |
| Gateway.RunKeepsOthers | loader_gateway.go:139-218 | over all runs, with the program's descriptions: a row without the tag is never deleted, changed or tracked |
| Ownership.TrackedDistinct | gateway/state.go:86-115 | no UUID is tracked twice |
| Ownership.RunInSync | loader_gateway.go:139-218 | without failed calls our rows are exactly the UUIDs tracked or in flight, over all runs |
| Ownership.RestartRecovery | gateway/state.go:39-83 | after any faultless run, rebuilding from the rows gives every container the same multiset of UUIDs |
| GatewayState.State.ReconcileOnStartup | gateway/state.go:39-83 | fills both maps from the listed rows; a failed first search leaves both empty, a failed second one the second |
| GatewayState.State.KnownContainerIDs | gateway/state.go:132-147 | every ID of either map, once |
| GatewayState.State.AddDNS | gateway/state.go:86-90 | appends the UUID to the container's list only |
| GatewayState.State.AddNAT | gateway/state.go:93-97 | appends the UUID to the container's list only |
| GatewayState.State.RemoveDNS | gateway/state.go:100-106 | returns the container's UUIDs and forgets them |
| GatewayState.State.RemoveNAT | gateway/state.go:109-115 | returns the container's UUIDs and forgets them |
| NatRules.SplitDomainExact | loader_gateway.go:253-259 | splits if and only if there is text before and after the first dot, into exactly that text |
| GatewayAsks.FieldsExact | loader_gateway.go:242-247 | the words of a text are what stands between white space |
| GatewayAsks.DnsTargetsExact | loader_gateway.go:234-249 | the domains are the words of the site label without `*`, in order; none without that label or if `gateway.dns` is `false` |
| GatewayAsks.OverridesExact | loader_gateway.go:172-195 | each domain with text before and after its first dot becomes one override, in order: host, rest, address |
| GatewayAsks.WantedOverridesExact | loader_gateway.go:172-195 | a container is given those for its domains, to the Caddy IP and in its name; none without a Caddy IP |
| ForwardAsks.IndexRead | loader_gateway.go:281-284 | decimal indices are read as themselves, up to 9223372036854775807 |
| ForwardAsks.SignedIndexRead | loader_gateway.go:281-284 | and with a sign, from -9223372036854775808 |
| ForwardAsks.SetsExact | loader_gateway.go:272-303 | a field is set exactly by the labels `gateway.portforward.N.` with `protocol`, `src_port`, `dst_port` or `description` |
| ForwardAsks.ForwardsExact | loader_gateway.go:269-323 | if no field is given two values: one rule for each index with a protocol, a source port and a destination port, by ascending index, with the source port as destination port, the destination port as local port, the host IP as target and the description in the container's name; and no other |
| ForwardAsks.OneForward | loader_gateway.go:269-323 | for example, three labels |
| ForwardAsks.WantedForwardsExact | loader_gateway.go:198-218 | a container is given those, to the IP of its host; none without one |
| PortForwards.EntriesOrderIndependent | loader_gateway.go:278-304 | for any reading of label keys, entries are the same for every iteration order if and only if no two labels set one field to different values |
| PortLabels.EntriesExact | loader_gateway.go:271-304 | the same for label keys as the program reads them |
| PortLabels.PortKeyRead | loader_gateway.go:273-287 | a key with an integer index is read as that entry and field |
| PortLabels.KeysClash | loader_gateway.go:280-286 | an index with and without a leading zero gives two keys for one field of one entry |
| PortLabels.OneAndZeroOne | loader_gateway.go:280-286 | for example `1` and `01` |
| PortLabels.ClashingRules | loader_gateway.go:269-323 | labels for which one iteration order gives a rule and another gives none |
| PortForwards.AscendingUnique | loader_gateway.go:306-310 | sorting the indices determines their order |
| SteadyForwards.SteadyExact | loader_gateway.go:278-316 | for any reading of label keys, whether a container gets any rule is independent of the iteration order if and only if some entry is always complete or none ever is |
| PortLabels.RulesExact | loader_gateway.go:269-323 | the same for label keys as the program reads them; without clashing labels it holds |
| GatewayRows.BuildNATRules | loader_gateway.go:269-323 | the loops give the rules of some iteration order, for any reading of keys: complete entries, by ascending index |
| GatewayRows.RulesUnique | loader_gateway.go:269-323 | without clashing labels there is only one result, for any reading of keys |
| PortLabels.BuildContainerRules | loader_gateway.go:269-323 | the rules for the program's own keys and descriptions; without clashing labels the only ones |
| RunningContainers.ListCurrent | loader_gateway.go:119-134 | the loops over clients and lists give the specified containers |
| RunningContainers.CurrentKeys | loader_gateway.go:119-134 | a container is running if and only if some list that succeeded has it |
| RunningContainers.CurrentHolds | loader_gateway.go:119-134 | with the labels of the last such list entry and the host IP of its client, or the Caddy IP if it has none |
| GatewayPass.Controller.RemoveDns | loader_gateway.go:144-151 | deletes what was tracked for a container that is gone, and touches nothing else, whichever calls fail |
| GatewayPass.Controller.RemoveNat | loader_gateway.go:152-161 | the same for NAT rules, with a savepoint before the first |
| GatewayPass.Controller.AddDns | loader_gateway.go:172-195 | adds one row per valid domain; what is added is tracked; without failures exactly those rows exist |
| GatewayPass.Controller.AddNat | loader_gateway.go:198-218 | adds one row per complete port forward, with a savepoint before the first |
| GatewayPass.Controller.ReconcileGateway | loader_gateway.go:108-231 | a pass keeps ownership safe and foreign rows whichever calls fail; without failures both tables converge; DNS changes are followed by one reconfigure, a savepoint precedes every NAT change and its revision is applied; a quiet pass makes no call |
| GatewayPass.Controller.ConvergedQuiet | loader_gateway.go:108-231 | after a pass without failures the next is quiet if and only if containers left without port forwards have steady labels |
| GatewayPass.Controller.ReconcileTwice | loader_gateway.go:108-231 | with steady labels and no failure in the first pass, the second on the same containers makes no call at all |
| Reconciling.ConvergedOwners | loader_gateway.go:138-163 | after a pass without failures our rows belong to running containers |
| Reconciling.ConvergedRows | loader_gateway.go:169-218 | and a container that had none has exactly the rows it asks for, one each |
| GatewayStartup.RestartHeals | gateway/state.go:39-83 | after any run with any failed calls, a restart that lists the rows tracks exactly our rows, if descriptions with our prefix name a container |
| GatewayStartup.StartAndReconcile | loader.go:147-154 | startup and the first pass, with the program's descriptions and label keys: safe whichever calls fail, the searches at startup too; a table that was listed and whose rows with our prefix name a container converges if no later call fails; whatever fails, each row whose description does not begin with `[homelab-manager]` is there unchanged and not tracked |
| Pushing.StepKeeps | loader.go:257-369 | every statement of every update and goroutine keeps the invariant of flags, versions and writes, and moves no recorded version and no server back |
| Pushing.RunKeeps | loader.go:257-369 | the same over all interleavings |
| PushResults.CaughtUp | loader.go:295-366 | a recorded version never exceeds the configuration last accepted; when it is the newest, the server has lastJSONConfig |
| PushResults.OneAtATime | loader.go:315-322 | at most one goroutine is past the flag of a server |
| PushResults.IdleClean | loader.go:300-305 | between updates no goroutine and no flag is left, and every write has its version |
| PushResults.HeldIsAdapted | loader.go:280-297 | whatever a server runs was adapted from some Caddyfile: nothing is pushed before the first adaptation |
| PushResults.SectionsUpToDate | loader.go:267-298 | if no two updates are between comparing and writing at once, pushing apart, lastJSONConfig is the adaptation of lastCaddyfile whenever none is |
| PushResults.AloneServes | loader.go:257-369 | after any run, an update that runs alone without failures brings all its servers to the newest configuration, in every interleaving |
| PushServed.ServedExactly | loader.go:257-369 | however updates overlap, without failed calls a server ends with a version if and only if one of its goroutines read lastVersion when it was that high |
| PushServed.FlagClearServes | loader.go:315-324 | whatever overlaps, a goroutine that finds the flag clear leaves its server at least at the version there was |
| PushServed.RecordedAnswered | loader.go:344-366 | whatever fails, a version is recorded for a server only if the server accepted it and answered so |
| PushOverlap.LostUpdate | loader.go:269-297 | a run of two overlapping updates that ends with the older configuration |
| PushOverlap.StaysStale | loader.go:269-298 | further updates with the same Caddyfile change nothing about that |
| PushOverlap.LeftBehind | loader.go:315-329 | a run without failures that leaves a server on the older configuration |
| PushOverlap.FailedAdaptation | loader.go:269-293 | an update whose Caddyfile cannot be adapted pushes nothing and leaves everything but lastCaddyfile as it was |
| PushOverlap.NotTriedAgain | loader.go:267-298 | an update with that Caddyfile goes on to push without adapting |

## Left out

- Docker, OPNsense and Hawser clients, HTTP, JSON, files, environment: calls are nondeterministic successes and failures; IPs, labels and lists are inputs. The model is that of an enabled gateway client.
- The Caddy adapter, `addAdminListen` and the label templates: any deterministic functions.
- The regular expression engine: what the label expression matches is written out, with the choices it prefers proved.
- Bytes that are not valid UTF-8: texts are sequences of runes.
- Text of log messages: log entries are values that name the block or the text. Those of the gateway cut container IDs to 12 characters, so IDs are taken to have as many, as Docker's do.
- Timers, event filtering, autosave, the IPs of controlled servers, `parseRemoteHosts`, networks: selection and configuration.
- The maps in `utils`: atomic maps, as their locks make them.
- The gap between reading and setting the updating flag (loader.go:316-321), and Go memory-model races: flag test-and-set and version increment are one step each.
- Passes of `reconcileGateway` that overlap in two updates: a pass is modelled alone.
- Pushing.RunKeeps: a push that failed is not delivered later, and servers do not lose their configuration.
- Ownership.RunSafe: nobody edits the description of a row, and the router never gives a UUID twice.
- Ownership.RestartRecovery: needs IDs without white space, as Docker's are; DescriptionDecodes shows that this is exact.
- Processing.ProcessIdempotent: needs printable keys at every level and no top-level key that starts with the byte order mark; EmptyKeyNotIdempotent shows one failure, KeyForms.FeedKeyExact that the first is what a key needs to be read back.
- WholeGenerator.GeneratedDeterministic: one direction; GeneratorExact.LabelSetExact is the other, one label set at a time.
- GeneratorExact.LabelSetExact: not for labels that give one merge key two Orders, since Orders are not printed and two that differ need not show; MergeAnywhere.AnywhereExact covers those on trees. Not with processing on, where the adapter decides what is printed.
- GeneratorExact.LabelSetAloneExact: not where the repeated blocks of a single label set have children that share a merge key and are not alike; there MergeExact.MustAgree is necessary, and LabelSetExact exact among other sources.
- WholeGenerator.GenerateCaddyfile: returns the Caddyfile only; the list of controlled servers is an input of the push model.
- Blocks.Container.SortSiblings: `sort.SliceStable` is modelled as its insertion sort, without the merging of blocks of twenty; the order is total, so the result is the same.
- Label paths that the label expression does not match, and NUL in labels: preconditions; the program stops there.
