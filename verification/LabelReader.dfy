/** FromLabels and parseArgs (caddyfile/fromlabels.go) as they run: over a map in any order, on blocks. */
module LabelReading {
  import opened Seqs
  import opened Lexing
  import opened Trees
  import opened Blocks
  import opened LabelTrees
  import opened Labels
  import opened LabelBlocks
  import opened Listings

  /** parseArgs */
  method ReadArgs(text: string) returns (args: seq<string>)
    ensures args == ParseArgs(text)
  {
    args := [];
    if |text| == 0 {
      return;
    }
    var l := new Lexer();
    var ok := l.Load(text);
    assert l.Fields() == Start();
    ghost var all := Texts(Tokens(l.Fields(), l.reader));
    AdvanceTokens(l.Fields(), l.reader);
    var more := l.Next();
    while more
      invariant args + (if more then [l.token.text] + Texts(Tokens(l.Fields(), l.reader)) else []) == all
      decreases more, |l.reader|
    {
      ConcatAssociative(args, [l.token.text], Texts(Tokens(l.Fields(), l.reader)));
      args := args + [l.token.text];
      AdvanceTokens(l.Fields(), l.reader);
      more := l.Next();
    }
    assert args + [] == args;
  }

  /** The header getOrCreateBlock gives a block: the order, and the name unless the block is at the top. */
  function InitialHeader(path: string): Header {
    Header(OrderOf(path), NameKeys(path))
  }

  lemma LabelHeaders()
    ensures HeadersFrom(HeadersOf, InitialHeader)
  {
  }

  /** What the templates and the lexer make of a value. */
  function ReadValue(template: Template, value: string): Option<seq<string>> {
    var text := template(value);
    if text.None? then None else Some(ParseArgs(text.value))
  }

  /** processVariables and parseArgs */
  method ReadValueArgs(template: Template, value: string) returns (args: Option<seq<string>>)
    ensures args == ReadValue(template, value)
  {
    var text := template(value);
    if text.None? {
      return None;
    }
    var read := ReadArgs(text.value);
    args := Some(read);
  }

  /** The block of a label. */
  method CreateFor(root: Container, path: string, blocksByPath: map<string, Block>, up: Up, initial: Headers,
                   ghost headersOf: map<string, seq<string>> -> Headers, ghost b: Building, ghost r: Registry)
    returns (block: Block, blocksByPath': map<string, Block>, ghost r': Registry)
    requires Rooted(path, up) && HeadersFrom(headersOf, initial)
    requires Assembled(root, b, headersOf, r) && blocksByPath == r.blocks
    modifies root.Repr
    ensures forall o :: o in root.Repr && o !in old(root.Repr) ==> fresh(o)
    ensures Built(root, GetOrCreate(b.blocks, path, up), headersOf(b.args), r') && b.args.Keys <= Paths(b.blocks)
    ensures blocksByPath' == r'.blocks && path in r'.blocks && block == r'.blocks[path]
  {
    HeadersElsewhere(headersOf, initial, b.blocks, b.args);
    block, blocksByPath', r' := GetOrCreateBlock(root, path, blocksByPath, up, initial, b.blocks, headersOf(b.args), r);
  }

  /** One turn of the loop. The block is there even if its arguments are an error. */
  method AddLabelTo(root: Container, path: string, value: string, blocksByPath: map<string, Block>,
                    up: Up, initial: Headers, template: Template, ghost arguments: Arguments,
                    ghost headersOf: map<string, seq<string>> -> Headers, ghost b: Building, ghost r: Registry)
    returns (ok: bool, blocksByPath': map<string, Block>, ghost b': Building, ghost r': Registry)
    requires Rooted(path, up) && HeadersFrom(headersOf, initial) && arguments(path) == ReadValue(template, value)
    requires Assembled(root, b, headersOf, r) && blocksByPath == r.blocks
    modifies root.Repr
    ensures forall o :: o in root.Repr && o !in old(root.Repr) ==> fresh(o)
    ensures ok <==> arguments(path).Some?
    ensures ok ==> AddLabel(b, path, up, arguments) == Some(b')
    ensures ok ==> Assembled(root, b', headersOf, r') && blocksByPath' == r'.blocks
  {
    var block;
    block, blocksByPath', r' := CreateFor(root, path, blocksByPath, up, initial, headersOf, b, r);
    ok, b' := AddRead(root, block, path, value, up, initial, template, arguments, headersOf, b, r');
  }

  /** The arguments of a label, read and added to its block. */
  method AddRead(root: Container, block: Block, ghost path: string, value: string, ghost up: Up,
                 ghost initial: Headers, template: Template, ghost arguments: Arguments,
                 ghost headersOf: map<string, seq<string>> -> Headers, ghost b: Building, ghost r: Registry)
    returns (ok: bool, ghost b': Building)
    requires Rooted(path, up) && HeadersFrom(headersOf, initial) && arguments(path) == ReadValue(template, value)
    requires b.args.Keys <= Paths(b.blocks)
    requires Built(root, GetOrCreate(b.blocks, path, up), headersOf(b.args), r) && path in r.blocks
    requires block == r.blocks[path]
    modifies root.Repr
    ensures root.Repr == old(root.Repr)
    ensures ok <==> arguments(path).Some?
    ensures ok ==> AddLabel(b, path, up, arguments) == Some(b') && Assembled(root, b', headersOf, r)
  {
    var args := ReadValueArgs(template, value);
    ok, b' := args.Some?, b;
    if ok {
      b' := AddGiven(root, block, path, args.value, up, initial, arguments, headersOf, b, r);
    }
  }

  method AddGiven(root: Container, block: Block, ghost path: string, args: seq<string>, ghost up: Up,
                  ghost initial: Headers, ghost arguments: Arguments,
                  ghost headersOf: map<string, seq<string>> -> Headers, ghost b: Building, ghost r: Registry)
    returns (ghost b': Building)
    requires Rooted(path, up) && HeadersFrom(headersOf, initial) && arguments(path) == Some(args)
    requires b.args.Keys <= Paths(b.blocks)
    requires Built(root, GetOrCreate(b.blocks, path, up), headersOf(b.args), r) && path in r.blocks
    requires block == r.blocks[path]
    modifies root.Repr
    ensures root.Repr == old(root.Repr)
    ensures AddLabel(b, path, up, arguments) == Some(b') && Assembled(root, b', headersOf, r)
  {
    ghost var after := b.args[path := (if path in b.args then b.args[path] else []) + args];
    HeadersAdded(headersOf, initial, b.args, path, args);
    AddArguments(root, block, path, args, GetOrCreate(b.blocks, path, up), headersOf(b.args), headersOf(after), r);
    AddedAssembled(root, b, headersOf, r, path, up, arguments);
    b' := AddLabel(b, path, up, arguments).value;
  }

  /** The arguments are what is read from the values. */
  ghost predicate ArgumentsRead(keys: seq<string>, labels: map<string, string>, template: Template,
                                arguments: Arguments) {
    forall k :: k in keys ==> k in labels && arguments(k) == ReadValue(template, labels[k])
  }

  /** The loop of FromLabels over the labels in the order `keys`. */
  method AssembleBlocks(keys: seq<string>, labels: map<string, string>, up: Up, initial: Headers, template: Template,
                        ghost arguments: Arguments, ghost headersOf: map<string, seq<string>> -> Headers)
    returns (container: Container?)
    requires (forall k :: k in keys ==> Rooted(k, up)) && HeadersFrom(headersOf, initial)
    requires ArgumentsRead(keys, labels, template, arguments)
    ensures container == null <==> Assemble(keys, up, arguments, headersOf).None?
    ensures container != null ==>
              && fresh(container.Repr) && container.Valid()
              && container.view == Assemble(keys, up, arguments, headersOf).value
  {
    var root := new Container();
    var blocksByPath: map<string, Block> := map[];
    ghost var b, r := Building([], map[]), Registry(map[], map[], map[]);
    NothingBuilt(root, headersOf(b.args));
    assert keys[0..] == keys;
    for i := 0 to |keys|
      invariant forall o :: o in root.Repr ==> fresh(o)
      invariant Assembled(root, b, headersOf, r) && blocksByPath == r.blocks
      invariant AddLabels(Some(b), keys[i..], up, arguments)
          == AddLabels(Some(Building([], map[])), keys, up, arguments)
    {
      AddLabelsNext(b, keys, i, up, arguments);
      assert keys[i] in keys;
      var ok;
      ok, blocksByPath, b, r := AddLabelTo(root, keys[i], labels[keys[i]], blocksByPath, up, initial, template,
                                           arguments, headersOf, b, r);
      if !ok {
        return null;
      }
    }
    container := root;
  }

  lemma LabelArgumentsRead(labels: map<string, string>, keys: seq<string>, template: Template)
    requires Lists(keys, labels)
    ensures ArgumentsRead(keys, labels, template, ArgumentsOf(labels, template))
  {
  }

  lemma FromLabelsAssembles(labels: map<string, string>, keys: seq<string>, template: Template)
    requires Lists(keys, labels) && WellFormedLabels(labels) && forall k :: k in keys ==> Rooted(k, ParentPath)
    ensures FromLabels(labels, keys, template) == Assemble(keys, ParentPath, ArgumentsOf(labels, template), HeadersOf)
  {
  }

  /** FromLabels. The labels come in any order: `keys` is the one there was. */
  method FromLabelsBlocks(labels: map<string, string>, template: Template)
    returns (container: Container?, ghost keys: seq<string>)
    requires WellFormedLabels(labels)
    ensures Lists(keys, labels)
    ensures container == null <==> FromLabels(labels, keys, template).None?
    ensures container != null ==>
              fresh(container.Repr) && container.Valid() && container.view == FromLabels(labels, keys, template).value
  {
    var order := ListSet(labels.Keys);
    keys := order;
    IterationRooted(keys, labels);
    LabelHeaders();
    LabelArgumentsRead(labels, keys, template);
    FromLabelsAssembles(labels, keys, template);
    container := AssembleBlocks(order, labels, ParentPath, InitialHeader, template,
                                ArgumentsOf(labels, template), HeadersOf);
  }
}
