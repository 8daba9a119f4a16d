/**
  The grammar of parser/parser.go as functions over a token stream: each function takes
  the parser's state (the cursor, the table of named blocks, the parent template and the
  store of named-block cells) and yields the state after the construct together with
  the node built for it. The `Parser` class of the parser module performs the same
  parse by updating its fields, and is proved to end in the state these functions
  compute.

  Every `panic` of the parser ends the whole parse and is an `Err` here. The scanner is
  not part of this model: a file is the sequence of tokens it would produce.
 */
module Grammar {
  import opened Wrappers
  import opened Nodes
  import Path

  /** The token kinds of the scanner (`tokEOF` … `tokMixinCall`). */
  datatype Kind =
    | TokEOF | TokIndent | TokOutdent | TokBlank | TokNewLine | TokSemicolon
    | TokDoctype | TokComment | TokText | TokId | TokClassName | TokTag
    | TokAttribute | TokAttributeList | TokIf | TokElse | TokUnless | TokEach
    | TokAssignment | TokBuffered | TokImport | TokNamedBlock | TokExtends
    | TokMixin | TokMixinCall

  /** A token: its kind, its value, its side data, and the attributes of an attribute list. */
  datatype Token = Token(kind: Kind, value: string, data: map<string, string>, children: seq<Token>)

  // The parser's error messages

  const UnexpectedToken := "Unexpected token"
  const InvalidSeparator := "invalid path separator"
  const TooDeep := "too many nested files"
  const TopLevelOutdent := "an outdent at the top level is never consumed"
  const BlockAttributeOutside := "Conditional attributes must be placed immediately within a parent tag."
  const GuardedHeaderAttribute := "Conditional attributes must be placed in a block within a tag."
  const MultipleExtends := "Unable to extend multiple parent templates."

  function NoFileSystem(target: string): string {
    "Unable to import or extend " + target + " in a non filesystem based parser."
  }

  function UnreadableFile(name: string): string {
    "Unable to read " + name
  }

  function Redefined(name: string): string {
    "Multiple definitions of named blocks are not permitted. Block " + name + " has been re defined."
  }

  /** `tok.Data[key]`, which is "" for a key the token does not carry. */
  function Datum(t: Token, key: string): string {
    if key in t.data then t.data[key] else ""
  }

  /**
    What the parser takes from outside parser.go: the token streams of the files the
    file system can open, `os.PathSeparator`, the parser's own path separator,
    `filepath.Dir`, `filepath.Join` and `filepath.Base`, and the argument splitting of
    `newMixin` and `newMixinCall` (nodes.go).
   */
  datatype Env = Env(
    files: map<string, seq<Token>>,
    osSep: char,
    sep: char,
    dir: string -> string,
    join: (string, string) -> string,
    base: string -> string,
    mixinArgs: string -> seq<string>,
    callArgs: string -> seq<string>)

  /**
    What stays fixed while one parser runs: its tokens, its file name ("" for a parser
    over a string) and how many nested files it may still open.
   */
  datatype Ctx = Ctx(tokens: seq<Token>, filename: string, depth: nat)

  /** The parent template of an `extends`: its table of named blocks and its result. */
  datatype Parent = Parent(table: map<string, nat>, root: Node)

  /** The parser's fields: the cursor, `namedBlocks`, `parent`, and the store of cells. */
  datatype PState = PState(pos: nat, table: map<string, nat>, parent: Option<Parent>, cells: seq<Cell>)

  /** A state and what a sub-parser built in it. */
  datatype Step<+T> = Step(st: PState, value: T)

  const EofToken := Token(TokEOF, "", map[], [])

  /** The current token; past the end the scanner only yields EOF. */
  function Cur(ctx: Ctx, st: PState): Token {
    if st.pos < |ctx.tokens| then ctx.tokens[st.pos] else EofToken
  }

  /** How many tokens are left; every sub-parser except the outdent case consumes one. */
  function Remaining(ctx: Ctx, st: PState): nat {
    if st.pos < |ctx.tokens| then |ctx.tokens| - st.pos else 0
  }

  /** `advance`. */
  function Adv(ctx: Ctx, st: PState): (r: PState)
    ensures Remaining(ctx, r) <= Remaining(ctx, st)
    ensures Cur(ctx, st).kind != TokEOF ==> Remaining(ctx, r) < Remaining(ctx, st)
    ensures r.table == st.table && r.parent == st.parent && r.cells == st.cells
    ensures Sound(st, r)
  {
    if st.pos < |ctx.tokens| then st.(pos := st.pos + 1) else st
  }

  /** `expect(k)` (parser/parser.go:283-290): the current token if it is of kind `k`. */
  function Expect(ctx: Ctx, st: PState, k: Kind): (r: Result<Step<Token>>)
    ensures r.Ok? <==> Cur(ctx, st).kind == k
    ensures r.Ok? ==> r.value.st == Adv(ctx, st) && r.value.value == Cur(ctx, st)
  {
    if Cur(ctx, st).kind != k then Err(UnexpectedToken) else Ok(Step(Adv(ctx, st), Cur(ctx, st)))
  }

  // ---------------------------------------------------------------------------------
  // What every sub-parser keeps

  /** Every name of a table refers to a cell of that name. */
  predicate Names(table: map<string, nat>, cells: seq<Cell>) {
    forall k :: k in table ==> table[k] < |cells| && cells[table[k]].name == k
  }

  /**
    The state is coherent: both tables name cells of the store, and no cell is both the
    parser's own and its parent's (the parent's cells are created by the parent's parse).
   */
  predicate Inv(st: PState) {
    Names(st.table, st.cells) &&
    (st.parent.Some? ==>
       Names(st.parent.value.table, st.cells) &&
       forall k, j :: k in st.table && j in st.parent.value.table ==> st.table[k] != st.parent.value.table[j])
  }

  /** Both tables name cells, and the child's cells are none of the parent's. */
  predicate Separate(parent: map<string, nat>, ours: map<string, nat>, cells: seq<Cell>) {
    Names(parent, cells) && forall k :: k in ours ==> ours[k] < |cells| && ours[k] !in parent.Values
  }

  lemma InvSeparate(st: PState)
    requires Inv(st) && st.parent.Some?
    ensures Separate(st.parent.value.table, st.table, st.cells)
  {
  }

  /**
    How a sub-parser may change the state: existing cells stay as they are, a new table
    entry names a new cell, a parent once set stays, and a parent set now owns only new
    cells.
   */
  predicate Evolves(st: PState, st': PState) {
    |st.cells| <= |st'.cells| &&
    (forall i :: 0 <= i < |st.cells| ==> st'.cells[i] == st.cells[i]) &&
    (forall k :: k in st'.table ==> (k in st.table && st'.table[k] == st.table[k]) || st'.table[k] >= |st.cells|) &&
    (st.parent.Some? ==> st'.parent == st.parent) &&
    (st.parent.None? && st'.parent.Some? ==>
       forall k :: k in st'.parent.value.table ==> st'.parent.value.table[k] >= |st.cells|)
  }

  /** A sub-parser's step is well-behaved. */
  predicate Sound(st: PState, st': PState) {
    Evolves(st, st') && (Inv(st) ==> Inv(st'))
  }

  lemma SoundTrans(a: PState, b: PState, c: PState)
    requires Sound(a, b) && Sound(b, c)
    ensures Sound(a, c)
  {
  }

  /**
    What a nested parse over the cells `cells` leaves: a coherent state whose store
    extends `cells` and whose own named blocks are all new cells.
   */
  predicate Nested(cells: seq<Cell>, sub: PState) {
    Inv(sub) && |cells| <= |sub.cells| &&
    (forall i :: 0 <= i < |cells| ==> sub.cells[i] == cells[i]) &&
    (forall k :: k in sub.table ==> sub.table[k] >= |cells|)
  }

  /** The cells of an imported file's parse taken over. */
  function Absorb(st: PState, sub: PState): (r: PState)
    requires Nested(st.cells, sub)
    ensures Sound(st, r)
    ensures r == st.(cells := sub.cells)
  {
    st.(cells := sub.cells)
  }

  /** The parse of an extended file taken over as the parent. */
  function Adopt(st: PState, sub: PState, root: Node): (r: PState)
    requires st.parent.None? && Nested(st.cells, sub)
    ensures Sound(st, r)
    ensures r == st.(cells := sub.cells, parent := Some(Parent(sub.table, root)))
  {
    st.(cells := sub.cells, parent := Some(Parent(sub.table, root)))
  }

  /** A named block registered as a new cell under its name. */
  function Register(st: PState, name: string, m: Modifier, children: seq<Node>): (r: PState)
    ensures Sound(st, r)
    ensures r.pos == st.pos && r.parent == st.parent
    ensures r.cells == st.cells + [Cell(name, m, children)] && r.table == st.table[name := |st.cells|]
  {
    st.(cells := st.cells + [Cell(name, m, children)], table := st.table[name := |st.cells|])
  }

  // ---------------------------------------------------------------------------------
  // Files

  /**
    The path `parseRelativeFile` computes before the extension rule (parser/parser.go:156-160):
    the target joined to the directory of the current file. The function handed to
    `Convert` ignores its argument and joins the target as it was written.
   */
  function Joined(env: Env, filename: string, target: string): Path.ConvertResult {
    Path.Convert(env.osSep, env.sep, target,
      (fileName: string) => env.join(env.dir(Path.ToOsSeparator(env.osSep, env.sep, filename)), target))
  }

  /**
    The extension rule of parser/parser.go:162-164: a path whose base name has no `.`
    gets `.jade` appended; any other path is kept as it is.
   */
  function TargetName(env: Env, filename: string, target: string): (r: Result<string>)
    ensures |filename| == 0 || Joined(env, filename, target).InvalidSeparator? ==> r.Err?
    ensures r.Ok? ==>
              var path := Joined(env, filename, target).path;
              var base := Path.Convert(env.osSep, env.sep, path, env.base);
              base.Converted? &&
              ('.' in base.path ==> r.value == path) &&
              ('.' !in base.path ==> r.value == path + ".jade")
  {
    if |filename| == 0 then Err(NoFileSystem(target))
    else
      var joined := Joined(env, filename, target);
      if joined.InvalidSeparator? then Err(InvalidSeparator)
      else
        var base := Path.Convert(env.osSep, env.sep, joined.path, env.base);
        if base.InvalidSeparator? then Err(InvalidSeparator)
        else if '.' !in base.path then Ok(joined.path + ".jade")
        else Ok(joined.path)
  }

  /**
    `parseRelativeFile` (parser/parser.go:151-172): a parser over the target file, with the
    same file system and separator; a file the file system cannot open is fatal.
   */
  function RelativeFile(env: Env, ctx: Ctx, target: string): (r: Result<Ctx>)
    ensures r.Ok? ==> TargetName(env, ctx.filename, target).Ok? &&
                      r.value.filename == TargetName(env, ctx.filename, target).value &&
                      r.value.filename in env.files && r.value.tokens == env.files[r.value.filename]
    ensures r.Ok? ==> r.value.depth < ctx.depth
  {
    var name :- TargetName(env, ctx.filename, target);
    if name !in env.files then Err(UnreadableFile(name))
    else if ctx.depth == 0 then Err(TooDeep)
    else Ok(Ctx(env.files[name], name, ctx.depth - 1))
  }

  // ---------------------------------------------------------------------------------
  // The merge

  /** How a child's block combines with its parent's block of the same name. */
  function Combine(prev: Cell, ours: Cell): (r: Cell)
    ensures r.name == prev.name && r.modifier == prev.modifier
    ensures ours.modifier == Append ==> r.children == prev.children + ours.children
    ensures ours.modifier == Prepend ==> r.children == ours.children + prev.children
    ensures ours.modifier == Default ==> r.children == ours.children
  {
    match ours.modifier
    case Append => prev.(children := prev.children + ours.children)
    case Prepend => prev.(children := ours.children + prev.children)
    case Default => prev.(children := ours.children)
  }

  /**
    The cells after merging the child's table `ours` into the cells `ids` of the parent:
    each such cell combines with the child's cell of its name, if there is one.
   */
  function MergeOver(cells: seq<Cell>, ids: set<nat>, ours: map<string, nat>): (r: seq<Cell>)
    ensures |r| == |cells|
    ensures forall i :: 0 <= i < |cells| ==> r[i].name == cells[i].name
  {
    seq(|cells|, i requires 0 <= i < |cells| =>
      if i in ids && cells[i].name in ours && ours[cells[i].name] < |cells|
      then Combine(cells[i], cells[ours[cells[i].name]])
      else cells[i])
  }

  /** The merge of parser/parser.go:114-137, over every named block of the parent. */
  function Merge(cells: seq<Cell>, parent: map<string, nat>, ours: map<string, nat>): (r: seq<Cell>)
    ensures |r| == |cells|
  {
    MergeOver(cells, parent.Values, ours)
  }

  // ---------------------------------------------------------------------------------
  // The parse

  /** The state of a parser that has not read anything yet. */
  function Init(cells: seq<Cell>): PState {
    PState(0, map[], None, cells)
  }

  /**
    `Parse` of a parser that has no result yet (parser/parser.go:98-142): the top-level
    nodes up to EOF; then, with a parent, the merge of this file's named blocks into the
    parent's, and the parent's result in place of this file's.
   */
  function PParse(env: Env, ctx: Ctx, cells: seq<Cell>): (r: Result<Step<Node>>)
    ensures r.Ok? ==> Nested(cells, r.value.st)
    ensures r.Ok? && r.value.st.parent.Some? ==> r.value.value == r.value.st.parent.value.root
    ensures r.Ok? && r.value.st.parent.None? ==> r.value.value.Block?
    decreases ctx.depth, Remaining(ctx, Init(cells)), 10
  {
    var top :- PTop(env, ctx, Init(cells), []);
    var st := top.st;
    if st.parent.None? then Ok(Step(st, Block(top.value)))
    else
      var p := st.parent.value;
      var merged := Merge(st.cells, p.table, st.table);
      assert forall i :: 0 <= i < |cells| ==> i !in p.table.Values;
      assert forall i :: 0 <= i < |cells| ==> merged[i] == st.cells[i];
      Ok(Step(st.(cells := merged), p.root))
  }

  /** The loop of `Parse`: blank lines are skipped, every other construct is pushed. */
  function PTop(env: Env, ctx: Ctx, st: PState, acc: seq<Node>): (r: Result<Step<seq<Node>>>)
    ensures r.Ok? ==> Sound(st, r.value.st)
    decreases ctx.depth, Remaining(ctx, st), 8
  {
    var t := Cur(ctx, st);
    if t.kind == TokEOF then Ok(Step(st, acc))
    else if t.kind == TokBlank then PTop(env, ctx, Adv(ctx, st), acc)
    else if t.kind == TokOutdent then Err(TopLevelOutdent)
    else
      var n :- PNode(env, ctx, st);
      PTop(env, ctx, n.st, acc + [n.value])
  }

  /** `parse` (parser/parser.go:230-281): one construct, chosen by the current token. */
  function PNode(env: Env, ctx: Ctx, st: PState): (r: Result<Step<Node>>)
    ensures r.Ok? ==> Sound(st, r.value.st) && Remaining(ctx, r.value.st) <= Remaining(ctx, st)
    ensures r.Ok? && Cur(ctx, st).kind != TokOutdent ==> Remaining(ctx, r.value.st) < Remaining(ctx, st)
    decreases ctx.depth, Remaining(ctx, st), 6
  {
    match Cur(ctx, st).kind
    case TokDoctype => PDoctype(ctx, st)
    case TokComment => PComment(env, ctx, st)
    case TokText => PText(ctx, st)
    case TokIf => PIf(env, ctx, st)
    case TokUnless => PUnless(env, ctx, st)
    case TokEach => PEach(env, ctx, st)
    case TokImport => PImport(env, ctx, st)
    case TokTag => PTag(env, ctx, st)
    case TokClassName => PTaglessClass(env, ctx, st)
    case TokId => PTaglessId(env, ctx, st)
    case TokBuffered => PBuffered(ctx, st)
    case TokAssignment => PAssignment(ctx, st)
    case TokNamedBlock => PNamedBlock(env, ctx, st)
    case TokExtends => PExtends(env, ctx, st)
    case TokIndent =>
      var b :- PBlock(env, ctx, st, false);
      Ok(Step(b.st, Block(b.value.0)))
    case TokMixin => PMixin(env, ctx, st)
    case TokMixinCall => PMixinCall(env, ctx, st)
    case TokNewLine => PNode(env, ctx, Adv(ctx, st))
    case TokOutdent => Ok(Step(st, Block([])))
    case _ => Err(UnexpectedToken)
  }

  /**
    `parseBlock` (parser/parser.go:322-373): an indent or semicolon, the constructs up to
    the outdent or EOF, and the outdent. `inTag` says whether the block's parent is a tag:
    an attribute token at this level then joins the tag's attributes (returned second).
   */
  function PBlock(env: Env, ctx: Ctx, st: PState, inTag: bool): (r: Result<Step<(seq<Node>, seq<Attribute>)>>)
    ensures r.Ok? ==> Sound(st, r.value.st) && Remaining(ctx, r.value.st) < Remaining(ctx, st)
    ensures r.Ok? ==> Cur(ctx, st).kind in {TokIndent, TokSemicolon}
    ensures r.Ok? && !inTag ==> r.value.value.1 == []
    decreases ctx.depth, Remaining(ctx, st), 2
  {
    var t := Cur(ctx, st);
    if t.kind != TokIndent && t.kind != TokSemicolon then Err(UnexpectedToken)
    else PItems(env, ctx, Adv(ctx, st), inTag, [], [])
  }

  /** The attribute a block-level attribute token adds to its tag: its guard included. */
  function BlockAttribute(t: Token): Attribute {
    Attribute(t.value, Datum(t, "Content"), Datum(t, "Mode") == "raw", Datum(t, "Condition"))
  }

  /** The loop of `parseBlock`, with the children and tag attributes gathered so far. */
  function PItems(env: Env, ctx: Ctx, st: PState, inTag: bool, children: seq<Node>, attrs: seq<Attribute>)
    : (r: Result<Step<(seq<Node>, seq<Attribute>)>>)
    ensures r.Ok? ==> Sound(st, r.value.st) && Remaining(ctx, r.value.st) <= Remaining(ctx, st)
    ensures r.Ok? && !inTag && attrs == [] ==> r.value.value.1 == []
    decreases ctx.depth, Remaining(ctx, st), 7
  {
    var t := Cur(ctx, st);
    if t.kind == TokEOF || t.kind == TokOutdent then Ok(Step(Adv(ctx, st), (children, attrs)))
    else if t.kind == TokBlank then PItems(env, ctx, Adv(ctx, st), inTag, children, attrs)
    else if t.kind == TokAttribute then
      if inTag then PItems(env, ctx, Adv(ctx, st), inTag, children, attrs + [BlockAttribute(t)])
      else Err(BlockAttributeOutside)
    else
      var n :- PNode(env, ctx, st);
      PItems(env, ctx, n.st, inTag, children + [n.value], attrs)
  }

  /** `parseIf` (parser/parser.go:375-399): the condition, then its branches. */
  function PIf(env: Env, ctx: Ctx, st: PState): (r: Result<Step<Node>>)
    ensures r.Ok? ==> Sound(st, r.value.st) && Remaining(ctx, r.value.st) < Remaining(ctx, st)
    ensures r.Ok? ==> Cur(ctx, st).kind == TokIf && r.value.value.Condition? &&
                      r.value.value.expression == Cur(ctx, st).value
    decreases ctx.depth, Remaining(ctx, st), 5
  {
    var tok :- Expect(ctx, st, TokIf);
    PIfMore(env, ctx, tok.st, tok.value.value, NoBlock, NoBlock)
  }

  /**
    The `readmore` loop of `parseIf`: an indented block is the positive branch; `else if`
    nests a whole condition as the only child of the negative branch; `else` and a block
    is the negative branch; `else` followed by anything else is fatal.
   */
  function PIfMore(env: Env, ctx: Ctx, st: PState, e: string, positive: OptBlock, negative: OptBlock)
    : (r: Result<Step<Node>>)
    ensures r.Ok? ==> Sound(st, r.value.st) && Remaining(ctx, r.value.st) <= Remaining(ctx, st)
    ensures r.Ok? ==> r.value.value.Condition? && r.value.value.expression == e
    decreases ctx.depth, Remaining(ctx, st), 4
  {
    var t := Cur(ctx, st);
    if t.kind == TokIndent then
      var b :- PBlock(env, ctx, st, false);
      PIfMore(env, ctx, b.st, e, SomeBlock(b.value.0), negative)
    else if t.kind == TokElse then
      var n :- PElse(env, ctx, Adv(ctx, st));
      PIfMore(env, ctx, n.st, e, positive, n.value)
    else Ok(Step(st, Condition(e, positive, negative)))
  }

  /**
    What follows an `else` (parser/parser.go:385-394): a whole condition, nested as the
    only child of the negative branch, or an indented block; anything else is fatal.
   */
  function PElse(env: Env, ctx: Ctx, st: PState): (r: Result<Step<OptBlock>>)
    ensures r.Ok? ==> Sound(st, r.value.st) && Remaining(ctx, r.value.st) < Remaining(ctx, st)
    ensures Cur(ctx, st).kind !in {TokIf, TokIndent} ==> r.Err?
    decreases ctx.depth, Remaining(ctx, st), 6
  {
    var k := Cur(ctx, st).kind;
    if k == TokIf then
      var inner :- PIf(env, ctx, st);
      Ok(Step(inner.st, SomeBlock([inner.value])))
    else if k == TokIndent then
      var b :- PBlock(env, ctx, st, false);
      Ok(Step(b.st, SomeBlock(b.value.0)))
    else Err(UnexpectedToken)
  }

  /** `parseUnless` (parser/parser.go:401-414): `if !(e)`, without an else. */
  function PUnless(env: Env, ctx: Ctx, st: PState): (r: Result<Step<Node>>)
    ensures r.Ok? ==> Sound(st, r.value.st) && Remaining(ctx, r.value.st) < Remaining(ctx, st)
    ensures r.Ok? ==> Cur(ctx, st).kind == TokUnless && r.value.value.Condition? &&
                      r.value.value.expression == "!(" + Cur(ctx, st).value + ")" &&
                      r.value.value.negative == NoBlock
    decreases ctx.depth, Remaining(ctx, st), 5
  {
    var tok :- Expect(ctx, st, TokUnless);
    PUnlessMore(env, ctx, tok.st, "!(" + tok.value.value + ")", NoBlock)
  }

  /** The `readmore` loop of `parseUnless`: every indented block replaces the branch. */
  function PUnlessMore(env: Env, ctx: Ctx, st: PState, e: string, positive: OptBlock): (r: Result<Step<Node>>)
    ensures r.Ok? ==> Sound(st, r.value.st) && Remaining(ctx, r.value.st) <= Remaining(ctx, st)
    ensures r.Ok? ==> r.value.value.Condition? && r.value.value.expression == e && r.value.value.negative == NoBlock
    decreases ctx.depth, Remaining(ctx, st), 4
  {
    if Cur(ctx, st).kind == TokIndent then
      var b :- PBlock(env, ctx, st, false);
      PUnlessMore(env, ctx, b.st, e, SomeBlock(b.value.0))
    else Ok(Step(st, Condition(e, positive, NoBlock)))
  }

  /** An optional block: parsed when the current token is an indent. */
  function POptBlock(env: Env, ctx: Ctx, st: PState): (r: Result<Step<OptBlock>>)
    ensures r.Ok? ==> Sound(st, r.value.st) && Remaining(ctx, r.value.st) <= Remaining(ctx, st)
    ensures r.Ok? ==> (r.value.value.SomeBlock? <==> Cur(ctx, st).kind == TokIndent)
    decreases ctx.depth, Remaining(ctx, st), 3
  {
    if Cur(ctx, st).kind == TokIndent then
      var b :- PBlock(env, ctx, st, false);
      Ok(Step(b.st, SomeBlock(b.value.0)))
    else Ok(Step(st, NoBlock))
  }

  /** `parseEach` (parser/parser.go:416-428). */
  function PEach(env: Env, ctx: Ctx, st: PState): (r: Result<Step<Node>>)
    ensures r.Ok? ==> Sound(st, r.value.st) && Remaining(ctx, r.value.st) < Remaining(ctx, st)
    ensures r.Ok? ==> var t := Cur(ctx, st);
                      t.kind == TokEach && r.value.value.Each? &&
                      r.value.value.x == Datum(t, "X") && r.value.value.y == Datum(t, "Y") &&
                      r.value.value.expression == t.value
    decreases ctx.depth, Remaining(ctx, st), 5
  {
    var tok :- Expect(ctx, st, TokEach);
    var b :- POptBlock(env, ctx, tok.st);
    Ok(Step(b.st, Each(Datum(tok.value, "X"), Datum(tok.value, "Y"), tok.value.value, b.value)))
  }

  /** `parseImport` (parser/parser.go:430-435): the other file's result, parsed on the spot. */
  function PImport(env: Env, ctx: Ctx, st: PState): (r: Result<Step<Node>>)
    ensures r.Ok? ==> Sound(st, r.value.st) && Remaining(ctx, r.value.st) < Remaining(ctx, st)
    ensures r.Ok? ==> r.value.st.table == st.table && r.value.st.parent == st.parent
    decreases ctx.depth, Remaining(ctx, st), 5
  {
    var tok :- Expect(ctx, st, TokImport);
    var res :- PFile(env, ctx, tok.st, tok.value.value);
    Ok(Step(Absorb(tok.st, res.st), res.value))
  }

  /**
    The parse of the file `target` names, relative to this one, by a parser of its own
    over the same store: the state that parser ends in, and its result.
   */
  function PFile(env: Env, ctx: Ctx, st: PState, target: string): (r: Result<Step<Node>>)
    ensures r.Ok? ==> RelativeFile(env, ctx, target).Ok? && Nested(st.cells, r.value.st)
    decreases ctx.depth, Remaining(ctx, st), 4
  {
    var sub :- RelativeFile(env, ctx, target);
    PParse(env, sub, st.cells)
  }

  /**
    `parseExtends` (parser/parser.go:305-320): at most one parent per file; the parent
    file is parsed in full right away, and the directive itself renders as nothing.
   */
  function PExtends(env: Env, ctx: Ctx, st: PState): (r: Result<Step<Node>>)
    ensures st.parent.Some? ==> r.Err?
    ensures r.Ok? ==> Sound(st, r.value.st) && Remaining(ctx, r.value.st) < Remaining(ctx, st)
    ensures r.Ok? ==> r.value.value == Block([]) && r.value.st.parent.Some? && r.value.st.table == st.table
    decreases ctx.depth, Remaining(ctx, st), 5
  {
    if st.parent.Some? then Err(MultipleExtends)
    else
      var tok :- Expect(ctx, st, TokExtends);
      var res :- PFile(env, ctx, tok.st, tok.value.value);
      Ok(Step(Adopt(tok.st, res.st, res.value), Block([])))
  }

  /** The modifier of a named block (parser/parser.go:447-451). */
  function ModifierOf(s: string): (m: Modifier)
    ensures m == Append <==> s == "append"
    ensures m == Prepend <==> s == "prepend"
  {
    if s == "append" then Append else if s == "prepend" then Prepend else Default
  }

  /**
    `parseNamedBlock` (parser/parser.go:437-464): a name defined twice in one file is
    fatal; the block's body is parsed, a new cell is registered under its name, and the
    block renders in place only with the default modifier.
   */
  function PNamedBlock(env: Env, ctx: Ctx, st: PState): (r: Result<Step<Node>>)
    ensures r.Ok? ==> Sound(st, r.value.st) && Remaining(ctx, r.value.st) < Remaining(ctx, st)
    ensures Cur(ctx, st).kind == TokNamedBlock && Cur(ctx, st).value in st.table ==> r.Err?
    decreases ctx.depth, Remaining(ctx, st), 5
  {
    var tok :- Expect(ctx, st, TokNamedBlock);
    var name := tok.value.value;
    if name in st.table then Err(Redefined(name))
    else
      var body :- PNamedBody(env, ctx, tok.st);
      Ok(NamedBlockStep(st, tok.st, body.st, name, ModifierOf(Datum(tok.value, "Modifier")), body.value))
  }

  /** The body of a named block: its block's children if an indent follows, else none. */
  function PNamedBody(env: Env, ctx: Ctx, st: PState): (r: Result<Step<seq<Node>>>)
    ensures r.Ok? ==> Sound(st, r.value.st) && Remaining(ctx, r.value.st) <= Remaining(ctx, st)
    ensures Cur(ctx, st).kind != TokIndent ==> r.Ok? && r.value.st == st && r.value.value == []
    decreases ctx.depth, Remaining(ctx, st), 4
  {
    if Cur(ctx, st).kind == TokIndent then
      var b :- PBlock(env, ctx, st, false);
      Ok(Step(b.st, b.value.0))
    else Ok(Step(st, []))
  }

  /**
    A named block that parses is the last cell of the store, registered under its name
    with its modifier, and it renders in place only with the default modifier.
   */
  lemma NamedBlockRegisters(env: Env, ctx: Ctx, st: PState)
    requires PNamedBlock(env, ctx, st).Ok?
    ensures var r := PNamedBlock(env, ctx, st).value;
            var name := Cur(ctx, st).value;
            var id := |r.st.cells| - 1;
            name in r.st.table && r.st.table[name] == id &&
            r.st.cells[id].name == name &&
            r.st.cells[id].modifier == ModifierOf(Datum(Cur(ctx, st), "Modifier")) &&
            r.value == if r.st.cells[id].modifier == Default then Slot(id) else Block([])
  {
  }

  /**
    The end of `parseNamedBlock`: the block's body is registered as a new cell, and the
    block renders in place only with the default modifier.
   */
  function NamedBlockStep(st0: PState, st1: PState, st: PState, name: string, m: Modifier, children: seq<Node>)
    : (r: Step<Node>)
    requires Sound(st0, st1) && Sound(st1, st)
    ensures Sound(st0, r.st) && r.st.pos == st.pos
    ensures var id := |r.st.cells| - 1;
            name in r.st.table && r.st.table[name] == id && r.st.cells[id] == Cell(name, m, children) &&
            r.value == if m == Default then Slot(id) else Block([])
  {
    var st' := Register(st, name, m, children);
    SoundTrans(st0, st1, st);
    SoundTrans(st0, st, st');
    Step(st', if m == Default then Slot(|st.cells|) else Block([]))
  }

  /** `parseDoctype` (parser/parser.go:466-471). */
  function PDoctype(ctx: Ctx, st: PState): (r: Result<Step<Node>>)
    ensures r.Ok? <==> Cur(ctx, st).kind == TokDoctype
    ensures r.Ok? ==> r.value == Step(Adv(ctx, st), Doctype(Cur(ctx, st).value))
  {
    var tok :- Expect(ctx, st, TokDoctype);
    Ok(Step(tok.st, Doctype(tok.value.value)))
  }

  /** `parseComment` (parser/parser.go:473-484). */
  function PComment(env: Env, ctx: Ctx, st: PState): (r: Result<Step<Node>>)
    ensures r.Ok? ==> Sound(st, r.value.st) && Remaining(ctx, r.value.st) < Remaining(ctx, st)
    ensures r.Ok? ==> var t := Cur(ctx, st);
                      t.kind == TokComment && r.value.value.Comment? && r.value.value.value == t.value &&
                      (r.value.value.silent <==> Datum(t, "Mode") == "silent")
    decreases ctx.depth, Remaining(ctx, st), 5
  {
    var tok :- Expect(ctx, st, TokComment);
    var b :- POptBlock(env, ctx, tok.st);
    Ok(Step(b.st, Comment(tok.value.value, Datum(tok.value, "Mode") == "silent", b.value)))
  }

  /** `parseText` (parser/parser.go:486-491). */
  function PText(ctx: Ctx, st: PState): (r: Result<Step<Node>>)
    ensures r.Ok? <==> Cur(ctx, st).kind == TokText
    ensures r.Ok? ==> var t := Cur(ctx, st);
                      r.value == Step(Adv(ctx, st), Text(t.value, Datum(t, "Mode") == "raw"))
  {
    var tok :- Expect(ctx, st, TokText);
    Ok(Step(tok.st, Text(tok.value.value, Datum(tok.value, "Mode") == "raw")))
  }

  /** `parseBuffered` (parser/parser.go:493-498). */
  function PBuffered(ctx: Ctx, st: PState): (r: Result<Step<Node>>)
    ensures r.Ok? <==> Cur(ctx, st).kind == TokBuffered
    ensures r.Ok? ==> var t := Cur(ctx, st);
                      r.value == Step(Adv(ctx, st), Buffered(t.value, Datum(t, "Mode") == "escaped"))
  {
    var tok :- Expect(ctx, st, TokBuffered);
    Ok(Step(tok.st, Buffered(tok.value.value, Datum(tok.value, "Mode") == "escaped")))
  }

  /** `parseAssignment` (parser/parser.go:500-505). */
  function PAssignment(ctx: Ctx, st: PState): (r: Result<Step<Node>>)
    ensures r.Ok? <==> Cur(ctx, st).kind == TokAssignment
    ensures r.Ok? ==> var t := Cur(ctx, st);
                      r.value == Step(Adv(ctx, st), Assignment(Datum(t, "X"), t.value))
  {
    var tok :- Expect(ctx, st, TokAssignment);
    Ok(Step(tok.st, Assignment(Datum(tok.value, "X"), tok.value.value)))
  }

  /** `parseTag` (parser/parser.go:507-513). */
  function PTag(env: Env, ctx: Ctx, st: PState): (r: Result<Step<Node>>)
    ensures r.Ok? ==> Sound(st, r.value.st) && Remaining(ctx, r.value.st) < Remaining(ctx, st)
    ensures r.Ok? ==> Cur(ctx, st).kind == TokTag && r.value.value.Tag? && r.value.value.name == Cur(ctx, st).value
    decreases ctx.depth, Remaining(ctx, st), 5
  {
    var tok :- Expect(ctx, st, TokTag);
    PTagReal(env, ctx, tok.st, tok.value.value, [], NoBlock)
  }

  /** `parseTaglessClass` (parser/parser.go:515-522): `.cls` is a `div` with a raw class. */
  function PTaglessClass(env: Env, ctx: Ctx, st: PState): (r: Result<Step<Node>>)
    ensures r.Ok? ==> Sound(st, r.value.st) && Remaining(ctx, r.value.st) < Remaining(ctx, st)
    ensures r.Ok? ==> Cur(ctx, st).kind == TokClassName && r.value.value.Tag? && r.value.value.name == "div" &&
                      |r.value.value.attributes| > 0 &&
                      r.value.value.attributes[0] == Attribute("class", Cur(ctx, st).value, true, "")
    decreases ctx.depth, Remaining(ctx, st), 5
  {
    var tok :- Expect(ctx, st, TokClassName);
    PTagReal(env, ctx, tok.st, "div", [Attribute("class", tok.value.value, true, "")], NoBlock)
  }

  /** `parseTaglessId` (parser/parser.go:524-531): `#id` is a `div` with a raw id. */
  function PTaglessId(env: Env, ctx: Ctx, st: PState): (r: Result<Step<Node>>)
    ensures r.Ok? ==> Sound(st, r.value.st) && Remaining(ctx, r.value.st) < Remaining(ctx, st)
    ensures r.Ok? ==> Cur(ctx, st).kind == TokId && r.value.value.Tag? && r.value.value.name == "div" &&
                      |r.value.value.attributes| > 0 &&
                      r.value.value.attributes[0] == Attribute("id", Cur(ctx, st).value, true, "")
    decreases ctx.depth, Remaining(ctx, st), 5
  {
    var tok :- Expect(ctx, st, TokId);
    PTagReal(env, ctx, tok.st, "div", [Attribute("id", tok.value.value, true, "")], NoBlock)
  }

  /** The children of a block that may be nil. */
  function Children(b: OptBlock): seq<Node> {
    if b.SomeBlock? then b.children else []
  }

  /** The attributes of an attribute list, in order, none of them guarded. */
  function ListAttributes(ts: seq<Token>): (r: seq<Attribute>)
    ensures |r| == |ts|
    ensures forall i :: 0 <= i < |ts| ==>
              r[i] == Attribute(ts[i].value, Datum(ts[i], "Content"), Datum(ts[i], "Mode") == "raw", "")
  {
    seq(|ts|, i requires 0 <= i < |ts| => Attribute(ts[i].value, Datum(ts[i], "Content"), Datum(ts[i], "Mode") == "raw", ""))
  }

  /** An id, class or attribute token of the header: a guard there is fatal. */
  function HeaderAttribute(t: Token): Attribute {
    if t.kind == TokId then Attribute("id", t.value, true, "")
    else if t.kind == TokClassName then Attribute("class", t.value, true, "")
    else Attribute(t.value, Datum(t, "Content"), Datum(t, "Mode") == "raw", "")
  }

  /**
    `parseTagReal` (parser/parser.go:533-636) on a tag with the given name, attributes and
    block: header attributes are appended; leading text that is not piped, and buffered
    code, go to the front of the block; one semicolon introduces one inline tag, and an
    indented block ends the tag. `readRaw` belongs to the scanner and is left out.
   */
  function PTagReal(env: Env, ctx: Ctx, st: PState, name: string, attrs: seq<Attribute>, block: OptBlock)
    : (r: Result<Step<Node>>)
    ensures r.Ok? ==> Sound(st, r.value.st) && Remaining(ctx, r.value.st) <= Remaining(ctx, st)
    ensures r.Ok? ==> r.value.value.Tag? && r.value.value.name == name
    ensures r.Ok? && |attrs| > 0 ==> |r.value.value.attributes| > 0 && r.value.value.attributes[0] == attrs[0]
    ensures var t := Cur(ctx, st);
            t.kind in {TokId, TokClassName, TokAttribute} && |Datum(t, "Condition")| > 0 ==> r.Err?
    decreases ctx.depth, Remaining(ctx, st), 4
  {
    var t := Cur(ctx, st);
    if t.kind == TokIndent then
      var b :- PBlock(env, ctx, st, true);
      Ok(Step(b.st, Tag(name, attrs + b.value.1, SomeBlock(Children(block) + b.value.0))))
    else if t.kind == TokSemicolon then PInline(env, ctx, Adv(ctx, st), name, attrs, block)
    else if t.kind in {TokId, TokClassName, TokAttribute} then PHeader(env, ctx, st, name, attrs, block)
    else if t.kind == TokAttributeList then PTagReal(env, ctx, Adv(ctx, st), name, attrs + ListAttributes(t.children), block)
    else if t.kind in {TokText, TokBuffered} then PLeading(env, ctx, st, name, attrs, block)
    else Ok(Step(st, Tag(name, attrs, block)))
  }

  /** An id, class or attribute of the tag's header (parser/parser.go:590-616). */
  function PHeader(env: Env, ctx: Ctx, st: PState, name: string, attrs: seq<Attribute>, block: OptBlock)
    : (r: Result<Step<Node>>)
    requires Cur(ctx, st).kind in {TokId, TokClassName, TokAttribute}
    ensures r.Ok? ==> Sound(st, r.value.st) && Remaining(ctx, r.value.st) < Remaining(ctx, st)
    ensures r.Ok? ==> r.value.value.Tag? && r.value.value.name == name
    ensures r.Ok? && |attrs| > 0 ==> |r.value.value.attributes| > 0 && r.value.value.attributes[0] == attrs[0]
    ensures |Datum(Cur(ctx, st), "Condition")| > 0 ==> r.Err?
    decreases ctx.depth, Remaining(ctx, st), 3
  {
    var t := Cur(ctx, st);
    if |Datum(t, "Condition")| > 0 then Err(GuardedHeaderAttribute)
    else PTagReal(env, ctx, Adv(ctx, st), name, attrs + [HeaderAttribute(t)], block)
  }

  /**
    Text that is not piped, or buffered code, right after the header: it goes to the front
    of the tag's block (parser/parser.go:621-631). Piped text ends the tag.
   */
  function PLeading(env: Env, ctx: Ctx, st: PState, name: string, attrs: seq<Attribute>, block: OptBlock)
    : (r: Result<Step<Node>>)
    requires Cur(ctx, st).kind in {TokText, TokBuffered}
    ensures r.Ok? ==> Sound(st, r.value.st) && Remaining(ctx, r.value.st) <= Remaining(ctx, st)
    ensures r.Ok? ==> r.value.value.Tag? && r.value.value.name == name
    ensures r.Ok? && |attrs| > 0 ==> |r.value.value.attributes| > 0 && r.value.value.attributes[0] == attrs[0]
    decreases ctx.depth, Remaining(ctx, st), 3
  {
    var t := Cur(ctx, st);
    if t.kind == TokBuffered then
      var b := PBuffered(ctx, st).value;
      PTagReal(env, ctx, b.st, name, attrs, SomeBlock([b.value] + Children(block)))
    else if Datum(t, "Mode") != "piped" then
      var txt := PText(ctx, st).value;
      PTagReal(env, ctx, txt.st, name, attrs, SomeBlock([txt.value] + Children(block)))
    else Ok(Step(st, Tag(name, attrs, block)))
  }

  /**
    After the semicolon of parser/parser.go:574-589: an inline tag becomes the block of a
    tag that has none yet; a tag that already has a block keeps it and the inline tag is
    parsed and dropped. A semicolon with no tag after it leaves an empty block.
   */
  function PInline(env: Env, ctx: Ctx, st: PState, name: string, attrs: seq<Attribute>, block: OptBlock)
    : (r: Result<Step<Node>>)
    ensures r.Ok? ==> Sound(st, r.value.st) && Remaining(ctx, r.value.st) <= Remaining(ctx, st)
    ensures r.Ok? ==> r.value.value.Tag? && r.value.value.name == name && r.value.value.attributes == attrs &&
                      r.value.value.block.SomeBlock? && (block.SomeBlock? ==> r.value.value.block == block)
    decreases ctx.depth, Remaining(ctx, st), 6
  {
    var k := Cur(ctx, st).kind;
    if k == TokId || k == TokClassName || k == TokTag then
      var inner :- (if k == TokId then PTaglessId(env, ctx, st)
                    else if k == TokClassName then PTaglessClass(env, ctx, st)
                    else PTag(env, ctx, st));
      Ok(Step(inner.st, Tag(name, attrs, if block.NoBlock? then SomeBlock([inner.value]) else block)))
    else
      Ok(Step(st, Tag(name, attrs, if block.NoBlock? then SomeBlock([]) else block)))
  }

  /** `parseMixin` (parser/parser.go:638-648). */
  function PMixin(env: Env, ctx: Ctx, st: PState): (r: Result<Step<Node>>)
    ensures r.Ok? ==> Sound(st, r.value.st) && Remaining(ctx, r.value.st) < Remaining(ctx, st)
    ensures r.Ok? ==> var t := Cur(ctx, st);
                      t.kind == TokMixin && r.value.value.Mixin? && r.value.value.name == t.value &&
                      r.value.value.args == env.mixinArgs(Datum(t, "Args"))
    decreases ctx.depth, Remaining(ctx, st), 5
  {
    var tok :- Expect(ctx, st, TokMixin);
    var b :- POptBlock(env, ctx, tok.st);
    Ok(Step(b.st, Mixin(tok.value.value, env.mixinArgs(Datum(tok.value, "Args")), b.value)))
  }

  /** `parseMixinCall` (parser/parser.go:650-655). */
  function PMixinCall(env: Env, ctx: Ctx, st: PState): (r: Result<Step<Node>>)
    ensures r.Ok? <==> Cur(ctx, st).kind == TokMixinCall
    ensures r.Ok? ==> var t := Cur(ctx, st);
                      r.value == Step(Adv(ctx, st), MixinCall(t.value, env.callArgs(Datum(t, "Args"))))
  {
    var tok :- Expect(ctx, st, TokMixinCall);
    Ok(Step(tok.st, MixinCall(tok.value.value, env.callArgs(Datum(tok.value, "Args")))))
  }

  // ---------------------------------------------------------------------------------
  // Properties of the grammar

  /**
    `else if` nests the inner condition as the only child of the negative branch
    (parser/parser.go:385-389), when no further branch follows it.
   */
  lemma ElseIfNests(env: Env, ctx: Ctx, st: PState, e: string, positive: OptBlock, negative: OptBlock)
    requires Cur(ctx, st).kind == TokElse && Cur(ctx, Adv(ctx, st)).kind == TokIf
    requires PIf(env, ctx, Adv(ctx, st)).Ok?
    ensures var inner := PIf(env, ctx, Adv(ctx, st)).value;
            PIfMore(env, ctx, st, e, positive, negative) ==
              Ok(Step(inner.st, Condition(e, positive, SomeBlock([inner.value]))))
  {
    PIfStops(env, ctx, Adv(ctx, st));
  }

  /**
    A condition ends only where neither an indented block nor an `else` follows: the
    `readmore` loop of parser/parser.go:380-396 has consumed all of them.
   */
  lemma {:induction false} PIfMoreStops(env: Env, ctx: Ctx, st: PState, e: string, positive: OptBlock, negative: OptBlock)
    ensures var r := PIfMore(env, ctx, st, e, positive, negative);
            r.Ok? ==> Cur(ctx, r.value.st).kind !in {TokIndent, TokElse}
    decreases Remaining(ctx, st)
  {
    var t := Cur(ctx, st);
    if t.kind == TokIndent {
      var b := PBlock(env, ctx, st, false);
      if b.Ok? {
        PIfMoreStops(env, ctx, b.value.st, e, SomeBlock(b.value.value.0), negative);
      }
    } else if t.kind == TokElse {
      var n := PElse(env, ctx, Adv(ctx, st));
      if n.Ok? {
        PIfMoreStops(env, ctx, n.value.st, e, positive, n.value.value);
      }
    }
  }

  /** The same for a whole `if` (parser/parser.go:375-399). */
  lemma PIfStops(env: Env, ctx: Ctx, st: PState)
    ensures var r := PIf(env, ctx, st);
            r.Ok? ==> Cur(ctx, r.value.st).kind !in {TokIndent, TokElse}
  {
    var tok := Expect(ctx, st, TokIf);
    if tok.Ok? {
      PIfMoreStops(env, ctx, tok.value.st, tok.value.value.value, NoBlock, NoBlock);
    }
  }

  /** `else` followed by neither `if` nor an indented block is fatal (parser/parser.go:385-394). */
  lemma BareElseFails(env: Env, ctx: Ctx, st: PState, e: string, positive: OptBlock, negative: OptBlock)
    requires Cur(ctx, st).kind == TokElse && Cur(ctx, Adv(ctx, st)).kind !in {TokIf, TokIndent}
    ensures PIfMore(env, ctx, st, e, positive, negative).Err?
  {
  }

  /**
    An attribute token directly inside the block of a tag is one more attribute of the
    tag, guard included, and not a child (parser/parser.go:346-364).
   */
  lemma BlockAttributeJoinsTag(env: Env, ctx: Ctx, st: PState, children: seq<Node>, attrs: seq<Attribute>)
    requires Cur(ctx, st).kind == TokAttribute
    ensures PItems(env, ctx, st, true, children, attrs) ==
            PItems(env, ctx, Adv(ctx, st), true, children, attrs + [BlockAttribute(Cur(ctx, st))])
  {
  }

  /** An attribute list in a tag's header adds its attributes to the tag (parser/parser.go:617-624). */
  lemma AttributeListStep(env: Env, ctx: Ctx, st: PState, name: string, attrs: seq<Attribute>, block: OptBlock)
    requires Cur(ctx, st).kind == TokAttributeList
    ensures PTagReal(env, ctx, st, name, attrs, block) ==
            PTagReal(env, ctx, Adv(ctx, st), name, attrs + ListAttributes(Cur(ctx, st).children), block)
  {
  }

  /** An unguarded id, class or attribute in a tag's header adds one attribute (parser/parser.go:590-616). */
  lemma HeaderAttributeStep(env: Env, ctx: Ctx, st: PState, name: string, attrs: seq<Attribute>, block: OptBlock)
    requires Cur(ctx, st).kind in {TokId, TokClassName, TokAttribute} && |Datum(Cur(ctx, st), "Condition")| == 0
    ensures PTagReal(env, ctx, st, name, attrs, block) ==
            PTagReal(env, ctx, Adv(ctx, st), name, attrs + [HeaderAttribute(Cur(ctx, st))], block)
  {
    assert PTagReal(env, ctx, st, name, attrs, block) == PHeader(env, ctx, st, name, attrs, block);
  }

  /**
    Text that is not piped, and buffered code, go to the front of the tag's block, ahead
    of what an earlier one put there (parser/parser.go:621-631).
   */
  lemma LeadingGoesFirst(env: Env, ctx: Ctx, st: PState, name: string, attrs: seq<Attribute>, block: OptBlock)
    requires Cur(ctx, st).kind == TokBuffered || (Cur(ctx, st).kind == TokText && Datum(Cur(ctx, st), "Mode") != "piped")
    ensures var t := Cur(ctx, st);
            var n := if t.kind == TokBuffered then Buffered(t.value, Datum(t, "Mode") == "escaped")
                     else Text(t.value, Datum(t, "Mode") == "raw");
            PTagReal(env, ctx, st, name, attrs, block) ==
              PTagReal(env, ctx, Adv(ctx, st), name, attrs, SomeBlock([n] + Children(block)))
  {
  }

  /**
    The merge changes only the parent's named blocks whose names the child also
    defines (parser/parser.go:114-139): every other cell is left as it was.
   */
  lemma MergeKeepsOthers(cells: seq<Cell>, parent: map<string, nat>, ours: map<string, nat>, i: nat)
    requires i < |cells|
    requires i !in parent.Values || cells[i].name !in ours
    ensures Merge(cells, parent, ours)[i] == cells[i]
  {
  }

  /**
    A parent's block that the child redefines becomes the combination of the two, by the
    child's modifier (parser/parser.go:120-134).
   */
  lemma MergeCombines(cells: seq<Cell>, parent: map<string, nat>, ours: map<string, nat>, k: string)
    requires k in parent && parent[k] < |cells| && cells[parent[k]].name in ours
    requires ours[cells[parent[k]].name] < |cells|
    ensures Merge(cells, parent, ours)[parent[k]] ==
            Combine(cells[parent[k]], cells[ours[cells[parent[k]].name]])
  {
  }

  /**
    With a parent, `Parse` returns the parent's root over the cells in which this file's
    named blocks have been merged into the parent's (parser/parser.go:114-139); this
    file's own table is kept.
   */
  lemma PParseMerges(env: Env, ctx: Ctx, cells: seq<Cell>)
    ensures var top := PTop(env, ctx, Init(cells), []);
            top.Ok? && top.value.st.parent.Some? ==>
              var st, p := top.value.st, top.value.st.parent.value;
              PParse(env, ctx, cells) == Ok(Step(st.(cells := Merge(st.cells, p.table, st.table)), p.root))
  {
  }

  /**
    So a parent's block that this file redefines reads, in what `Parse` returns, as the
    combination of the two by this file's modifier (parser/parser.go:120-134), and every
    other cell is the one the top-level parse left.
   */
  lemma PParseCombines(env: Env, ctx: Ctx, cells: seq<Cell>, k: string, i: nat)
    requires var top := PTop(env, ctx, Init(cells), []); top.Ok? && top.value.st.parent.Some?
    ensures var st := PTop(env, ctx, Init(cells), []).value.st;
            var p, out := st.parent.value, PParse(env, ctx, cells).value.st.cells;
            (k in p.table && p.table[k] < |st.cells| && st.cells[p.table[k]].name in st.table &&
             st.table[st.cells[p.table[k]].name] < |st.cells| ==>
               out[p.table[k]] == Combine(st.cells[p.table[k]], st.cells[st.table[st.cells[p.table[k]].name]])) &&
            (i < |st.cells| && (i !in p.table.Values || st.cells[i].name !in st.table) ==> out[i] == st.cells[i])
  {
    var st := PTop(env, ctx, Init(cells), []).value.st;
    var p := st.parent.value;
    PParseMerges(env, ctx, cells);
    if k in p.table && p.table[k] < |st.cells| && st.cells[p.table[k]].name in st.table &&
       st.table[st.cells[p.table[k]].name] < |st.cells| {
      MergeCombines(st.cells, p.table, st.table, k);
    }
    if i < |st.cells| && (i !in p.table.Values || st.cells[i].name !in st.table) {
      MergeKeepsOthers(st.cells, p.table, st.table, i);
    }
  }

  /** An attribute token directly inside a block that is not a tag's is fatal (parser/parser.go:346-352). */
  lemma BlockAttributeOutsideTagFails(env: Env, ctx: Ctx, st: PState, children: seq<Node>, attrs: seq<Attribute>)
    requires Cur(ctx, st).kind == TokAttribute
    ensures PItems(env, ctx, st, false, children, attrs).Err?
  {
  }
}
