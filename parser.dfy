/**
  The parser of parser/parser.go as an object that consumes its tokens by advancing a
  cursor and records named blocks as it goes. Every method is proved to end in the state,
  and to return the node, that the corresponding function of the grammar module computes
  from the state it started in; a method fails exactly when the function does.

  Named blocks live in a `BlockStore` shared by the parser of a file and every parser it
  starts for an `extends` or an `import`, so that the merge of a child template can
  rewrite, in place, the blocks its parent put into its tree. A tag being parsed is a
  local value of `ParseTagReal`; the attributes that `parseBlock` adds to it are returned
  by `ParseBlock` and appended there.
 */
module Parsing {
  import opened Wrappers
  import opened Nodes
  import opened Grammar

  /** The result of a method agrees with the result of its grammar function. */
  ghost predicate Agrees<T>(r: Result<T>, spec: Result<Step<T>>, st: PState) {
    (r.Ok? <==> spec.Ok?) && (r.Ok? ==> r.value == spec.value.value && st == spec.value.st)
  }

  /** The named blocks (`*NamedBlock`) of one parse, each known by its index. */
  class BlockStore {
    var cells: seq<Cell>

    constructor ()
      ensures cells == []
    {
      cells := [];
    }

    /** A new named block. */
    method Alloc(c: Cell) returns (id: nat)
      modifies this
      ensures id == |old(cells)| && cells == old(cells) + [c]
    {
      id := |cells|;
      cells := cells + [c];
    }

    /** `push`: one more child at the end of block `id`. */
    method Push(id: nat, n: Node)
      requires id < |cells|
      modifies this
      ensures cells == old(cells)[id := old(cells)[id].(children := old(cells)[id].children + [n])]
    {
      cells := cells[id := cells[id].(children := cells[id].children + [n])];
    }

    /** `pushFront`: one more child at the front of block `id`. */
    method PushFront(id: nat, n: Node)
      requires id < |cells|
      modifies this
      ensures cells == old(cells)[id := old(cells)[id].(children := [n] + old(cells)[id].children)]
    {
      cells := cells[id := cells[id].(children := [n] + cells[id].children)];
    }

    /** `prev.Children = ours.Children`. */
    method SetChildren(id: nat, cs: seq<Node>)
      requires id < |cells|
      modifies this
      ensures cells == old(cells)[id := old(cells)[id].(children := cs)]
    {
      cells := cells[id := cells[id].(children := cs)];
    }

    /** The append loop of parser/parser.go:124-127: `cs` pushed one by one, in order. */
    method AppendAll(id: nat, cs: seq<Node>)
      requires id < |cells|
      modifies this
      ensures cells == old(cells)[id := old(cells)[id].(children := old(cells)[id].children + cs)]
    {
      var i := 0;
      assert old(cells)[id].children + cs[..0] == old(cells)[id].children;
      assert cells == cells[id := cells[id]];
      while i < |cs|
        invariant 0 <= i <= |cs|
        invariant cells == old(cells)[id := old(cells)[id].(children := old(cells)[id].children + cs[..i])]
      {
        Push(id, cs[i]);
        assert old(cells)[id].children + cs[..i] + [cs[i]] == old(cells)[id].children + cs[..i + 1];
        i := i + 1;
      }
      assert cs[..i] == cs;
    }

    /**
      The prepend loop of parser/parser.go:128-131: `cs` pushed to the front from the last
      to the first, so that it ends up in front in its own order.
     */
    method PrependAll(id: nat, cs: seq<Node>)
      requires id < |cells|
      modifies this
      ensures cells == old(cells)[id := old(cells)[id].(children := cs + old(cells)[id].children)]
    {
      var i := |cs|;
      assert cs[|cs|..] + old(cells)[id].children == old(cells)[id].children;
      assert cells == cells[id := cells[id]];
      while i > 0
        invariant 0 <= i <= |cs|
        invariant cells == old(cells)[id := old(cells)[id].(children := cs[i..] + old(cells)[id].children)]
      {
        i := i - 1;
        PushFront(id, cs[i]);
        assert [cs[i]] + (cs[i + 1..] + old(cells)[id].children) == cs[i..] + old(cells)[id].children;
      }
    }
  }

  /**
    One step of the merge: the parent's cell `i` combined with the child's cell of the
    same name, neither of them merged yet.
   */
  lemma MergeOverStep(c0: seq<Cell>, done: set<nat>, ours: map<string, nat>, i: nat)
    requires i < |c0| && i !in done
    requires c0[i].name in ours ==> ours[c0[i].name] < |c0| && ours[c0[i].name] !in done
    ensures var cur := MergeOver(c0, done, ours);
            MergeOver(c0, done + {i}, ours) ==
              if c0[i].name in ours then cur[i := Combine(cur[i], cur[ours[c0[i].name]])] else cur
  {
  }

  /**
    The merge loop's state: the parent's names still to visit are exactly those whose
    cells are not merged yet.
   */
  predicate Pending(t: map<string, nat>, keys: set<string>, done: set<nat>) {
    keys <= t.Keys && done <= t.Values && forall k :: k in t ==> (k in keys <==> t[k] !in done)
  }

  /** Visiting the parent's name `k` marks its cell, and only that cell, as merged. */
  lemma ForgetKey(t: map<string, nat>, c0: seq<Cell>, keys: set<string>, done: set<nat>, k: string)
    requires Names(t, c0) && k in keys && Pending(t, keys, done)
    ensures Pending(t, keys - {k}, done + {t[k]})
  {
    forall k' | k' in t ensures k' in keys - {k} <==> t[k'] !in done + {t[k]} {
      if k' != k {
        assert c0[t[k']].name == k' && c0[t[k]].name == k;
      }
    }
  }

  lemma MergedAll(c0: seq<Cell>, t: map<string, nat>, ours: map<string, nat>, done: set<nat>)
    requires Pending(t, {}, done)
    ensures done == t.Values && MergeOver(c0, done, ours) == Merge(c0, t, ours)
  {
    forall x | x in t.Values ensures x in done {
      var k :| k in t && t[k] == x;
    }
  }

  class Parser {
    const env: Env
    const tokens: seq<Token>
    const filename: string
    /** How many nested files this parser may still open. */
    const depth: nat
    const store: BlockStore
    var pos: nat
    var namedBlocks: map<string, nat>
    var parent: Parser?
    var result: Option<Node>

    /** `newParser` with the scanner's tokens of one file (parser/parser.go:29-34). */
    constructor (env: Env, tokens: seq<Token>, filename: string, depth: nat, store: BlockStore)
      ensures this.env == env && this.tokens == tokens && this.filename == filename
      ensures this.depth == depth && this.store == store
      ensures Unparsed() && Valid()
    {
      this.env := env;
      this.tokens := tokens;
      this.filename := filename;
      this.depth := depth;
      this.store := store;
      pos := 0;
      namedBlocks := map[];
      parent := null;
      result := None;
    }

    function Context(): Ctx {
      Ctx(tokens, filename, depth)
    }

    /** The parser's fields as the grammar sees them. */
    function State(): PState
      reads this, parent, store
    {
      PState(pos, namedBlocks,
             if parent == null then None
             else Some(Parent(parent.namedBlocks, if parent.result.Some? then parent.result.value else Block([]))),
             store.cells)
    }

    /** A parent is another parser over the same store, already parsed. */
    predicate Valid()
      reads this, parent
    {
      parent != null ==> parent != this && parent.store == store && parent.result.Some? && parent.depth < depth
    }

    /** Nothing read yet. */
    predicate Unparsed()
      reads this
    {
      pos == 0 && namedBlocks == map[] && parent == null && result.None?
    }

    function Current(): (t: Token)
      reads this
    {
      if pos < |tokens| then tokens[pos] else EofToken
    }

    /** `advance` (parser/parser.go:301-303). */
    method Advance()
      requires Valid()
      modifies this
      ensures Valid() && State() == Adv(Context(), old(State()))
      ensures parent == old(parent) && result == old(result)
    {
      if pos < |tokens| {
        pos := pos + 1;
      }
    }

    /** `expect` (parser/parser.go:283-290). */
    method Expect(k: Kind) returns (r: Result<Token>)
      requires Valid()
      modifies this
      ensures Valid() && parent == old(parent) && result == old(result)
      ensures Agrees(r, Grammar.Expect(Context(), old(State()), k), State())
    {
      var t := Current();
      if t.kind != k {
        return Err(UnexpectedToken);
      }
      Advance();
      return Ok(t);
    }

    /** `expectOneOf` (parser/parser.go:292-299). */
    method ExpectOneOf(k: Kind, k': Kind) returns (r: Result<Token>)
      requires Valid()
      modifies this
      ensures Valid() && parent == old(parent) && result == old(result)
      ensures r.Ok? <==> Cur(Context(), old(State())).kind in {k, k'}
      ensures r.Ok? ==> r.value == Cur(Context(), old(State())) && State() == Adv(Context(), old(State()))
    {
      var t := Current();
      if t.kind != k && t.kind != k' {
        return Err(UnexpectedToken);
      }
      Advance();
      return Ok(t);
    }

    /**
      `Parse` (parser/parser.go:73-143): the first call parses and merges, every later call
      returns the same result without touching anything.
     */
    method Parse() returns (r: Result<Node>)
      requires result.Some? || Unparsed()
      modifies if result.None? then {this, store} else {}
      ensures old(result).None? ==> Valid()
      ensures old(result).Some? ==> r == Ok(old(result).value) && unchanged(this, store)
      ensures old(result).None? ==> Agrees(r, PParse(env, Context(), old(store.cells)), State())
      ensures r.Ok? ==> result == Some(r.value)
      decreases depth, |tokens|, 10
    {
      if result.Some? {
        return Ok(result.value);
      }
      assert State() == Init(store.cells);
      var top := ParseTop();
      if top.Err? {
        return Err(top.msg);
      }
      if parent == null {
        result := Some(Block(top.value));
        return Ok(Block(top.value));
      }
      var root := parent.Parse();
      InvSeparate(State());
      MergeIntoParent();
      result := Some(root.value);
      return Ok(root.value);
    }

    /** The loop of parser/parser.go:101-112. */
    method ParseTop() returns (r: Result<seq<Node>>)
      requires Valid()
      modifies this, store
      ensures Valid() && result == old(result)
      ensures Agrees(r, PTop(env, Context(), old(State()), []), State())
      decreases depth, Remaining(Context(), State()), 8
    {
      ghost var spec := PTop(env, Context(), State(), []);
      var children := [];
      while true
        invariant Valid() && result == old(result)
        invariant PTop(env, Context(), State(), children) == spec
        invariant Remaining(Context(), State()) <= Remaining(Context(), old(State()))
        decreases Remaining(Context(), State())
      {
        var t := Current();
        if t.kind == TokEOF {
          return Ok(children);
        }
        if t.kind == TokBlank {
          Advance();
        } else if t.kind == TokOutdent {
          return Err(TopLevelOutdent);
        } else {
          var n := ParseNode();
          if n.Err? {
            return Err(n.msg);
          }
          children := children + [n.value];
        }
      }
    }

    /**
      The merge of parser/parser.go:114-137: every named block of the parent, visited in
      any order, combines with this file's block of the same name.
     */
    method MergeIntoParent()
      requires parent != null && Separate(parent.namedBlocks, namedBlocks, store.cells)
      modifies store
      ensures store.cells == Merge(old(store.cells), parent.namedBlocks, namedBlocks)
    {
      ghost var c0 := store.cells;
      ghost var t := parent.namedBlocks;
      ghost var ours := namedBlocks;
      var keys := parent.namedBlocks.Keys;
      ghost var done: set<nat> := {};
      while keys != {}
        invariant Pending(t, keys, done)
        invariant store.cells == MergeOver(c0, done, ours)
        decreases keys
      {
        var k :| k in keys;
        done := MergeKey(c0, t, ours, keys, done, k);
        keys := keys - {k};
      }
      MergedAll(c0, t, ours, done);
    }

    /** One iteration of the merge: the parent's block named `k`, which is not merged yet. */
    method MergeKey(ghost c0: seq<Cell>, ghost t: map<string, nat>, ghost ours: map<string, nat>,
                    ghost keys: set<string>, ghost done: set<nat>, k: string)
      returns (ghost done': set<nat>)
      requires parent != null && t == parent.namedBlocks && ours == namedBlocks && Separate(t, ours, c0)
      requires k in keys && Pending(t, keys, done)
      requires store.cells == MergeOver(c0, done, ours)
      modifies store
      ensures done' == done + {t[k]} && Pending(t, keys - {k}, done')
      ensures store.cells == MergeOver(c0, done', ours)
    {
      var i := parent.namedBlocks[k];
      MergeBlock(i);
      MergeOverStep(c0, done, ours, i);
      ForgetKey(t, c0, keys, done, k);
      done' := done + {i};
    }

    /** The merge of the parent's cell `i` (parser/parser.go:115-136). */
    method MergeBlock(i: nat)
      requires i < |store.cells|
      requires var c := store.cells; c[i].name in namedBlocks ==> namedBlocks[c[i].name] < |c|
      modifies store
      ensures var c := old(store.cells);
              store.cells == if c[i].name in namedBlocks then c[i := Combine(c[i], c[namedBlocks[c[i].name]])] else c
    {
      var prev := store.cells[i];
      if prev.name in namedBlocks {
        var ours := store.cells[namedBlocks[prev.name]];
        match ours.modifier
        case Append => store.AppendAll(i, ours.children);
        case Prepend => store.PrependAll(i, ours.children);
        case Default => store.SetChildren(i, ours.children);
      }
    }

    /** `parse` (parser/parser.go:230-281). */
    method ParseNode() returns (r: Result<Node>)
      requires Valid()
      modifies this, store
      ensures Valid() && result == old(result)
      ensures Agrees(r, PNode(env, Context(), old(State())), State())
      decreases depth, Remaining(Context(), State()), 6
    {
      match Current().kind
      case TokDoctype => r := ParseDoctype();
      case TokComment => r := ParseComment();
      case TokText => r := ParseText();
      case TokIf => r := ParseIf();
      case TokUnless => r := ParseUnless();
      case TokEach => r := ParseEach();
      case TokImport => r := ParseImport();
      case TokTag => r := ParseTag();
      case TokClassName => r := ParseTaglessClass();
      case TokId => r := ParseTaglessId();
      case TokBuffered => r := ParseBuffered();
      case TokAssignment => r := ParseAssignment();
      case TokNamedBlock => r := ParseNamedBlock();
      case TokExtends => r := ParseExtends();
      case TokIndent =>
        var b := ParseBlock(false);
        if b.Err? {
          return Err(b.msg);
        }
        r := Ok(Block(b.value.0));
      case TokMixin => r := ParseMixin();
      case TokMixinCall => r := ParseMixinCall();
      case TokNewLine =>
        Advance();
        r := ParseNode();
      case TokOutdent => r := Ok(Block([]));
      case _ => r := Err(UnexpectedToken);
    }

    /** `parseBlock` (parser/parser.go:322-373); `inTag` says whether the parent is a tag. */
    method ParseBlock(inTag: bool) returns (r: Result<(seq<Node>, seq<Attribute>)>)
      requires Valid()
      modifies this, store
      ensures Valid() && result == old(result)
      ensures Agrees(r, PBlock(env, Context(), old(State()), inTag), State())
      decreases depth, Remaining(Context(), State()), 2
    {
      var head := ExpectOneOf(TokIndent, TokSemicolon);
      if head.Err? {
        return Err(head.msg);
      }
      ghost var spec := PItems(env, Context(), State(), inTag, [], []);
      var children, attrs := [], [];
      while true
        invariant Valid() && result == old(result)
        invariant PItems(env, Context(), State(), inTag, children, attrs) == spec
        invariant Remaining(Context(), State()) < Remaining(Context(), old(State()))
        decreases Remaining(Context(), State())
      {
        var t := Current();
        if t.kind == TokEOF || t.kind == TokOutdent {
          break;
        }
        if t.kind == TokBlank {
          Advance();
        } else if t.kind == TokAttribute {
          if !inTag {
            return Err(BlockAttributeOutside);
          }
          Advance();
          attrs := attrs + [BlockAttribute(t)];
        } else {
          var n := ParseNode();
          if n.Err? {
            return Err(n.msg);
          }
          children := children + [n.value];
        }
      }
      var tail := ExpectOneOf(TokOutdent, TokEOF);
      return Ok((children, attrs));
    }

    /** An indented block if one follows, as parseEach, parseComment and parseMixin read one. */
    method ParseOptBlock() returns (r: Result<OptBlock>)
      requires Valid()
      modifies this, store
      ensures Valid() && result == old(result)
      ensures Agrees(r, POptBlock(env, Context(), old(State())), State())
      decreases depth, Remaining(Context(), State()), 3
    {
      if Current().kind == TokIndent {
        var b := ParseBlock(false);
        if b.Err? {
          return Err(b.msg);
        }
        return Ok(SomeBlock(b.value.0));
      }
      return Ok(NoBlock);
    }

    /** `parseIf` (parser/parser.go:375-399). */
    method ParseIf() returns (r: Result<Node>)
      requires Valid()
      modifies this, store
      ensures Valid() && result == old(result)
      ensures Agrees(r, PIf(env, Context(), old(State())), State())
      decreases depth, Remaining(Context(), State()), 5
    {
      var tok := Expect(TokIf);
      if tok.Err? {
        return Err(tok.msg);
      }
      var e := tok.value.value;
      var positive, negative := NoBlock, NoBlock;
      ghost var spec := PIfMore(env, Context(), State(), e, positive, negative);
      while true
        invariant Valid() && result == old(result)
        invariant PIfMore(env, Context(), State(), e, positive, negative) == spec
        invariant Remaining(Context(), State()) < Remaining(Context(), old(State()))
        decreases Remaining(Context(), State())
      {
        var k := Current().kind;
        if k == TokIndent {
          var b := ParseBlock(false);
          if b.Err? {
            return Err(b.msg);
          }
          positive := SomeBlock(b.value.0);
        } else if k == TokElse {
          Advance();
          var n := ParseElse();
          if n.Err? {
            return Err(n.msg);
          }
          negative := n.value;
        } else {
          return Ok(Condition(e, positive, negative));
        }
      }
    }

    /** The branch after an `else` (parser/parser.go:385-394). */
    method ParseElse() returns (r: Result<OptBlock>)
      requires Valid()
      modifies this, store
      ensures Valid() && result == old(result)
      ensures Agrees(r, PElse(env, Context(), old(State())), State())
      decreases depth, Remaining(Context(), State()), 6
    {
      var k := Current().kind;
      if k == TokIf {
        var inner := ParseIf();
        if inner.Err? {
          return Err(inner.msg);
        }
        return Ok(SomeBlock([inner.value]));
      } else if k == TokIndent {
        var b := ParseBlock(false);
        if b.Err? {
          return Err(b.msg);
        }
        return Ok(SomeBlock(b.value.0));
      }
      return Err(UnexpectedToken);
    }

    /** `parseUnless` (parser/parser.go:401-414). */
    method ParseUnless() returns (r: Result<Node>)
      requires Valid()
      modifies this, store
      ensures Valid() && result == old(result)
      ensures Agrees(r, PUnless(env, Context(), old(State())), State())
      decreases depth, Remaining(Context(), State()), 5
    {
      var tok := Expect(TokUnless);
      if tok.Err? {
        return Err(tok.msg);
      }
      var e := "!(" + tok.value.value + ")";
      var positive := NoBlock;
      ghost var spec := PUnlessMore(env, Context(), State(), e, positive);
      while Current().kind == TokIndent
        invariant Valid() && result == old(result)
        invariant PUnlessMore(env, Context(), State(), e, positive) == spec
        invariant Remaining(Context(), State()) < Remaining(Context(), old(State()))
        decreases Remaining(Context(), State())
      {
        var b := ParseBlock(false);
        if b.Err? {
          return Err(b.msg);
        }
        positive := SomeBlock(b.value.0);
      }
      return Ok(Condition(e, positive, NoBlock));
    }

    /** `parseEach` (parser/parser.go:416-428). */
    method ParseEach() returns (r: Result<Node>)
      requires Valid()
      modifies this, store
      ensures Valid() && result == old(result)
      ensures Agrees(r, PEach(env, Context(), old(State())), State())
      decreases depth, Remaining(Context(), State()), 5
    {
      var tok := Expect(TokEach);
      if tok.Err? {
        return Err(tok.msg);
      }
      var b := ParseOptBlock();
      if b.Err? {
        return Err(b.msg);
      }
      return Ok(Each(Datum(tok.value, "X"), Datum(tok.value, "Y"), tok.value.value, b.value));
    }

    /** `parseRelativeFile` (parser/parser.go:151-172): a new parser over the same store. */
    method ParseRelativeFile(target: string) returns (r: Result<Parser>)
      ensures r.Ok? <==> RelativeFile(env, Context(), target).Ok?
      ensures r.Ok? ==> fresh(r.value) && r.value.Context() == RelativeFile(env, Context(), target).value &&
                        r.value.env == env && r.value.store == store && r.value.Unparsed() && r.value.Valid()
    {
      var name :- TargetName(env, filename, target);
      if name !in env.files {
        return Err(UnreadableFile(name));
      }
      if depth == 0 {
        return Err(TooDeep);
      }
      var p := new Parser(env, env.files[name], name, depth - 1, store);
      return Ok(p);
    }

    /** `parseRelativeFile(target).Parse()`: a new parser over the same store, parsed in full. */
    method ParseFile(target: string) returns (r: Result<Parser>)
      modifies store
      ensures var spec := PFile(env, Context(), old(State()), target);
              (r.Ok? <==> spec.Ok?) &&
              (r.Ok? ==> fresh(r.value) && r.value.store == store && r.value.depth < depth && r.value.Valid() &&
                         r.value.result == Some(spec.value.value) && r.value.State() == spec.value.st)
      ensures pos == old(pos) && namedBlocks == old(namedBlocks)
      decreases depth, Remaining(Context(), State()), 4
    {
      var sub := ParseRelativeFile(target);
      if sub.Err? {
        return Err(sub.msg);
      }
      var node := sub.value.Parse();
      if node.Err? {
        return Err(node.msg);
      }
      return Ok(sub.value);
    }

    /** `parseImport` (parser/parser.go:430-435). */
    method ParseImport() returns (r: Result<Node>)
      requires Valid()
      modifies this, store
      ensures Valid() && result == old(result)
      ensures Agrees(r, PImport(env, Context(), old(State())), State())
      decreases depth, Remaining(Context(), State()), 5
    {
      var tok := Expect(TokImport);
      if tok.Err? {
        return Err(tok.msg);
      }
      var sub := ParseFile(tok.value.value);
      if sub.Err? {
        return Err(sub.msg);
      }
      return Ok(sub.value.result.value);
    }

    /** `parseExtends` (parser/parser.go:305-320). */
    method ParseExtends() returns (r: Result<Node>)
      requires Valid()
      modifies this, store
      ensures Valid() && result == old(result)
      ensures Agrees(r, PExtends(env, Context(), old(State())), State())
      decreases depth, Remaining(Context(), State()), 5
    {
      if parent != null {
        return Err(MultipleExtends);
      }
      var tok := Expect(TokExtends);
      if tok.Err? {
        return Err(tok.msg);
      }
      var sub := ParseFile(tok.value.value);
      if sub.Err? {
        return Err(sub.msg);
      }
      parent := sub.value;
      return Ok(Block([]));
    }

    /** `parseNamedBlock` (parser/parser.go:437-464). */
    method ParseNamedBlock() returns (r: Result<Node>)
      requires Valid()
      modifies this, store
      ensures Valid() && result == old(result)
      ensures Agrees(r, PNamedBlock(env, Context(), old(State())), State())
      decreases depth, Remaining(Context(), State()), 5
    {
      var tok := Expect(TokNamedBlock);
      if tok.Err? {
        return Err(tok.msg);
      }
      var name := tok.value.value;
      if name in namedBlocks {
        return Err(Redefined(name));
      }
      var m := ModifierOf(Datum(tok.value, "Modifier"));
      var children := ParseNamedBody();
      if children.Err? {
        return Err(children.msg);
      }
      var id := store.Alloc(Cell(name, m, children.value));
      namedBlocks := namedBlocks[name := id];
      if m == Default {
        return Ok(Slot(id));
      }
      return Ok(Block([]));
    }

    /** The body of `parseNamedBlock`: a block if an indent follows (parser/parser.go:458-460). */
    method ParseNamedBody() returns (r: Result<seq<Node>>)
      requires Valid()
      modifies this, store
      ensures Valid() && result == old(result)
      ensures Agrees(r, PNamedBody(env, Context(), old(State())), State())
      decreases depth, Remaining(Context(), State()), 4
    {
      if Current().kind != TokIndent {
        return Ok([]);
      }
      var b := ParseBlock(false);
      if b.Err? {
        return Err(b.msg);
      }
      return Ok(b.value.0);
    }

    /** `parseDoctype` (parser/parser.go:466-471). */
    method ParseDoctype() returns (r: Result<Node>)
      requires Valid()
      modifies this
      ensures Valid() && result == old(result)
      ensures Agrees(r, PDoctype(Context(), old(State())), State())
    {
      var tok := Expect(TokDoctype);
      if tok.Err? {
        return Err(tok.msg);
      }
      return Ok(Doctype(tok.value.value));
    }

    /** `parseComment` (parser/parser.go:473-484). */
    method ParseComment() returns (r: Result<Node>)
      requires Valid()
      modifies this, store
      ensures Valid() && result == old(result)
      ensures Agrees(r, PComment(env, Context(), old(State())), State())
      decreases depth, Remaining(Context(), State()), 5
    {
      var tok := Expect(TokComment);
      if tok.Err? {
        return Err(tok.msg);
      }
      var b := ParseOptBlock();
      if b.Err? {
        return Err(b.msg);
      }
      return Ok(Comment(tok.value.value, Datum(tok.value, "Mode") == "silent", b.value));
    }

    /** `parseText` (parser/parser.go:486-491). */
    method ParseText() returns (r: Result<Node>)
      requires Valid()
      modifies this
      ensures Valid() && result == old(result)
      ensures Agrees(r, PText(Context(), old(State())), State())
    {
      var tok := Expect(TokText);
      if tok.Err? {
        return Err(tok.msg);
      }
      return Ok(Text(tok.value.value, Datum(tok.value, "Mode") == "raw"));
    }

    /** `parseBuffered` (parser/parser.go:493-498). */
    method ParseBuffered() returns (r: Result<Node>)
      requires Valid()
      modifies this
      ensures Valid() && result == old(result)
      ensures Agrees(r, PBuffered(Context(), old(State())), State())
    {
      var tok := Expect(TokBuffered);
      if tok.Err? {
        return Err(tok.msg);
      }
      return Ok(Buffered(tok.value.value, Datum(tok.value, "Mode") == "escaped"));
    }

    /** `parseAssignment` (parser/parser.go:500-505). */
    method ParseAssignment() returns (r: Result<Node>)
      requires Valid()
      modifies this
      ensures Valid() && result == old(result)
      ensures Agrees(r, PAssignment(Context(), old(State())), State())
    {
      var tok := Expect(TokAssignment);
      if tok.Err? {
        return Err(tok.msg);
      }
      return Ok(Assignment(Datum(tok.value, "X"), tok.value.value));
    }

    /** `parseTag` (parser/parser.go:507-513). */
    method ParseTag() returns (r: Result<Node>)
      requires Valid()
      modifies this, store
      ensures Valid() && result == old(result)
      ensures Agrees(r, PTag(env, Context(), old(State())), State())
      decreases depth, Remaining(Context(), State()), 5
    {
      var tok := Expect(TokTag);
      if tok.Err? {
        return Err(tok.msg);
      }
      r := ParseTagReal(tok.value.value, [], NoBlock);
    }

    /** `parseTaglessClass` (parser/parser.go:515-522). */
    method ParseTaglessClass() returns (r: Result<Node>)
      requires Valid()
      modifies this, store
      ensures Valid() && result == old(result)
      ensures Agrees(r, PTaglessClass(env, Context(), old(State())), State())
      decreases depth, Remaining(Context(), State()), 5
    {
      var tok := Expect(TokClassName);
      if tok.Err? {
        return Err(tok.msg);
      }
      r := ParseTagReal("div", [Attribute("class", tok.value.value, true, "")], NoBlock);
    }

    /** `parseTaglessId` (parser/parser.go:524-531). */
    method ParseTaglessId() returns (r: Result<Node>)
      requires Valid()
      modifies this, store
      ensures Valid() && result == old(result)
      ensures Agrees(r, PTaglessId(env, Context(), old(State())), State())
      decreases depth, Remaining(Context(), State()), 5
    {
      var tok := Expect(TokId);
      if tok.Err? {
        return Err(tok.msg);
      }
      r := ParseTagReal("div", [Attribute("id", tok.value.value, true, "")], NoBlock);
    }

    /** `parseTagReal` (parser/parser.go:533-636) on the tag `name` with `attrs0` and `block0`. */
    method ParseTagReal(name: string, attrs0: seq<Attribute>, block0: OptBlock) returns (r: Result<Node>)
      requires Valid()
      modifies this, store
      ensures Valid() && result == old(result)
      ensures Agrees(r, PTagReal(env, Context(), old(State()), name, attrs0, block0), State())
      decreases depth, Remaining(Context(), State()), 4
    {
      ghost var spec := PTagReal(env, Context(), State(), name, attrs0, block0);
      var attrs, block := attrs0, block0;
      while true
        invariant Valid() && result == old(result)
        invariant PTagReal(env, Context(), State(), name, attrs, block) == spec
        invariant Remaining(Context(), State()) <= Remaining(Context(), old(State()))
        decreases Remaining(Context(), State())
      {
        var t := Current();
        if t.kind == TokIndent {
          var b := ParseBlock(true);
          if b.Err? {
            return Err(b.msg);
          }
          return Ok(Tag(name, attrs + b.value.1, SomeBlock(Children(block) + b.value.0)));
        } else if t.kind == TokSemicolon {
          Advance();
          r := ParseInline(name, attrs, block);
          return;
        } else if t.kind in {TokId, TokClassName, TokAttribute, TokAttributeList} {
          var a := TakeHeader(attrs, name, block);
          if a.Err? {
            return Err(a.msg);
          }
          attrs := a.value;
        } else if t.kind == TokBuffered || (t.kind == TokText && Datum(t, "Mode") != "piped") {
          block := TakeLeading(block, name, attrs);
        } else {
          return Ok(Tag(name, attrs, block));
        }
      }
    }

    /**
      One id, class, attribute or attribute list of the tag's header (parser/parser.go:590-624),
      consumed: the attributes the tag has then, or the error for a guarded one.
     */
    method TakeHeader(attrs: seq<Attribute>, ghost name: string, ghost block: OptBlock) returns (r: Result<seq<Attribute>>)
      requires Valid() && Current().kind in {TokId, TokClassName, TokAttribute, TokAttributeList}
      modifies this
      ensures Valid() && result == old(result) && State() == Adv(Context(), old(State()))
      ensures var t := old(Current());
              if t.kind == TokAttributeList then r == Ok(attrs + ListAttributes(t.children))
              else if |Datum(t, "Condition")| > 0 then r.Err?
              else r == Ok(attrs + [HeaderAttribute(t)])
      ensures r.Err? ==> PTagReal(env, Context(), old(State()), name, attrs, block).Err?
      ensures r.Ok? ==> PTagReal(env, Context(), State(), name, r.value, block) ==
                        PTagReal(env, Context(), old(State()), name, attrs, block)
    {
      var t := Current();
      if t.kind == TokAttributeList {
        AttributeListStep(env, Context(), State(), name, attrs, block);
      } else if |Datum(t, "Condition")| == 0 {
        HeaderAttributeStep(env, Context(), State(), name, attrs, block);
      }
      Advance();
      if t.kind == TokAttributeList {
        var a := AddAttributeList(attrs, t.children);
        return Ok(a);
      }
      if |Datum(t, "Condition")| > 0 {
        return Err(GuardedHeaderAttribute);
      }
      return Ok(attrs + [HeaderAttribute(t)]);
    }

    /** Text that is not piped, or buffered code, put in front of the tag's block (parser/parser.go:621-631). */
    method TakeLeading(block: OptBlock, ghost name: string, ghost attrs: seq<Attribute>) returns (b: OptBlock)
      requires Valid()
      requires Current().kind == TokBuffered || (Current().kind == TokText && Datum(Current(), "Mode") != "piped")
      modifies this
      ensures Valid() && result == old(result) && State() == Adv(Context(), old(State()))
      ensures var t := old(Current());
              b == SomeBlock([if t.kind == TokBuffered then Buffered(t.value, Datum(t, "Mode") == "escaped")
                              else Text(t.value, Datum(t, "Mode") == "raw")] + Children(block))
      ensures PTagReal(env, Context(), State(), name, attrs, b) == PTagReal(env, Context(), old(State()), name, attrs, block)
    {
      LeadingGoesFirst(env, Context(), State(), name, attrs, block);
      if Current().kind == TokBuffered {
        var n := ParseBuffered();
        b := SomeBlock([n.value] + Children(block));
      } else {
        var n := ParseText();
        b := SomeBlock([n.value] + Children(block));
      }
    }

    /** The loop of parser/parser.go:619-624 over the attributes of an attribute list. */
    static method AddAttributeList(attrs: seq<Attribute>, ts: seq<Token>) returns (r: seq<Attribute>)
      ensures r == attrs + ListAttributes(ts)
    {
      r := attrs;
      for i := 0 to |ts|
        invariant r == attrs + ListAttributes(ts)[..i]
      {
        var x := ts[i];
        r := r + [Attribute(x.value, Datum(x, "Content"), Datum(x, "Mode") == "raw", "")];
        assert ListAttributes(ts)[..i + 1] == ListAttributes(ts)[..i] + [ListAttributes(ts)[i]];
      }
      assert ListAttributes(ts)[..|ts|] == ListAttributes(ts);
    }

    /** The semicolon case of `parseTagReal` once the semicolon is consumed. */
    method ParseInline(name: string, attrs: seq<Attribute>, block: OptBlock) returns (r: Result<Node>)
      requires Valid()
      modifies this, store
      ensures Valid() && result == old(result)
      ensures Agrees(r, PInline(env, Context(), old(State()), name, attrs, block), State())
      decreases depth, Remaining(Context(), State()), 6
    {
      var k := Current().kind;
      if k == TokId || k == TokClassName || k == TokTag {
        var inner;
        if k == TokId {
          inner := ParseTaglessId();
        } else if k == TokClassName {
          inner := ParseTaglessClass();
        } else {
          inner := ParseTag();
        }
        if inner.Err? {
          return Err(inner.msg);
        }
        return Ok(Tag(name, attrs, if block.NoBlock? then SomeBlock([inner.value]) else block));
      }
      return Ok(Tag(name, attrs, if block.NoBlock? then SomeBlock([]) else block));
    }

    /** `parseMixin` (parser/parser.go:638-648). */
    method ParseMixin() returns (r: Result<Node>)
      requires Valid()
      modifies this, store
      ensures Valid() && result == old(result)
      ensures Agrees(r, PMixin(env, Context(), old(State())), State())
      decreases depth, Remaining(Context(), State()), 5
    {
      var tok := Expect(TokMixin);
      if tok.Err? {
        return Err(tok.msg);
      }
      var b := ParseOptBlock();
      if b.Err? {
        return Err(b.msg);
      }
      return Ok(Mixin(tok.value.value, env.mixinArgs(Datum(tok.value, "Args")), b.value));
    }

    /** `parseMixinCall` (parser/parser.go:650-655). */
    method ParseMixinCall() returns (r: Result<Node>)
      requires Valid()
      modifies this
      ensures Valid() && result == old(result)
      ensures Agrees(r, PMixinCall(env, Context(), old(State())), State())
    {
      var tok := Expect(TokMixinCall);
      if tok.Err? {
        return Err(tok.msg);
      }
      return Ok(MixinCall(tok.value.value, env.callArgs(Datum(tok.value, "Args"))));
    }
  }

  /**
    A template parsed from its tokens by a parser of its own, and the tree as the
    compiler then sees it, with every named block as the merge left it.
   */
  method ParseTemplate(env: Env, tokens: seq<Token>, filename: string, depth: nat, fuel: nat) returns (r: Result<Node>)
    ensures var spec := PParse(env, Ctx(tokens, filename, depth), []);
            (r.Ok? <==> spec.Ok?) &&
            (r.Ok? ==> r.value == Resolve(spec.value.value, spec.value.st.cells, fuel) && Plain(r.value))
  {
    var store := new BlockStore();
    var p := new Parser(env, tokens, filename, depth, store);
    var root := p.Parse();
    if root.Err? {
      return Err(root.msg);
    }
    return Ok(Resolve(root.value, store.cells, fuel));
  }
}
