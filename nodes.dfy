/**
  The syntax tree the parser builds and the compiler walks (the node types of the
  parser package; nodes.go itself is not part of this model).

  A named block is an object: the parser puts the block itself into the tree and the
  template-inheritance merge later rewrites its children in place, so that the change
  shows wherever the block sits. Here every named block is a cell of a store, and the
  tree refers to it by its index (`Slot`). `Resolve` reads the cells as they are when
  it is called and yields a tree without references, which is what the compiler visits.
 */
module Nodes {
  /** How a child template's block combines with the parent's block of the same name. */
  datatype Modifier = Default | Append | Prepend

  /** `Attribute{Name, Value, IsRaw, Condition}`; the source position is left out. */
  datatype Attribute = Attribute(name: string, value: string, isRaw: bool, condition: string)

  /**
    A `*Block` field that may be nil. (A datatype of its own rather than an `Option`, so
    that recursion over the tree can see that the children are smaller than the node.)
   */
  datatype OptBlock = NoBlock | SomeBlock(children: seq<Node>)

  datatype Node =
    | Block(children: seq<Node>)
    | Slot(id: nat)
    | Doctype(value: string)
    | Comment(value: string, silent: bool, block: OptBlock)
    | Text(value: string, raw: bool)
    | Tag(name: string, attributes: seq<Attribute>, block: OptBlock)
    | Condition(expression: string, positive: OptBlock, negative: OptBlock)
    | Each(x: string, y: string, expression: string, block: OptBlock)
    | Buffered(expression: string, escaped: bool)
    | Assignment(x: string, expression: string)
    | Mixin(name: string, args: seq<string>, block: OptBlock)
    | MixinCall(name: string, args: seq<string>)

  /** `NamedBlock`: a name, a modifier, and the children the merge rewrites. */
  datatype Cell = Cell(name: string, modifier: Modifier, children: seq<Node>)

  /** A tree without references to named blocks. */
  predicate Plain(n: Node)
    decreases n
  {
    match n
    case Block(cs) => forall i :: 0 <= i < |cs| ==> Plain(cs[i])
    case Slot(_) => false
    case Comment(_, _, b) => PlainOpt(b)
    case Tag(_, _, b) => PlainOpt(b)
    case Condition(_, p, q) => PlainOpt(p) && PlainOpt(q)
    case Each(_, _, _, b) => PlainOpt(b)
    case Mixin(_, _, b) => PlainOpt(b)
    case _ => true
  }

  predicate PlainOpt(b: OptBlock)
    decreases b
  {
    match b
    case NoBlock => true
    case SomeBlock(cs) => forall i :: 0 <= i < |cs| ==> Plain(cs[i])
  }

  /**
    The tree as the compiler sees it: every named-block reference replaced by a block
    holding that block's current children. `fuel` bounds how many references are followed
    along one path; a reference beyond it, or to no cell, reads as an empty block.
   */
  function Resolve(n: Node, cells: seq<Cell>, fuel: nat): (r: Node)
    ensures Plain(r)
    ensures n.Slot? ==> r == if fuel == 0 || n.id >= |cells| then Block([])
                             else Block(ResolveAll(cells[n.id].children, cells, fuel - 1))
    ensures n.Block? ==> r == Block(ResolveAll(n.children, cells, fuel))
    ensures n.Comment? ==> r == Comment(n.value, n.silent, ResolveOpt(n.block, cells, fuel))
    ensures n.Tag? ==> r == Tag(n.name, n.attributes, ResolveOpt(n.block, cells, fuel))
    ensures n.Condition? ==> r == Condition(n.expression, ResolveOpt(n.positive, cells, fuel), ResolveOpt(n.negative, cells, fuel))
    ensures n.Each? ==> r == Each(n.x, n.y, n.expression, ResolveOpt(n.block, cells, fuel))
    ensures n.Mixin? ==> r == Mixin(n.name, n.args, ResolveOpt(n.block, cells, fuel))
    ensures n.Doctype? || n.Text? || n.Buffered? || n.Assignment? || n.MixinCall? ==> r == n
    decreases fuel, n
  {
    match n
    case Block(cs) => Block(ResolveAll(cs, cells, fuel))
    case Slot(id) => if fuel == 0 || id >= |cells| then Block([]) else Block(ResolveAll(cells[id].children, cells, fuel - 1))
    case Comment(v, s, b) => Comment(v, s, ResolveOpt(b, cells, fuel))
    case Tag(name, attrs, b) => Tag(name, attrs, ResolveOpt(b, cells, fuel))
    case Condition(e, p, q) => Condition(e, ResolveOpt(p, cells, fuel), ResolveOpt(q, cells, fuel))
    case Each(x, y, e, b) => Each(x, y, e, ResolveOpt(b, cells, fuel))
    case Mixin(name, args, b) => Mixin(name, args, ResolveOpt(b, cells, fuel))
    case _ => n
  }

  function ResolveAll(cs: seq<Node>, cells: seq<Cell>, fuel: nat): (r: seq<Node>)
    ensures |r| == |cs| && forall i :: 0 <= i < |r| ==> Plain(r[i]) && r[i] == Resolve(cs[i], cells, fuel)
    decreases fuel, cs
  {
    if cs == [] then [] else [Resolve(cs[0], cells, fuel)] + ResolveAll(cs[1..], cells, fuel)
  }

  function ResolveOpt(b: OptBlock, cells: seq<Cell>, fuel: nat): (r: OptBlock)
    ensures PlainOpt(r) && r.SomeBlock? == b.SomeBlock?
    ensures b.SomeBlock? ==> r.children == ResolveAll(b.children, cells, fuel)
    decreases fuel, b
  {
    match b
    case NoBlock => NoBlock
    case SomeBlock(cs) => SomeBlock(ResolveAll(cs, cells, fuel))
  }

  /** A tree without references is its own resolution. */
  lemma {:induction false} ResolvePlain(n: Node, cells: seq<Cell>, fuel: nat)
    requires Plain(n)
    ensures Resolve(n, cells, fuel) == n
    decreases n, 1
  {
    match n
    case Block(cs) => ResolveAllPlain(cs, cells, fuel);
    case Comment(_, _, b) => ResolveOptPlain(b, cells, fuel);
    case Tag(_, _, b) => ResolveOptPlain(b, cells, fuel);
    case Condition(_, p, q) => ResolveOptPlain(p, cells, fuel); ResolveOptPlain(q, cells, fuel);
    case Each(_, _, _, b) => ResolveOptPlain(b, cells, fuel);
    case Mixin(_, _, b) => ResolveOptPlain(b, cells, fuel);
    case _ =>
  }

  lemma {:induction false} ResolveAllPlain(cs: seq<Node>, cells: seq<Cell>, fuel: nat)
    requires forall i :: 0 <= i < |cs| ==> Plain(cs[i])
    ensures ResolveAll(cs, cells, fuel) == cs
    decreases cs, 0
  {
    if cs != [] {
      ResolvePlain(cs[0], cells, fuel);
      ResolveAllPlain(cs[1..], cells, fuel);
      assert cs == [cs[0]] + cs[1..];
    }
  }

  lemma {:induction false} ResolveOptPlain(b: OptBlock, cells: seq<Cell>, fuel: nat)
    requires PlainOpt(b)
    ensures ResolveOpt(b, cells, fuel) == b
    decreases b, 0
  {
    match b
    case NoBlock =>
    case SomeBlock(cs) => ResolveAllPlain(cs, cells, fuel);
  }
}
