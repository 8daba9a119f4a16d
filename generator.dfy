/**
  The text the compiler writes for a resolved syntax tree (compiler.go:289-530), as
  functions from a generator state to a generator state. The `Compiler` class of the
  compiler module performs the same walk by updating its fields, and is proved to end
  in the state these functions compute.

  Every panic of the source (a parse error, a nil block, a missing mixin, an argument
  index out of range) ends the whole compilation: `CompileWriter` recovers it and
  returns it as an error. Each of them is an `Err` here.
 */
module Generator {
  import opened Wrappers
  import Strings
  import opened Nodes
  import opened Expressions
  import Text
  import Attributes

  /**
    What the generator takes from outside compiler.go: the `PrettyPrint` option, the
    custom and runtime function names, `go/parser.ParseExpr`, and the node methods of
    nodes.go (`CanInline`, `IsSelfClosing`, `Doctype.String`).
   */
  datatype Config = Config(
    prettyPrint: bool,
    custom: set<string>,
    runtime: set<string>,
    parseExpr: string -> Option<Expr>,
    canInline: seq<Node> -> bool,
    isSelfClosing: Node -> bool,
    doctype: string -> string)

  /** The names `hasFunctionWithName` accepts. */
  function Known(cfg: Config): (r: set<string>)
    ensures forall name :: name in r <==> HasFunctionWithName(cfg.custom, cfg.runtime, name)
  {
    cfg.custom + cfg.runtime
  }

  /** A mixin as `visitMixin` records it. */
  datatype MixinDef = MixinDef(args: seq<string>, block: OptBlock)

  /** The compiler's fields: buffer, `tempvarIndex`, `indentLevel` and `mixins`. */
  datatype GenState = GenState(out: string, temp: nat, level: int, mixins: map<string, MixinDef>)

  /** A state and the text an interpolation produced in it. */
  datatype Emitted = Emitted(st: GenState, value: string)

  /**
    The invariant every visitor keeps: the buffer is only appended to, the counter never
    goes back and the indentation level is where it was.
   */
  predicate Grows(a: GenState, b: GenState) {
    a.out <= b.out && a.temp <= b.temp && a.level == b.level
  }

  lemma GrowsTransitive(a: GenState, b: GenState, c: GenState)
    requires Grows(a, b) && Grows(b, c)
    ensures Grows(a, c)
  {
    assert a.out <= c.out by {
      assert b.out[..|a.out|] == a.out;
      assert c.out[..|b.out|] == b.out;
      assert c.out[..|b.out|][..|a.out|] == c.out[..|a.out|];
    }
  }

  function Write(st: GenState, s: string): (r: GenState)
    ensures r.out == st.out + s && r.temp == st.temp && r.level == st.level && r.mixins == st.mixins
  {
    st.(out := st.out + s)
  }

  /** `indentLevel` tabs; none for a level that is zero or negative. */
  function Tabs(level: int): (r: string)
    ensures |r| == if level > 0 then level else 0
    ensures forall i :: 0 <= i < |r| ==> r[i] == '\t'
    decreases level
  {
    if level <= 0 then "" else Tabs(level - 1) + "\t"
  }

  /**
    `indent(0, newline)` (compiler.go:336-348): nothing unless pretty printing; otherwise
    a newline if asked for and the buffer is not empty, then the level's tabs.
   */
  function Indent(cfg: Config, st: GenState, newline: bool): (r: GenState)
    ensures Grows(st, r) && r.temp == st.temp && r.mixins == st.mixins
    ensures !cfg.prettyPrint ==> r == st
    ensures cfg.prettyPrint ==>
              r.out == st.out + (if newline && |st.out| > 0 then "\n" else "") + Tabs(st.level)
  {
    if !cfg.prettyPrint then st
    else Write(st, (if newline && |st.out| > 0 then "\n" else "") + Tabs(st.level))
  }

  // ---------------------------------------------------------------------------------
  // Interpolation

  /**
    The parse of `visitRawInterpolation` (compiler.go:560-581): the text as it is, and if
    that fails and it is framed by single quotes, once more with the two quotes made
    double. On an empty text the source indexes past the end, which is an error too.
   */
  function ParseInterp(cfg: Config, v: string): (r: Option<Expr>)
    ensures cfg.parseExpr(v).Some? ==> r == cfg.parseExpr(v)
    ensures cfg.parseExpr(v).None? && (|v| == 0 || v[0] != '\'' || v[|v| - 1] != '\'') ==> r.None?
  {
    if cfg.parseExpr(v).Some? then cfg.parseExpr(v)
    else if |v| == 0 || v[0] != '\'' || v[|v| - 1] != '\'' then None
    else if |v| == 1 then cfg.parseExpr("\"")
    else cfg.parseExpr("\"" + v[1..|v| - 1] + "\"")
  }

  /**
    `visitRawInterpolation`: `$` is renamed, the text parsed and lowered; the instructions
    lowering it are written, and the text of the value is returned with the name put back.
   */
  function RawInterp(cfg: Config, st: GenState, value: string): (r: Result<Emitted>)
    ensures r.Ok? ==> Grows(st, r.value.st) && r.value.st.mixins == st.mixins
    ensures r.Ok? <==> (ParseInterp(cfg, Strings.ReplaceAll(value, "$", DollarMarker)).Some? &&
                         Lower(ParseInterp(cfg, Strings.ReplaceAll(value, "$", DollarMarker)).value,
                               st.temp, Known(cfg)).Ok?)
    ensures r.Ok? ==> exists code :: Fresh(code, st.temp, r.value.st.temp) &&
                                      r.value.st.out == st.out + Render(code)
  {
    var v := Strings.ReplaceAll(value, "$", DollarMarker);
    match ParseInterp(cfg, v)
    case None => Err("Unable to parse expression: " + v)
    case Some(e) =>
      match Lower(e, st.temp, Known(cfg))
      case Err(m) => Err(m)
      case Ok(l) =>
        var st' := st.(out := st.out + Render(l.code), temp := l.next);
        assert Fresh(l.code, st.temp, st'.temp);
        Ok(Emitted(st', Strings.ReplaceAll(RenderOperand(l.value), DollarMarker, "$")))
  }

  /** `visitInterpolation`: the value as an action. */
  function Interp(cfg: Config, st: GenState, value: string): (r: Result<Emitted>)
    ensures r.Ok? ==> Grows(st, r.value.st) && r.value.st.mixins == st.mixins
    ensures r.Ok? <==> RawInterp(cfg, st, value).Ok?
    ensures r.Ok? ==> r.value.st == RawInterp(cfg, st, value).value.st &&
                      r.value.value == "{{" + RawInterp(cfg, st, value).value.value + "}}"
  {
    match RawInterp(cfg, st, value)
    case Err(m) => Err(m)
    case Ok(e) => Ok(Emitted(e.st, "{{" + e.value + "}}"))
  }

  // ---------------------------------------------------------------------------------
  // Attributes and text

  /**
    One attribute of `visitTag`'s loop (compiler.go:442-457): a non-raw value is
    interpolated, as a `safeJS` action for an event handler (`on…`); a raw value is kept;
    a guard is interpolated without braces.
   */
  function TranslateAttr(cfg: Config, st: GenState, a: Attribute): (r: Result<(GenState, Attributes.Attrib)>)
    ensures r.Ok? ==> Grows(st, r.value.0) && r.value.0.mixins == st.mixins
    ensures r.Ok? && a.isRaw ==> r.value.1.value == a.value
    ensures r.Ok? && a.condition == "" ==> r.value.1.condition == ""
  {
    match AttrValue(cfg, st, a)
    case Err(m) => Err(m)
    case Ok(v) =>
      if |a.condition| != 0 then
        match RawInterp(cfg, v.st, a.condition)
        case Err(m) => Err(m)
        case Ok(c) =>
          GrowsTransitive(st, v.st, c.st);
          Ok((c.st, Attributes.Attrib(v.value, c.value)))
      else
        Ok((v.st, Attributes.Attrib(v.value, "")))
  }

  /** The value part of `TranslateAttr`. */
  function AttrValue(cfg: Config, st: GenState, a: Attribute): (r: Result<Emitted>)
    ensures r.Ok? ==> Grows(st, r.value.st) && r.value.st.mixins == st.mixins
    ensures r.Ok? && a.isRaw ==> r.value.value == a.value
  {
    if a.isRaw then Ok(Emitted(st, a.value))
    else if Strings.StartsWith(a.name, "on") then
      match RawInterp(cfg, st, a.value)
      case Err(m) => Err(m)
      case Ok(e) => Ok(Emitted(e.st, "{{ safeJS " + e.value + "}}"))
    else Interp(cfg, st, a.value)
  }

  /** The attribute table and the translated attributes it was built from, in order. */
  datatype AttrTable = AttrTable(st: GenState, items: seq<(string, Attributes.Attrib)>, table: map<string, Attributes.Attrib>)

  function TranslateAttrs(cfg: Config, st: GenState, attrs: seq<Attribute>): (r: Result<AttrTable>)
    ensures r.Ok? ==> Grows(st, r.value.st) && r.value.st.mixins == st.mixins
    ensures r.Ok? ==> |r.value.items| == |attrs| &&
                      (forall i :: 0 <= i < |attrs| ==> r.value.items[i].0 == attrs[i].name)
    ensures r.Ok? ==> r.value.table == Attributes.Table(r.value.items)
    decreases |attrs|
  {
    if attrs == [] then Ok(AttrTable(st, [], map[]))
    else
      match TranslateAttrs(cfg, st, attrs[..|attrs| - 1])
      case Err(m) => Err(m)
      case Ok(prev) =>
        var last := attrs[|attrs| - 1];
        match TranslateAttr(cfg, prev.st, last)
        case Err(m) => Err(m)
        case Ok(t) =>
          GrowsTransitive(st, prev.st, t.0);
          var items := prev.items + [(last.name, t.1)];
          assert items[..|items| - 1] == prev.items;
          assert Attributes.Table(items) == Attributes.AddItem(Attributes.Table(prev.items), last.name, t.1);
          assert forall i :: 0 <= i < |attrs| - 1 ==> items[i] == prev.items[i] && attrs[i] == attrs[..|attrs| - 1][i];
          Ok(AttrTable(t.0, items, Attributes.AddItem(prev.table, last.name, t.1)))
  }

  /** One more attribute translated, as the loop of compiler.go:434-477 takes it. */
  lemma TranslateAttrsStep(cfg: Config, st0: GenState, attrs: seq<Attribute>, i: nat, prev: AttrTable, st: GenState, a: Attributes.Attrib)
    requires i < |attrs| && TranslateAttrs(cfg, st0, attrs[..i]) == Ok(prev) && TranslateAttr(cfg, prev.st, attrs[i]) == Ok((st, a))
    ensures TranslateAttrs(cfg, st0, attrs[..i + 1]) ==
            Ok(AttrTable(st, prev.items + [(attrs[i].name, a)], Attributes.AddItem(prev.table, attrs[i].name, a)))
  {
    assert attrs[..i + 1][..i] == attrs[..i] && attrs[..i + 1][i] == attrs[i];
  }

  /** An attribute that fails to translate fails the whole list. */
  lemma TranslateAttrsStepErr(cfg: Config, st0: GenState, attrs: seq<Attribute>, i: nat, prev: AttrTable)
    requires i < |attrs| && TranslateAttrs(cfg, st0, attrs[..i]) == Ok(prev) && TranslateAttr(cfg, prev.st, attrs[i]).Err?
    ensures TranslateAttrs(cfg, st0, attrs).Err?
  {
    assert attrs[..i + 1][..i] == attrs[..i] && attrs[..i + 1][i] == attrs[i];
    TranslateAttrsPrefixErr(cfg, st0, attrs, i + 1);
  }

  /** A failure on a prefix of the attributes is a failure of the whole. */
  lemma {:induction false} TranslateAttrsPrefixErr(cfg: Config, st: GenState, attrs: seq<Attribute>, k: nat)
    requires k <= |attrs| && TranslateAttrs(cfg, st, attrs[..k]).Err?
    ensures TranslateAttrs(cfg, st, attrs).Err?
    decreases |attrs|
  {
    if k < |attrs| {
      var init := attrs[..|attrs| - 1];
      assert init[..k] == attrs[..k];
      TranslateAttrsPrefixErr(cfg, st, init, k);
    } else {
      assert attrs[..k] == attrs;
    }
  }

  /**
    The `#{…}` interpolations of a text, in order: the instructions of each are written
    as it is met, and the text is returned with each match replaced by its action.
   */
  function InterpSegments(cfg: Config, st: GenState, segs: seq<Text.Segment>): (r: Result<Emitted>)
    ensures r.Ok? ==> Grows(st, r.value.st) && r.value.st.mixins == st.mixins
    ensures (forall i :: 0 <= i < |segs| ==> segs[i].Plain?) ==>
              r == Ok(Emitted(st, Text.Unscan(segs, "#{", "}")))
    decreases |segs|
  {
    if segs == [] then Ok(Emitted(st, ""))
    else
      var first := match segs[0]
                   case Plain(t) => Ok(Emitted(st, t))
                   case Hole(x) => Interp(cfg, st, x);
      match first
      case Err(m) => Err(m)
      case Ok(f) =>
        match InterpSegments(cfg, f.st, segs[1..])
        case Err(m) => Err(m)
        case Ok(rest) =>
          GrowsTransitive(st, f.st, rest.st);
          Ok(Emitted(rest.st, f.value + rest.value))
  }

  /**
    `visitText` (compiler.go:532-550): `{{…}}` is neutralised, `#{…}` interpolated, and the
    lines are written with the current indentation after every newline.
   */
  function VisitText(cfg: Config, st: GenState, value: string): (r: Result<GenState>)
    ensures r.Ok? ==> Grows(st, r.value) && r.value.mixins == st.mixins
  {
    match InterpSegments(cfg, st, Text.Scan(Text.EscapeBraces(value), "#{", "}"))
    case Err(m) => Err(m)
    case Ok(e) => Ok(Write(e.st, Text.Layout(e.value, if cfg.prettyPrint then Tabs(e.st.level) else "")))
  }

  // ---------------------------------------------------------------------------------
  // The walk

  /** `visit` (compiler.go:289-330) on a tree without named-block references. */
  ghost function Visit(cfg: Config, st: GenState, n: Node, fuel: nat): (r: Result<GenState>)
    ensures r.Ok? ==> Grows(st, r.value)
    decreases fuel, n, 1
  {
    match n
    case Block(cs) => VisitChildren(cfg, st, cs, cfg.canInline(cs), fuel)
    case Slot(_) => Ok(st)
    case Doctype(v) => Ok(Write(st, cfg.doctype(v)))
    case Comment(v, silent, b) => VisitComment(cfg, st, v, silent, b, fuel)
    case Tag(name, attrs, b) => VisitTag(cfg, st, name, attrs, b, cfg.isSelfClosing(n), fuel)
    case Text(v, _) =>
      var r := VisitText(cfg, st, v);
      r
    case Condition(_, _, _) => VisitCondition(cfg, st, n, fuel)
    case Each(x, y, e, b) => VisitEach(cfg, st, x, y, e, b, fuel)
    case Buffered(e, escaped) =>
      (match RawInterp(cfg, st, e)
       case Err(m) => Err(m)
       case Ok(v) => Ok(Write(v.st, if escaped then "{{" + v.value + "}}" else "{{unescaped " + v.value + "}}")))
    case Assignment(x, e) =>
      (match RawInterp(cfg, st, e)
       case Err(m) => Err(m)
       case Ok(v) => Ok(Write(v.st, "{{" + x + " := " + v.value + "}}")))
    case Mixin(name, args, b) =>
      Ok(st.(mixins := st.mixins[name := MixinDef(args, b)]))
    case MixinCall(name, args) => VisitMixinCall(cfg, st, name, args, fuel)
  }

  /**
    `visitBlock` (compiler.go:359-367) on a `*Block` that may be nil; a nil block is
    dereferenced, which is an error.
   */
  ghost function VisitBlock(cfg: Config, st: GenState, b: OptBlock, fuel: nat): (r: Result<GenState>)
    ensures r.Ok? ==> Grows(st, r.value)
    ensures b.NoBlock? ==> r.Err?
    decreases fuel, b, 1
  {
    match b
    case NoBlock => Err("nil block")
    case SomeBlock(cs) => VisitChildren(cfg, st, cs, cfg.canInline(cs), fuel)
  }

  /** The loop of `visitBlock`: a text child starts a new line unless the block is inline. */
  ghost function VisitChildren(cfg: Config, st: GenState, cs: seq<Node>, inline: bool, fuel: nat): (r: Result<GenState>)
    ensures r.Ok? ==> Grows(st, r.value)
    ensures cs == [] ==> r == Ok(st)
    decreases fuel, cs, 0
  {
    if cs == [] then Ok(st)
    else
      var st1 := if !inline && cs[0].Text? then Indent(cfg, st, true) else st;
      match Visit(cfg, st1, cs[0], fuel)
      case Err(m) => Err(m)
      case Ok(st2) =>
        GrowsTransitive(st, st1, st2);
        match VisitChildren(cfg, st2, cs[1..], inline, fuel)
        case Err(m) => Err(m)
        case Ok(st3) =>
          GrowsTransitive(st, st2, st3);
          Ok(st3)
  }

  /** `visitComment` (compiler.go:373-387). */
  ghost function VisitComment(cfg: Config, st: GenState, v: string, silent: bool, b: OptBlock, fuel: nat): (r: Result<GenState>)
    ensures r.Ok? ==> Grows(st, r.value)
    ensures silent ==> r == Ok(st)
    decreases fuel, b, 3
  {
    if silent then Ok(st)
    else
      var st1 := Indent(cfg, st, false);
      if b.NoBlock? then
        Ok(Write(st1, "{{unescaped \"<!-- " + Text.Escape(v) + " -->\"}}"))
      else
        var st2 := Write(st1, "<!-- " + v);
        GrowsTransitive(st, st1, st2);
        match VisitBlock(cfg, st2, b, fuel)
        case Err(m) => Err(m)
        case Ok(st3) =>
          GrowsTransitive(st, st2, st3);
          Ok(Write(st3, " -->"))
  }

  /** `visitCondition` (compiler.go:389-397); a missing positive branch is a nil block. */
  ghost function VisitCondition(cfg: Config, st: GenState, n: Node, fuel: nat): (r: Result<GenState>)
    requires n.Condition?
    ensures r.Ok? ==> Grows(st, r.value)
    ensures n.positive.NoBlock? ==> r.Err?
    decreases fuel, n, 0
  {
    var p, q := n.positive, n.negative;
    match RawInterp(cfg, st, n.expression)
    case Err(m) => Err(m)
    case Ok(v) =>
      var st2 := Write(v.st, "{{if " + v.value + "}}");
      GrowsTransitive(st, v.st, st2);
      match VisitBlock(cfg, st2, p, fuel)
      case Err(m) => Err(m)
      case Ok(st3) =>
        GrowsTransitive(st, st2, st3);
        match VisitNegative(cfg, st3, q, fuel)
        case Err(m) => Err(m)
        case Ok(st4) =>
          GrowsTransitive(st, st3, st4);
          Ok(Write(st4, "{{end}}"))
  }

  ghost function VisitNegative(cfg: Config, st: GenState, q: OptBlock, fuel: nat): (r: Result<GenState>)
    ensures r.Ok? ==> Grows(st, r.value)
    ensures q.NoBlock? ==> r == Ok(st)
    decreases fuel, q, 3
  {
    if q.NoBlock? then Ok(st)
    else
      var st1 := Write(st, "{{else}}");
      match VisitBlock(cfg, st1, q, fuel)
      case Err(m) => Err(m)
      case Ok(st2) =>
        GrowsTransitive(st, st1, st2);
        Ok(st2)
  }

  /** `visitEach` (compiler.go:399-411): nothing at all without a block. */
  ghost function VisitEach(cfg: Config, st: GenState, x: string, y: string, e: string, b: OptBlock, fuel: nat): (r: Result<GenState>)
    ensures r.Ok? ==> Grows(st, r.value)
    ensures b.NoBlock? ==> r == Ok(st)
    decreases fuel, b, 3
  {
    if b.NoBlock? then Ok(st)
    else
      match RawInterp(cfg, st, e)
      case Err(m) => Err(m)
      case Ok(v) =>
        var head := if |y| == 0 then "{{range " + x + " := " + v.value + "}}"
                    else "{{range " + x + ", " + y + " := " + v.value + "}}";
        var st2 := Write(v.st, head);
        GrowsTransitive(st, v.st, st2);
        match VisitBlock(cfg, st2, b, fuel)
        case Err(m) => Err(m)
        case Ok(st3) =>
          GrowsTransitive(st, st2, st3);
          Ok(Write(st3, "{{end}}"))
  }

  /**
    `visitTag` (compiler.go:425-530): the attributes are translated first (their
    instructions precede the tag), then the tag opens on a new line with its attributes in
    name order; a block is indented one level deeper unless it is inline.
   */
  ghost function VisitTag(cfg: Config, st: GenState, name: string, attrs: seq<Attribute>, b: OptBlock,
                          selfClosing: bool, fuel: nat): (r: Result<GenState>)
    ensures r.Ok? ==> Grows(st, r.value)
    decreases fuel, b, 3
  {
    match TranslateAttrs(cfg, st, attrs)
    case Err(m) => Err(m)
    case Ok(t) =>
      var st1 := Write(Indent(cfg, t.st, true), "<" + name + Attributes.EmitAttrs(t.table));
      GrowsTransitive(st, t.st, st1);
      if selfClosing then Ok(Write(st1, " />"))
      else
        var st2 := Write(st1, ">");
        GrowsTransitive(st, st1, st2);
        match VisitTagBody(cfg, st2, b, fuel)
        case Err(m) => Err(m)
        case Ok(st3) =>
          GrowsTransitive(st, st2, st3);
          Ok(Write(st3, "</" + name + ">"))
  }

  ghost function VisitTagBody(cfg: Config, st: GenState, b: OptBlock, fuel: nat): (r: Result<GenState>)
    ensures r.Ok? ==> Grows(st, r.value)
    ensures b.NoBlock? ==> r == Ok(st)
    decreases fuel, b, 2
  {
    match b
    case NoBlock => Ok(st)
    case SomeBlock(cs) =>
      if cfg.canInline(cs) then VisitBlock(cfg, st, b, fuel)
      else
        match VisitBlock(cfg, st.(level := st.level + 1), b, fuel)
        case Err(m) => Err(m)
        case Ok(st1) => Ok(Indent(cfg, st1.(level := st1.level - 1), true))
  }

  /**
    `visitMixinCall` (compiler.go:797-803): the mixin's parameters are bound to the
    call's arguments in order, then its block is visited. A mixin not defined yet, a
    missing argument or a mixin without a block is an error; `fuel` bounds how deeply
    calls may nest, where a mixin calling itself never ends in the source.
   */
  ghost function VisitMixinCall(cfg: Config, st: GenState, name: string, args: seq<string>, fuel: nat): (r: Result<GenState>)
    ensures r.Ok? ==> Grows(st, r.value)
    ensures name !in st.mixins ==> r.Err?
    ensures name in st.mixins && |args| < |st.mixins[name].args| ==> r.Err?
    decreases fuel, args, 3
  {
    if name !in st.mixins then Err("nil mixin")
    else
      var def := st.mixins[name];
      match BindArgs(cfg, st, def.args, args)
      case Err(m) => Err(m)
      case Ok(st1) =>
        if fuel == 0 then Err("mixin calls nested too deeply")
        else
          match VisitBlock(cfg, st1, def.block, fuel - 1)
          case Err(m) => Err(m)
          case Ok(st2) =>
            GrowsTransitive(st, st1, st2);
            Ok(st2)
  }

  /** `{{param := value}}` for each parameter, the value interpolated from the argument. */
  function BindArgs(cfg: Config, st: GenState, params: seq<string>, args: seq<string>): (r: Result<GenState>)
    ensures r.Ok? ==> Grows(st, r.value) && r.value.mixins == st.mixins
    ensures |args| < |params| ==> r.Err?
    ensures params == [] ==> r == Ok(st)
    decreases |params|
  {
    if params == [] then Ok(st)
    else if |args| == 0 then Err("index out of range")
    else
      match RawInterp(cfg, st, args[0])
      case Err(m) => Err(m)
      case Ok(v) =>
        var st1 := Write(v.st, "{{" + params[0] + " := " + v.value + "}}");
        match BindArgs(cfg, st1, params[1..], args[1..])
        case Err(m) => Err(m)
        case Ok(st2) =>
          GrowsTransitive(st, v.st, st1);
          GrowsTransitive(st, st1, st2);
          Ok(st2)
  }

  /**
    `CompileWriter` (compiler.go:256-271): a fresh buffer, the walk, and a final newline
    if anything was written. The counter and the mixins carry over from earlier calls.
   */
  ghost function CompileWriter(cfg: Config, st: GenState, root: Node, fuel: nat): (r: Result<GenState>)
    ensures r.Ok? ==> r.value.out == [] || r.value.out[|r.value.out| - 1] == '\n'
    ensures r.Ok? ==> r.value.temp >= st.temp && r.value.level == st.level
  {
    match Visit(cfg, st.(out := ""), root, fuel)
    case Err(m) => Err(m)
    case Ok(st1) => if |st1.out| > 0 then Ok(Write(st1, "\n")) else Ok(st1)
  }
}
