/**
  The expressions that `visitExpression` (compiler.go:593-791) lowers into template
  instructions, and that lowering written as a function on symbolic instructions.

  `go/ast` is not part of this model: `Expr` stands for the handful of node kinds the
  translator distinguishes, with every other kind collapsed into `Unsupported`.
  The imperative walk with its stack of strings lives in the compiler module; it is
  proved there to write exactly `Render` of the code that `Lower` computes.
 */
module Expressions {
  import opened Wrappers
  import Strings

  /** The binary operators of `go/token` the lowering distinguishes. */
  datatype BinaryOp =
    | Add | Sub | Mul | Quo | Rem      // + - * / %
    | LAnd | LOr                       // && ||
    | BitOr                            // |, written as a template pipe
    | Eql | Neq | Lss | Gtr | Leq | Geq
    | OtherBinary(token: string)       // & ^ << >> &^ and the rest, spelled as Go prints them

  datatype UnaryOp = Minus | Plus | Not | OtherUnary(token: string)

  datatype Expr =
    | Binary(op: BinaryOp, x: Expr, y: Expr)
    | Unary(uop: UnaryOp, x: Expr)
    | Paren(x: Expr)
    | BasicLit(value: string)          // the literal's source text, quotes included
    | Ident(name: string)
    | Selector(x: Expr, sel: string)
    | Call(fun: Expr, args: seq<Expr>)
    | Unsupported(kind: string)        // any other node type, named by its Go type

  /** What sits on the stack: a temporary `$__jade_N` or text pushed as it is. */
  datatype Operand = Temp(n: nat) | Lit(text: string)

  /** The right-hand side of one `{{$__jade_N := …}}` instruction. */
  datatype Rhs =
    | Pipe(left: Operand, right: Operand)                       // l | r
    | Apply(fn: string, args: seq<Operand>)                     // fn a1 a2 …
    | ApplyValue(callee: Operand, args: seq<Operand>)           // F a1 a2 …, F reduced first
    | Field(recv: Operand, sel: string)                         // x.sel
    | Method(recv: Operand, sel: string, args: seq<Operand>)    // x.sel  a1 a2 …

  datatype Instr = Define(target: nat, rhs: Rhs)

  /** The instructions written, the value left on the stack, the counter afterwards. */
  datatype Lowered = Lowered(code: seq<Instr>, value: Operand, next: nat)

  datatype LoweredArgs = LoweredArgs(code: seq<Instr>, values: seq<Operand>, next: nat)

  /** `builtinFunctions` (compiler.go:25-36). */
  const Builtins: seq<string> :=
    ["len", "print", "printf", "println", "urlquery", "js", "json", "index", "html", "unescaped"]

  /** What `visitRawInterpolation` puts in place of every `$` before parsing. */
  const DollarMarker: string := "__DOLLAR__"

  /** The name `tempvar` returns once the counter has reached `n`. */
  function TempName(n: nat): string {
    "$__jade_" + Strings.Itoa(n)
  }

  /** Different counter values give different temporaries. */
  lemma TempNameInjective(a: nat, b: nat)
    requires TempName(a) == TempName(b)
    ensures a == b
  {
    var p := "$__jade_";
    assert TempName(a)[|p|..] == Strings.Itoa(a);
    assert TempName(b)[|p|..] == Strings.Itoa(b);
    Strings.ItoaInjective(a, b);
  }

  /** `hasFunctionWithName`: a custom function or one of the runtime's `FuncMap`. */
  predicate HasFunctionWithName(custom: set<string>, runtime: set<string>, name: string) {
    name in custom || name in runtime
  }

  /**
    How an identifier is pushed (compiler.go:700-720), `known` being the names for which
    `hasFunctionWithName` holds.
   */
  function ResolveIdent(name: string, known: set<string>): (r: string)
    ensures name == DollarMarker ==> r == "."
    ensures Strings.StartsWith(name, DollarMarker) && name != DollarMarker ==>
              r == "$" + name[|DollarMarker|..]
    ensures !Strings.StartsWith(name, DollarMarker) ==>
              r == (if name == "nil" || name in known then name else "." + name)
  {
    if |name| >= |DollarMarker| && name[..|DollarMarker|] == DollarMarker then
      if name == DollarMarker then "." else "$" + name[|DollarMarker|..]
    else if name == "nil" then name
    else if name in known then name
    else "." + name
  }

  /**
    A template variable `$x` survives the `$` substitution and the identifier rule; a lone
    `$` becomes the dot.
   */
  lemma DollarIdentRoundTrip(x: string, known: set<string>)
    requires '$' !in x
    ensures ResolveIdent(Strings.ReplaceAll("$" + x, "$", DollarMarker), known) ==
            if x == [] then "." else "$" + x
  {
    var s := "$" + x;
    assert s[..1] == "$";
    assert s[1..] == x;
    NotOccursChar(x, '$');
    Strings.ReplaceAllAbsent(x, "$", DollarMarker);
    var t := Strings.ReplaceAll(s, "$", DollarMarker);
    assert t == DollarMarker + Strings.ReplaceAll(s[1..], "$", DollarMarker);
    assert t == DollarMarker + x;
    assert t[..|DollarMarker|] == DollarMarker;
    assert t[|DollarMarker|..] == x;
  }

  lemma {:induction false} NotOccursChar(s: string, c: char)
    requires c !in s
    ensures !Strings.Occurs(s, [c])
    decreases |s|
  {
    if s != [] {
      assert s[0] != c;
      assert c !in s[1..];
      NotOccursChar(s[1..], c);
    }
  }

  /** The template function an operator lowers to and whether the result is negated (compiler.go:629-661). */
  function BinaryLowering(op: BinaryOp): Option<(string, bool)> {
    match op
    case Add => Some(("__jade_add", false))
    case Sub => Some(("__jade_sub", false))
    case Mul => Some(("__jade_mul", false))
    case Quo => Some(("__jade_quo", false))
    case Rem => Some(("__jade_rem", false))
    case LAnd => Some(("and", false))
    case LOr => Some(("or", false))
    case Eql => Some(("__jade_eql", false))
    case Neq => Some(("__jade_eql", true))
    case Lss => Some(("__jade_lss", false))
    case Gtr => Some(("__jade_gtr", false))
    case Leq => Some(("__jade_gtr", true))
    case Geq => Some(("__jade_lss", true))
    case BitOr => None
    case OtherBinary(_) => None
  }

  function UnaryLowering(op: UnaryOp): Option<string> {
    match op
    case Minus => Some("__jade_minus")
    case Plus => Some("__jade_plus")
    case Not => Some("not")
    case OtherUnary(_) => None
  }

  function BinaryToken(op: BinaryOp): string {
    match op
    case Add => "+" case Sub => "-" case Mul => "*" case Quo => "/" case Rem => "%"
    case LAnd => "&&" case LOr => "||" case BitOr => "|"
    case Eql => "==" case Neq => "!=" case Lss => "<" case Gtr => ">" case Leq => "<=" case Geq => ">="
    case OtherBinary(t) => t
  }

  function UnaryToken(op: UnaryOp): string {
    match op
    case Minus => "-" case Plus => "+" case Not => "!"
    case OtherUnary(t) => t
  }

  /** Every instruction of `code` defines a temporary numbered in `(lo, hi]`. */
  predicate TargetsWithin(code: seq<Instr>, lo: nat, hi: nat) {
    forall i :: 0 <= i < |code| ==> lo < code[i].target <= hi
  }

  /** No two instructions define the same temporary. */
  predicate DistinctTargets(code: seq<Instr>) {
    forall i, j :: 0 <= i < j < |code| ==> code[i].target != code[j].target
  }

  /** `code` defines each temporary of `(lo, hi]` exactly once and no other. */
  predicate Fresh(code: seq<Instr>, lo: nat, hi: nat) {
    lo <= hi && |code| == hi - lo && TargetsWithin(code, lo, hi) && DistinctTargets(code)
  }

  /** An operand that is a temporary is numbered in `(lo, hi]`. */
  predicate OperandWithin(o: Operand, lo: nat, hi: nat) {
    o.Temp? ==> lo < o.n <= hi
  }

  lemma FreshAppend(a: seq<Instr>, b: seq<Instr>, lo: nat, mid: nat, hi: nat)
    requires Fresh(a, lo, mid) && Fresh(b, mid, hi)
    ensures Fresh(a + b, lo, hi)
  {
    forall i | 0 <= i < |a + b|
      ensures lo < (a + b)[i].target <= hi
    {
      if i >= |a| {
        assert (a + b)[i] == b[i - |a|];
      } else {
        assert (a + b)[i] == a[i];
      }
    }
    forall i, j | 0 <= i < j < |a + b|
      ensures (a + b)[i].target != (a + b)[j].target
    {
      if j < |a| {
        assert (a + b)[i] == a[i] && (a + b)[j] == a[j];
      } else if i >= |a| {
        assert (a + b)[i] == b[i - |a|] && (a + b)[j] == b[j - |a|];
      } else {
        assert (a + b)[i] == a[i] && (a + b)[j] == b[j - |a|];
      }
    }
  }

  lemma FreshOne(i: Instr, lo: nat)
    requires i.target == lo + 1
    ensures Fresh([i], lo, lo + 1)
  {
  }

  /**
    A call whose callee is reduced after the temporary of the call was taken: the
    arguments' code, then the callee's code, then the instruction defining `mid + 1`.
   */
  lemma FreshAround(a: seq<Instr>, b: seq<Instr>, i: Instr, lo: nat, mid: nat, hi: nat)
    requires Fresh(a, lo, mid) && Fresh(b, mid + 1, hi) && i.target == mid + 1
    ensures Fresh(a + b + [i], lo, hi)
  {
    FreshOne(i, mid);
    FreshAppend(a, [i], lo, mid, mid + 1);
    FreshAppend(a + [i], b, lo, mid + 1, hi);
    var c := a + b + [i];
    var d := a + [i] + b;
    assert |c| == hi - lo;
    forall k | 0 <= k < |c|
      ensures lo < c[k].target <= hi
    {
      if k < |a| {
        assert c[k] == d[k];
      } else if k < |a| + |b| {
        assert c[k] == d[k + 1];
      } else {
        assert c[k] == d[|a|];
      }
    }
    forall k, l | 0 <= k < l < |c|
      ensures c[k].target != c[l].target
    {
      var k' := if k < |a| then k else if k < |a| + |b| then k + 1 else |a|;
      var l' := if l < |a| then l else if l < |a| + |b| then l + 1 else |a|;
      assert c[k] == d[k'] && c[l] == d[l'];
      assert k' != l';
      if k' < l' {
        assert d[k'].target != d[l'].target;
      } else {
        assert d[l'].target != d[k'].target;
      }
    }
  }

  /**
    The instructions a binary operator adds once Y and then X have been reduced to `vy`
    and `vx` by `code` (compiler.go:617-671): its temporary, and for `!=`, `<=` and `>=` a
    second one negating the first.
   */
  function BinaryStep(op: BinaryOp, code: seq<Instr>, vx: Operand, vy: Operand, lo: nat, hi: nat): (r: Result<Lowered>)
    requires Fresh(code, lo, hi)
    ensures r.Ok? ==> Fresh(r.value.code, lo, r.value.next) && r.value.next > hi && r.value.value == Temp(r.value.next)
    ensures r.Ok? <==> op == BitOr || BinaryLowering(op).Some?
  {
    var t := hi + 1;
    if op == BitOr then
      var i := Define(t, Pipe(vx, vy));
      FreshAppend(code, [i], lo, hi, t);
      Ok(Lowered(code + [i], Temp(t), t))
    else if BinaryLowering(op).None? then
      Err("Unexpected operator: '" + BinaryToken(op) + "'")
    else
      var (fn, negate) := BinaryLowering(op).value;
      var i := Define(t, Apply(fn, [vx, vy]));
      FreshAppend(code, [i], lo, hi, t);
      if negate then
        var n := Define(t + 1, Apply("not", [Temp(t)]));
        FreshAppend(code + [i], [n], lo, t, t + 1);
        Ok(Lowered(code + [i] + [n], Temp(t + 1), t + 1))
      else
        Ok(Lowered(code + [i], Temp(t), t))
  }

  /** What a call reduces before writing its instruction: a selector's receiver, else the callee. */
  function Callee(fun: Expr): (r: Expr)
    ensures r < fun || r == fun
  {
    if fun.Selector? then fun.x else fun
  }

  /**
    The instruction of a call that is not to a builtin, once the arguments (`la`) and then
    the callee or receiver (`lf`) have been reduced; its temporary was taken in between
    (compiler.go:741-783).
   */
  function CallStep(fun: Expr, la: LoweredArgs, lf: Lowered, lo: nat): (r: Lowered)
    requires Fresh(la.code, lo, la.next) && Fresh(lf.code, la.next + 1, lf.next)
    ensures Fresh(r.code, lo, r.next) && r.value == Temp(la.next + 1) && r.next == lf.next
  {
    var t := la.next + 1;
    var i := if fun.Selector? then Define(t, Method(lf.value, fun.sel, la.values))
             else Define(t, ApplyValue(lf.value, la.values));
    FreshAround(la.code, lf.code, i, lo, la.next, lf.next);
    Lowered(la.code + lf.code + [i], Temp(t), lf.next)
  }

  /**
    The lowering of `exec` with the counter at `next`: the instructions written, the
    value pushed and the counter afterwards, or the panic that aborts the translation.
    The instructions define each of the temporaries `next + 1 … r.next` exactly once
    (compiler.go:350-353), so no two of them clash.
   */
  function Lower(e: Expr, next: nat, known: set<string>): (r: Result<Lowered>)
    ensures r.Ok? ==> Fresh(r.value.code, next, r.value.next)
    ensures r.Ok? ==> OperandWithin(r.value.value, next, r.value.next)
    decreases e
  {
    match e
    case Binary(op, x, y) =>
      (match Lower(y, next, known)
       case Err(m) => Err(m)
       case Ok(ly) =>
         (match Lower(x, ly.next, known)
          case Err(m) => Err(m)
          case Ok(lx) => BinaryJoin(op, ly, lx, next)))
    case Unary(op, x) =>
      (match Lower(x, next, known)
       case Err(m) => Err(m)
       case Ok(lx) =>
         if UnaryLowering(op).None? then
           Err("Unexpected operator: '" + UnaryToken(op) + "'")
         else
           Ok(AddInstr(lx.code, next, lx.next, Apply(UnaryLowering(op).value, [lx.value]))))
    case Paren(x) =>
      Lower(x, next, known)
    case BasicLit(v) =>
      Ok(Lowered([], Lit(v), next))
    case Ident(name) =>
      Ok(Lowered([], Lit(ResolveIdent(name, known)), next))
    case Selector(x, sel) =>
      (match Lower(x, next, known)
       case Err(m) => Err(m)
       case Ok(lx) => Ok(AddInstr(lx.code, next, lx.next, Field(lx.value, sel))))
    case Call(fun, args) =>
      (match LowerArgs(args, next, known)
       case Err(m) => Err(m)
       case Ok(la) =>
         if fun.Ident? && fun.name in Builtins then
           Ok(AddInstr(la.code, next, la.next, Apply(fun.name, la.values)))
         else
           (match Lower(Callee(fun), la.next + 1, known)
            case Err(m) => Err(m)
            case Ok(lf) => Ok(CallStep(fun, la, lf, next))))
    case Unsupported(kind) =>
      Err("Unable to parse expression. Unsupported: " + kind)
  }

  /** `code` followed by one instruction defining the next temporary, whose value it is. */
  function AddInstr(code: seq<Instr>, lo: nat, hi: nat, rhs: Rhs): (r: Lowered)
    requires Fresh(code, lo, hi)
    ensures Fresh(r.code, lo, r.next) && r.next == hi + 1 && r.value == Temp(hi + 1)
  {
    FreshAppend(code, [Define(hi + 1, rhs)], lo, hi, hi + 1);
    Lowered(code + [Define(hi + 1, rhs)], Temp(hi + 1), hi + 1)
  }

  /** A binary operator once Y (`ly`) and then X (`lx`) are reduced. */
  function BinaryJoin(op: BinaryOp, ly: Lowered, lx: Lowered, lo: nat): (r: Result<Lowered>)
    requires Fresh(ly.code, lo, ly.next) && Fresh(lx.code, ly.next, lx.next)
    ensures Fresh(ly.code + lx.code, lo, lx.next)
    ensures r.Ok? ==> Fresh(r.value.code, lo, r.value.next) && r.value.next > lx.next && r.value.value == Temp(r.value.next)
  {
    FreshAppend(ly.code, lx.code, lo, ly.next, lx.next);
    BinaryStep(op, ly.code + lx.code, lx.value, ly.value, lo, lx.next)
  }

  /**
    The arguments of a call, reduced from the last index down (compiler.go:737-739): the
    arguments after the first are reduced, and then the first, with the counter where the
    others left it. The operands are in source order, which is how popping them afterwards
    yields them.
   */
  function LowerArgs(args: seq<Expr>, next: nat, known: set<string>): (r: Result<LoweredArgs>)
    ensures r.Ok? ==> Fresh(r.value.code, next, r.value.next) && |r.value.values| == |args|
    ensures r.Ok? ==> forall i :: 0 <= i < |r.value.values| ==> OperandWithin(r.value.values[i], next, r.value.next)
    decreases args
  {
    if args == [] then Ok(LoweredArgs([], [], next))
    else
      match LowerArgs(args[1..], next, known)
      case Err(m) => Err(m)
      case Ok(rest) =>
        (match Lower(args[0], rest.next, known)
         case Err(m) => Err(m)
         case Ok(la) => Ok(ArgsCons(la, rest, next)))
  }

  /** The first argument's reduction `la` after the others' (`rest`). */
  function ArgsCons(la: Lowered, rest: LoweredArgs, lo: nat): (r: LoweredArgs)
    requires Fresh(rest.code, lo, rest.next) && Fresh(la.code, rest.next, la.next)
    requires OperandWithin(la.value, rest.next, la.next)
    requires forall i :: 0 <= i < |rest.values| ==> OperandWithin(rest.values[i], lo, rest.next)
    ensures Fresh(r.code, lo, r.next)
    ensures r.next == la.next && |r.values| == |rest.values| + 1
    ensures forall i :: 0 <= i < |r.values| ==> OperandWithin(r.values[i], lo, r.next)
  {
    FreshAppend(rest.code, la.code, lo, rest.next, la.next);
    var vs := [la.value] + rest.values;
    assert forall i :: 0 <= i < |vs| ==> OperandWithin(vs[i], lo, la.next) by {
      forall i | 0 <= i < |vs|
        ensures OperandWithin(vs[i], lo, la.next)
      {
        if i > 0 {
          assert vs[i] == rest.values[i - 1];
          assert OperandWithin(rest.values[i - 1], lo, rest.next);
        }
      }
    }
    LoweredArgs(rest.code + la.code, vs, la.next)
  }

  /** A call of a builtin, once its arguments are reduced. */
  lemma BuiltinUnfold(e: Expr, next: nat, known: set<string>, la: LoweredArgs)
    requires e.Call? && LowerArgs(e.args, next, known) == Ok(la) && e.fun.Ident? && e.fun.name in Builtins
    ensures Lower(e, next, known) ==
              Ok(Lowered(la.code + [Define(la.next + 1, Apply(e.fun.name, la.values))], Temp(la.next + 1), la.next + 1))
  {
  }

  /** Any other call, once its arguments are reduced: the callee next, then `CallStep`. */
  lemma CallUnfold(e: Expr, next: nat, known: set<string>)
    requires e.Call? && LowerArgs(e.args, next, known).Ok? && !(e.fun.Ident? && e.fun.name in Builtins)
    ensures var la := LowerArgs(e.args, next, known).value;
            var lf := Lower(Callee(e.fun), la.next + 1, known);
            (lf.Err? ==> Lower(e, next, known).Err?) &&
            (lf.Ok? ==> Lower(e, next, known) == Ok(CallStep(e.fun, la, lf.value, next)))
  {
  }

  /** A call that reduces, and is not to a builtin, has a callee that reduces. */
  lemma CalleeOk(e: Expr, next: nat, known: set<string>, la: LoweredArgs)
    requires e.Call? && !(e.fun.Ident? && e.fun.name in Builtins)
    requires LowerArgs(e.args, next, known) == Ok(la) && Lower(e, next, known).Ok?
    ensures Lower(Callee(e.fun), la.next + 1, known).Ok?
  {
  }

  /** The same, stated for the reductions `la` of the arguments and `lf` of the callee. */
  lemma CallUnfoldOk(e: Expr, next: nat, known: set<string>, la: LoweredArgs, lf: Lowered)
    requires e.Call? && !(e.fun.Ident? && e.fun.name in Builtins)
    requires LowerArgs(e.args, next, known) == Ok(la) && Lower(Callee(e.fun), la.next + 1, known) == Ok(lf)
    ensures Fresh(la.code, next, la.next) && Fresh(lf.code, la.next + 1, lf.next)
    ensures Lower(e, next, known) == Ok(CallStep(e.fun, la, lf, next))
  {
  }

  /**
    The last argument is the first reduced: its code opens the arguments' code, starting
    from the counter the call starts from, and its operand is the last one.
   */
  lemma {:induction false} LowerArgsLastFirst(args: seq<Expr>, next: nat, known: set<string>)
    requires args != [] && LowerArgs(args, next, known).Ok?
    ensures Lower(args[|args| - 1], next, known).Ok?
    ensures var ll := Lower(args[|args| - 1], next, known).value;
            var l := LowerArgs(args, next, known).value;
            |ll.code| <= |l.code| && l.code[..|ll.code|] == ll.code && l.values[|args| - 1] == ll.value
    decreases args
  {
    var rest := LowerArgs(args[1..], next, known).value;
    var la := Lower(args[0], rest.next, known).value;
    var l := LowerArgs(args, next, known).value;
    assert l.code == rest.code + la.code && l.values == [la.value] + rest.values;
    if |args| > 1 {
      LowerArgsLastFirst(args[1..], next, known);
      assert args[1..][|args| - 2] == args[|args| - 1];
      var ll := Lower(args[|args| - 1], next, known).value;
      assert l.code[..|ll.code|] == rest.code[..|ll.code|];
    } else {
      assert rest.code == [] && rest.next == next;
      assert l.code == la.code;
    }
  }

  /** The expression kinds and operators the lowering accepts, as a reference definition. */
  predicate Supported(e: Expr)
    decreases e
  {
    match e
    case Binary(op, x, y) => (op == BitOr || BinaryLowering(op).Some?) && Supported(x) && Supported(y)
    case Unary(op, x) => UnaryLowering(op).Some? && Supported(x)
    case Paren(x) => Supported(x)
    case BasicLit(_) => true
    case Ident(_) => true
    case Selector(x, _) => Supported(x)
    case Call(fun, args) => Supported(fun) && SupportedArgs(args)
    case Unsupported(_) => false
  }

  predicate SupportedArgs(args: seq<Expr>)
    decreases args
  {
    args == [] || (Supported(args[0]) && SupportedArgs(args[1..]))
  }

  /** The lowering fails exactly on an operator without a lowering or an unsupported kind. */
  lemma {:induction false} LowerOkIff(e: Expr, next: nat, known: set<string>)
    ensures Lower(e, next, known).Ok? <==> Supported(e)
    decreases e
  {
    match e
    case Binary(op, x, y) =>
      LowerOkIff(y, next, known);
      if Lower(y, next, known).Ok? {
        LowerOkIff(x, Lower(y, next, known).value.next, known);
      }
    case Unary(op, x) =>
      LowerOkIff(x, next, known);
    case Paren(x) =>
      LowerOkIff(x, next, known);
    case BasicLit(_) =>
    case Ident(_) =>
    case Selector(x, _) =>
      LowerOkIff(x, next, known);
    case Call(fun, args) =>
      LowerArgsOkIff(args, next, known);
      if LowerArgs(args, next, known).Ok? {
        var t := LowerArgs(args, next, known).value.next + 1;
        if fun.Selector? {
          LowerOkIff(fun.x, t, known);
        } else {
          LowerOkIff(fun, t, known);
        }
      }
    case Unsupported(_) =>
  }

  lemma {:induction false} LowerArgsOkIff(args: seq<Expr>, next: nat, known: set<string>)
    ensures LowerArgs(args, next, known).Ok? <==> SupportedArgs(args)
    decreases args
  {
    if args != [] {
      LowerArgsOkIff(args[1..], next, known);
      if LowerArgs(args[1..], next, known).Ok? {
        LowerOkIff(args[0], LowerArgs(args[1..], next, known).value.next, known);
      }
    }
  }

  // ---------------------------------------------------------------------------------
  // Meaning: what the instructions compute, by inlining every temporary.

  /** A template pipeline written as a nested term instead of through temporaries. */
  datatype Term =
    | Atom(text: string)
    | App(fn: string, args: seq<Term>)
    | AppValue(callee: Term, args: seq<Term>)
    | PipeT(left: Term, right: Term)
    | FieldT(recv: Term, sel: string)
    | MethodT(recv: Term, sel: string, args: seq<Term>)

  /** The value of an operand once the temporaries in `env` are known. */
  function EvalOperand(o: Operand, env: map<nat, Term>): Term {
    match o
    case Temp(n) => if n in env then env[n] else Atom(TempName(n))
    case Lit(s) => Atom(s)
  }

  function EvalOperands(os: seq<Operand>, env: map<nat, Term>): (r: seq<Term>)
    ensures |r| == |os|
    decreases |os|
  {
    if os == [] then [] else [EvalOperand(os[0], env)] + EvalOperands(os[1..], env)
  }

  function EvalRhs(rhs: Rhs, env: map<nat, Term>): Term {
    match rhs
    case Pipe(l, r) => PipeT(EvalOperand(l, env), EvalOperand(r, env))
    case Apply(fn, args) => App(fn, EvalOperands(args, env))
    case ApplyValue(f, args) => AppValue(EvalOperand(f, env), EvalOperands(args, env))
    case Field(x, sel) => FieldT(EvalOperand(x, env), sel)
    case Method(x, sel, args) => MethodT(EvalOperand(x, env), sel, EvalOperands(args, env))
  }

  /** The template engine running the instructions in order: each binds its temporary. */
  function Run(code: seq<Instr>, env: map<nat, Term>): map<nat, Term>
    decreases |code|
  {
    if code == [] then env
    else Run(code[1..], env[code[0].target := EvalRhs(code[0].rhs, env)])
  }

  lemma {:induction false} RunAppend(a: seq<Instr>, b: seq<Instr>, env: map<nat, Term>)
    ensures Run(a + b, env) == Run(b, Run(a, env))
    decreases |a|
  {
    if a == [] {
      assert a + b == b;
    } else {
      var env' := env[a[0].target := EvalRhs(a[0].rhs, env)];
      assert (a + b)[0] == a[0] && (a + b)[1..] == a[1..] + b;
      assert Run(a + b, env) == Run(a[1..] + b, env');
      assert Run(a, env) == Run(a[1..], env');
      RunAppend(a[1..], b, env');
    }
  }

  /** Running instructions that do not define `k` leaves the value of `Temp(k)` alone. */
  lemma {:induction false} RunFrame(code: seq<Instr>, env: map<nat, Term>, k: nat)
    requires forall i :: 0 <= i < |code| ==> code[i].target != k
    ensures EvalOperand(Temp(k), Run(code, env)) == EvalOperand(Temp(k), env)
    decreases |code|
  {
    if code != [] {
      var env' := env[code[0].target := EvalRhs(code[0].rhs, env)];
      assert EvalOperand(Temp(k), env') == EvalOperand(Temp(k), env);
      RunFrame(code[1..], env', k);
    }
  }

  /** An operand numbered in `(lo, hi]`, or a literal, is untouched by code defining temporaries above `hi`. */
  lemma OperandFrame(o: Operand, code: seq<Instr>, env: map<nat, Term>, lo: nat, hi: nat, top: nat)
    requires OperandWithin(o, lo, hi) && TargetsWithin(code, hi, top)
    ensures EvalOperand(o, Run(code, env)) == EvalOperand(o, env)
  {
    if o.Temp? {
      RunFrame(code, env, o.n);
    }
  }

  lemma {:induction false} OperandsFrame(os: seq<Operand>, code: seq<Instr>, env: map<nat, Term>, lo: nat, hi: nat, top: nat)
    requires forall i :: 0 <= i < |os| ==> OperandWithin(os[i], lo, hi)
    requires TargetsWithin(code, hi, top)
    ensures EvalOperands(os, Run(code, env)) == EvalOperands(os, env)
    decreases |os|
  {
    if os != [] {
      OperandFrame(os[0], code, env, lo, hi, top);
      OperandsFrame(os[1..], code, env, lo, hi, top);
    }
  }

  /**
    The direct reading of an expression as one nested pipeline (compiler.go:610-783):
    operators become their template functions applied to X then Y, the negated
    comparisons wrap `not` around `eql`, `gtr` or `lss`, a builtin call applies the bare
    name, a method call applies `recv.name`, and any other callee is applied as a value.
   */
  function Meaning(e: Expr, known: set<string>): Term
    requires Supported(e)
    decreases e
  {
    match e
    case Binary(op, x, y) =>
      if op == BitOr then PipeT(Meaning(x, known), Meaning(y, known))
      else
        var (fn, negate) := BinaryLowering(op).value;
        var t := App(fn, [Meaning(x, known), Meaning(y, known)]);
        if negate then App("not", [t]) else t
    case Unary(op, x) => App(UnaryLowering(op).value, [Meaning(x, known)])
    case Paren(x) => Meaning(x, known)
    case BasicLit(v) => Atom(v)
    case Ident(name) => Atom(ResolveIdent(name, known))
    case Selector(x, sel) => FieldT(Meaning(x, known), sel)
    case Call(fun, args) =>
      if fun.Ident? && fun.name in Builtins then App(fun.name, MeaningArgs(args, known))
      else if fun.Selector? then MethodT(Meaning(fun.x, known), fun.sel, MeaningArgs(args, known))
      else AppValue(Meaning(fun, known), MeaningArgs(args, known))
  }

  function MeaningArgs(args: seq<Expr>, known: set<string>): (r: seq<Term>)
    requires SupportedArgs(args)
    ensures |r| == |args|
    decreases args
  {
    if args == [] then [] else [Meaning(args[0], known)] + MeaningArgs(args[1..], known)
  }

  /** Running one more instruction binds its temporary to its right-hand side's value. */
  lemma RunSnoc(code: seq<Instr>, i: Instr, env: map<nat, Term>)
    ensures Run(code + [i], env) == Run(code, env)[i.target := EvalRhs(i.rhs, Run(code, env))]
  {
    RunAppend(code, [i], env);
    var m := Run(code, env);
    assert Run([i], m) == Run([], m[i.target := EvalRhs(i.rhs, m)]);
  }

  lemma EvalPair(a: Operand, b: Operand, env: map<nat, Term>)
    ensures EvalOperands([a, b], env) == [EvalOperand(a, env), EvalOperand(b, env)]
  {
    assert [a, b][1..] == [b];
    assert [b][1..] == [];
  }

  lemma EvalSingle(a: Operand, env: map<nat, Term>)
    ensures EvalOperands([a], env) == [EvalOperand(a, env)]
  {
    assert [a][1..] == [];
  }

  /**
    Soundness of the lowering: whatever the temporaries held before, running the
    instructions and reading the pushed value gives the expression's direct reading.
   */
  lemma {:induction false} LowerMeaning(e: Expr, next: nat, known: set<string>, env: map<nat, Term>)
    requires Lower(e, next, known).Ok?
    ensures Supported(e)
    ensures EvalOperand(Lower(e, next, known).value.value, Run(Lower(e, next, known).value.code, env)) == Meaning(e, known)
    decreases e, 2
  {
    LowerOkIff(e, next, known);
    match e
    case Binary(op, x, y) =>
      BinaryMeaning(op, x, y, next, known, env);
    case Unary(op, x) =>
      var lx := Lower(x, next, known).value;
      LowerMeaning(x, next, known, env);
      UnaryMeaning(op, x, next, known, env, lx);
    case Paren(x) =>
      LowerMeaning(x, next, known, env);
    case BasicLit(_) =>
    case Ident(_) =>
    case Selector(x, sel) =>
      var lx := Lower(x, next, known).value;
      LowerMeaning(x, next, known, env);
      SelectorMeaning(x, sel, next, known, env, lx);
    case Call(fun, args) =>
      CallMeaning(fun, args, next, known, env);
  }

  lemma UnaryMeaning(op: UnaryOp, x: Expr, next: nat, known: set<string>, env: map<nat, Term>, lx: Lowered)
    requires Lower(Unary(op, x), next, known).Ok? && Supported(Unary(op, x))
    requires Lower(x, next, known) == Ok(lx) && EvalOperand(lx.value, Run(lx.code, env)) == Meaning(x, known)
    ensures EvalOperand(Lower(Unary(op, x), next, known).value.value,
                        Run(Lower(Unary(op, x), next, known).value.code, env)) == Meaning(Unary(op, x), known)
  {
    RunSnoc(lx.code, Define(lx.next + 1, Apply(UnaryLowering(op).value, [lx.value])), env);
    EvalSingle(lx.value, Run(lx.code, env));
  }

  lemma SelectorMeaning(x: Expr, sel: string, next: nat, known: set<string>, env: map<nat, Term>, lx: Lowered)
    requires Lower(Selector(x, sel), next, known).Ok? && Supported(Selector(x, sel))
    requires Lower(x, next, known) == Ok(lx) && EvalOperand(lx.value, Run(lx.code, env)) == Meaning(x, known)
    ensures EvalOperand(Lower(Selector(x, sel), next, known).value.value,
                        Run(Lower(Selector(x, sel), next, known).value.code, env)) == Meaning(Selector(x, sel), known)
  {
    RunSnoc(lx.code, Define(lx.next + 1, Field(lx.value, sel)), env);
  }

  lemma {:induction false} BinaryMeaning(op: BinaryOp, x: Expr, y: Expr, next: nat, known: set<string>, env: map<nat, Term>)
    requires Lower(Binary(op, x, y), next, known).Ok?
    requires Supported(Binary(op, x, y))
    ensures EvalOperand(Lower(Binary(op, x, y), next, known).value.value,
                        Run(Lower(Binary(op, x, y), next, known).value.code, env)) == Meaning(Binary(op, x, y), known)
    decreases Binary(op, x, y), 0
  {
    var ly := Lower(y, next, known).value;
    var lx := Lower(x, ly.next, known).value;
    LowerMeaning(y, next, known, env);
    LowerMeaning(x, ly.next, known, Run(ly.code, env));
    BinaryCombineMeaning(op, x, y, next, known, env, ly, lx);
  }

  /** The operator's instructions, once both operands are reduced and read. */
  lemma BinaryCombineMeaning(op: BinaryOp, x: Expr, y: Expr, next: nat, known: set<string>, env: map<nat, Term>,
                             ly: Lowered, lx: Lowered)
    requires Lower(Binary(op, x, y), next, known).Ok? && Supported(Binary(op, x, y))
    requires Lower(y, next, known) == Ok(ly) && Lower(x, ly.next, known) == Ok(lx)
    requires EvalOperand(ly.value, Run(ly.code, env)) == Meaning(y, known)
    requires EvalOperand(lx.value, Run(lx.code, Run(ly.code, env))) == Meaning(x, known)
    ensures EvalOperand(Lower(Binary(op, x, y), next, known).value.value,
                        Run(Lower(Binary(op, x, y), next, known).value.code, env)) == Meaning(Binary(op, x, y), known)
  {
    var e1 := Run(ly.code, env);
    var e2 := Run(lx.code, e1);
    OperandFrame(ly.value, lx.code, e1, next, ly.next, lx.next);
    RunAppend(ly.code, lx.code, env);
    assert Run(ly.code + lx.code, env) == e2;
    FreshAppend(ly.code, lx.code, next, ly.next, lx.next);
    assert Lower(Binary(op, x, y), next, known) == BinaryStep(op, ly.code + lx.code, lx.value, ly.value, next, lx.next);
    BinaryStepMeaning(op, ly.code + lx.code, lx.value, ly.value, next, lx.next, env);
  }

  /** The operator's instructions compute the operator applied to the operands' values. */
  lemma BinaryStepMeaning(op: BinaryOp, code: seq<Instr>, vx: Operand, vy: Operand, lo: nat, hi: nat, env: map<nat, Term>)
    requires Fresh(code, lo, hi) && BinaryStep(op, code, vx, vy, lo, hi).Ok?
    ensures var l := BinaryStep(op, code, vx, vy, lo, hi).value;
            var mx, my := EvalOperand(vx, Run(code, env)), EvalOperand(vy, Run(code, env));
            EvalOperand(l.value, Run(l.code, env)) ==
              if op == BitOr then PipeT(mx, my)
              else if BinaryLowering(op).value.1 then App("not", [App(BinaryLowering(op).value.0, [mx, my])])
              else App(BinaryLowering(op).value.0, [mx, my])
  {
    var t := hi + 1;
    var e2 := Run(code, env);
    if op == BitOr {
      RunSnoc(code, Define(t, Pipe(vx, vy)), env);
    } else {
      var (fn, negate) := BinaryLowering(op).value;
      var i := Define(t, Apply(fn, [vx, vy]));
      RunSnoc(code, i, env);
      EvalPair(vx, vy, e2);
      var e3 := Run(code + [i], env);
      if negate {
        RunSnoc(code + [i], Define(t + 1, Apply("not", [Temp(t)])), env);
        EvalSingle(Temp(t), e3);
      }
    }
  }

  lemma {:induction false} CallMeaning(fun: Expr, args: seq<Expr>, next: nat, known: set<string>, env: map<nat, Term>)
    requires Lower(Call(fun, args), next, known).Ok?
    requires Supported(Call(fun, args))
    ensures EvalOperand(Lower(Call(fun, args), next, known).value.value,
                        Run(Lower(Call(fun, args), next, known).value.code, env)) == Meaning(Call(fun, args), known)
    decreases Call(fun, args), 1
  {
    var la := LowerArgs(args, next, known).value;
    LowerArgsMeaning(args, next, known, env);
    if fun.Ident? && fun.name in Builtins {
      BuiltinCallMeaning(fun, args, next, known, env, la);
    } else {
      CallBranchMeaning(fun, args, next, known, env, la);
    }
  }

  /** A call that is not to a builtin: the callee's reading, then the call's own step. */
  lemma {:induction false} CallBranchMeaning(fun: Expr, args: seq<Expr>, next: nat, known: set<string>,
                                             env: map<nat, Term>, la: LoweredArgs)
    requires !(fun.Ident? && fun.name in Builtins) && Supported(Call(fun, args))
    requires Lower(Call(fun, args), next, known).Ok? && LowerArgs(args, next, known) == Ok(la)
    requires EvalOperands(la.values, Run(la.code, env)) == MeaningArgs(args, known)
    ensures EvalOperand(Lower(Call(fun, args), next, known).value.value,
                        Run(Lower(Call(fun, args), next, known).value.code, env)) == Meaning(Call(fun, args), known)
    decreases Call(fun, args), 0
  {
    CalleeOk(Call(fun, args), next, known, la);
    var lf := Lower(Callee(fun), la.next + 1, known).value;
    LowerMeaning(Callee(fun), la.next + 1, known, Run(la.code, env));
    ValueCallMeaning(fun, args, next, known, env, la, lf);
  }

  lemma BuiltinCallMeaning(fun: Expr, args: seq<Expr>, next: nat, known: set<string>, env: map<nat, Term>, la: LoweredArgs)
    requires fun.Ident? && fun.name in Builtins && SupportedArgs(args)
    requires LowerArgs(args, next, known) == Ok(la)
    requires EvalOperands(la.values, Run(la.code, env)) == MeaningArgs(args, known)
    ensures Lower(Call(fun, args), next, known).Ok?
    ensures EvalOperand(Lower(Call(fun, args), next, known).value.value,
                        Run(Lower(Call(fun, args), next, known).value.code, env)) == Meaning(Call(fun, args), known)
  {
    var t := la.next + 1;
    var i := Define(t, Apply(fun.name, la.values));
    BuiltinUnfold(Call(fun, args), next, known, la);
    RunSnoc(la.code, i, env);
    assert EvalOperand(Temp(t), Run(la.code + [i], env)) == EvalRhs(i.rhs, Run(la.code, env));
  }

  lemma ValueCallMeaning(fun: Expr, args: seq<Expr>, next: nat, known: set<string>, env: map<nat, Term>,
                         la: LoweredArgs, lf: Lowered)
    requires !(fun.Ident? && fun.name in Builtins) && Supported(Call(fun, args))
    requires LowerArgs(args, next, known) == Ok(la) && Lower(Callee(fun), la.next + 1, known) == Ok(lf)
    requires EvalOperands(la.values, Run(la.code, env)) == MeaningArgs(args, known)
    requires Supported(Callee(fun)) && EvalOperand(lf.value, Run(lf.code, Run(la.code, env))) == Meaning(Callee(fun), known)
    ensures Lower(Call(fun, args), next, known).Ok?
    ensures EvalOperand(Lower(Call(fun, args), next, known).value.value,
                        Run(Lower(Call(fun, args), next, known).value.code, env)) == Meaning(Call(fun, args), known)
  {
    CallUnfoldOk(Call(fun, args), next, known, la, lf);
    CallStepMeaning(fun, la, lf, next, env, Meaning(Callee(fun), known), MeaningArgs(args, known));
  }

  /**
    The call's instruction applies the callee's value `mf` to the arguments' values
    `margs`, which the callee's code, defining only later temporaries, leaves alone.
   */
  lemma CallStepMeaning(fun: Expr, la: LoweredArgs, lf: Lowered, lo: nat, env: map<nat, Term>, mf: Term, margs: seq<Term>)
    requires Fresh(la.code, lo, la.next) && Fresh(lf.code, la.next + 1, lf.next)
    requires forall i :: 0 <= i < |la.values| ==> OperandWithin(la.values[i], lo, la.next)
    requires EvalOperands(la.values, Run(la.code, env)) == margs
    requires EvalOperand(lf.value, Run(lf.code, Run(la.code, env))) == mf
    ensures var l := CallStep(fun, la, lf, lo);
            EvalOperand(l.value, Run(l.code, env)) ==
              if fun.Selector? then MethodT(mf, fun.sel, margs) else AppValue(mf, margs)
  {
    var t := la.next + 1;
    var i := if fun.Selector? then Define(t, Method(lf.value, fun.sel, la.values))
             else Define(t, ApplyValue(lf.value, la.values));
    var e1 := Run(la.code, env);
    OperandsFrame(la.values, lf.code, e1, lo, la.next, lf.next);
    RunAppend(la.code, lf.code, env);
    RunSnoc(la.code + lf.code, i, env);
  }

  lemma {:induction false} LowerArgsMeaning(args: seq<Expr>, next: nat, known: set<string>, env: map<nat, Term>)
    requires LowerArgs(args, next, known).Ok?
    ensures SupportedArgs(args)
    ensures EvalOperands(LowerArgs(args, next, known).value.values, Run(LowerArgs(args, next, known).value.code, env))
            == MeaningArgs(args, known)
    decreases args, 1
  {
    LowerArgsOkIff(args, next, known);
    if args != [] {
      var rest := LowerArgs(args[1..], next, known).value;
      var la := Lower(args[0], rest.next, known).value;
      var e1 := Run(rest.code, env);
      var e2 := Run(la.code, e1);
      LowerArgsMeaning(args[1..], next, known, env);
      LowerMeaning(args[0], rest.next, known, e1);
      OperandsFrame(rest.values, la.code, e1, next, rest.next, la.next);
      RunAppend(rest.code, la.code, env);
      var vs := [la.value] + rest.values;
      assert vs[0] == la.value && vs[1..] == rest.values;
    }
  }

  // ---------------------------------------------------------------------------------
  // Rendering: the text `exec` writes.

  function RenderOperand(o: Operand): string {
    match o
    case Temp(n) => TempName(n)
    case Lit(s) => s
  }

  /** A receiver that is the dot itself is written as nothing (compiler.go:726-728, 763-765). */
  function Receiver(o: Operand): string {
    if RenderOperand(o) == "." then "" else RenderOperand(o)
  }

  /** One space before every argument (compiler.go:776-779). */
  function RenderArgs(os: seq<Operand>): string
    decreases |os|
  {
    if os == [] then [] else RenderArgs(os[..|os| - 1]) + " " + RenderOperand(os[|os| - 1])
  }

  function RenderRhs(rhs: Rhs): string {
    match rhs
    case Pipe(l, r) => RenderOperand(l) + " | " + RenderOperand(r)
    case Apply(fn, args) => fn + RenderArgs(args)
    case ApplyValue(f, args) => RenderOperand(f) + RenderArgs(args)
    case Field(x, sel) => Receiver(x) + "." + sel
    case Method(x, sel, args) => Receiver(x) + "." + sel + " " + RenderArgs(args)
  }

  function RenderInstr(i: Instr): string {
    "{{" + TempName(i.target) + " := " + RenderRhs(i.rhs) + "}}"
  }

  /** The instructions' text, one after the other. */
  function Render(code: seq<Instr>): string
    decreases |code|
  {
    if code == [] then "" else RenderInstr(code[0]) + Render(code[1..])
  }

  lemma {:induction false} RenderAppend(a: seq<Instr>, b: seq<Instr>)
    ensures Render(a + b) == Render(a) + Render(b)
    decreases |a|
  {
    if a == [] {
      assert a + b == b;
    } else {
      assert (a + b)[0] == a[0] && (a + b)[1..] == a[1..] + b;
      RenderAppend(a[1..], b);
    }
  }

  lemma RenderSnoc(a: seq<Instr>, i: Instr)
    ensures Render(a + [i]) == Render(a) + RenderInstr(i)
  {
    RenderAppend(a, [i]);
    assert [i][1..] == [];
  }
}
