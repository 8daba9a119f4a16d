/**
  The `Compiler` object of compiler.go: its buffer, counter, indentation level and mixin
  table are fields, and each `visit…` method appends to the buffer as the source does.
  Every method is proved to leave the object in the state the corresponding function of
  the generator module computes, and to fail exactly when that function does (a failure
  stands for the panic that aborts the compilation).
 */
module Compiler {
  import opened Wrappers
  import Strings
  import opened Nodes
  import opened Expressions
  import Text
  import Attributes
  import G = Generator

  /** `pop` of `visitExpression` (compiler.go:596-605): the front, or "" on an empty stack. */
  function Pop(stack: seq<string>): (r: (string, seq<string>))
    ensures stack != [] ==> r.0 == stack[0] && r.1 == stack[1..]
    ensures stack == [] ==> r == ("", [])
  {
    if stack == [] then ("", []) else (stack[0], stack[1..])
  }

  function RenderOperands(os: seq<Operand>): (r: seq<string>)
    ensures |r| == |os| && forall i :: 0 <= i < |os| ==> r[i] == RenderOperand(os[i])
  {
    seq(|os|, i requires 0 <= i < |os| => RenderOperand(os[i]))
  }

  class Compiler {
    const cfg: G.Config
    var buffer: string
    var tempvarIndex: nat
    var indentLevel: int
    var mixins: map<string, G.MixinDef>

    /** The fields as a generator state. */
    function State(): G.GenState
      reads this
    {
      G.GenState(buffer, tempvarIndex, indentLevel, mixins)
    }

    /** `New` (compiler.go:65-74): an empty buffer, the counter at zero, no mixins. */
    constructor (cfg: G.Config)
      ensures this.cfg == cfg && State() == G.GenState("", 0, 0, map[])
    {
      this.cfg := cfg;
      buffer := "";
      tempvarIndex := 0;
      indentLevel := 0;
      mixins := map[];
    }

    method Write(s: string)
      modifies this
      ensures State() == G.Write(old(State()), s)
      ensures buffer == old(buffer) + s
      ensures tempvarIndex == old(tempvarIndex) && indentLevel == old(indentLevel) && mixins == old(mixins)
    {
      buffer := buffer + s;
    }

    /** `indent(0, newline)` (compiler.go:336-348), one tab per loop iteration. */
    method Indent(newline: bool)
      modifies this
      ensures State() == G.Indent(cfg, old(State()), newline)
    {
      if !cfg.prettyPrint {
        return;
      }
      if newline && |buffer| > 0 {
        Write("\n");
      }
      ghost var start := buffer;
      var i := 0;
      while i < indentLevel
        invariant indentLevel <= 0 ==> i == 0
        invariant indentLevel > 0 ==> 0 <= i <= indentLevel
        invariant buffer == start + G.Tabs(i)
        invariant tempvarIndex == old(tempvarIndex) && indentLevel == old(indentLevel) && mixins == old(mixins)
      {
        Write("\t");
        i := i + 1;
      }
      assert G.Tabs(i) == G.Tabs(indentLevel);
    }

    /** `tempvar` (compiler.go:350-353): the counter goes up by one and names the new value. */
    method Tempvar() returns (name: string)
      modifies this
      ensures tempvarIndex == old(tempvarIndex) + 1 && name == TempName(tempvarIndex)
      ensures buffer == old(buffer) && indentLevel == old(indentLevel) && mixins == old(mixins)
    {
      tempvarIndex := tempvarIndex + 1;
      name := "$__jade_" + Strings.Itoa(tempvarIndex);
    }

    /**
      `exec` of `visitExpression` (compiler.go:607-789) on the stack `stack`: it writes
      the instructions `Lower` computes, leaves the counter where `Lower` does and pushes
      the value's text; it fails exactly when `Lower` does.
     */
    method Exec(e: Expr, stack: seq<string>) returns (stack': seq<string>, ok: bool)
      modifies this
      ensures indentLevel == old(indentLevel) && mixins == old(mixins)
      ensures ok <==> Lower(e, old(tempvarIndex), G.Known(cfg)).Ok?
      ensures ok ==> var l := Lower(e, old(tempvarIndex), G.Known(cfg)).value;
                     buffer == old(buffer) + Render(l.code) && tempvarIndex == l.next &&
                     stack' == [RenderOperand(l.value)] + stack
      decreases e, 2
    {
      match e
      case Binary(_, _, _) =>
        stack', ok := ExecBinary(e, stack);
      case Unary(_, _) =>
        stack', ok := ExecUnary(e, stack);
      case Paren(x) =>
        stack', ok := Exec(x, stack);
      case BasicLit(v) =>
        stack', ok := [v] + stack, true;
      case Ident(name) =>
        stack', ok := [ResolveIdent(name, G.Known(cfg))] + stack, true;
      case Selector(_, _) =>
        stack', ok := ExecSelector(e, stack);
      case Call(_, _) =>
        stack', ok := ExecCall(e, stack);
      case Unsupported(_) =>
        stack', ok := stack, false;
    }

    method ExecBinary(e: Expr, stack: seq<string>) returns (stack': seq<string>, ok: bool)
      requires e.Binary?
      modifies this
      ensures indentLevel == old(indentLevel) && mixins == old(mixins)
      ensures ok <==> Lower(e, old(tempvarIndex), G.Known(cfg)).Ok?
      ensures ok ==> var l := Lower(e, old(tempvarIndex), G.Known(cfg)).value;
                     buffer == old(buffer) + Render(l.code) && tempvarIndex == l.next &&
                     stack' == [RenderOperand(l.value)] + stack
      decreases e, 1
    {
      ghost var next := tempvarIndex;
      ghost var b0 := buffer;
      var s1, s2;
      s1, ok := Exec(e.y, stack);
      if !ok {
        return s1, false;
      }
      ghost var ly := Lower(e.y, next, G.Known(cfg)).value;
      s2, ok := Exec(e.x, s1);
      if !ok {
        return s2, false;
      }
      ghost var lx := Lower(e.x, ly.next, G.Known(cfg)).value;
      ghost var code := ly.code + lx.code;
      BinaryUnfold(e, next, G.Known(cfg));
      ExtendCode(b0, ly.code, lx.code);
      var (a, r1) := Pop(s2);
      var (b, r2) := Pop(r1);
      assert a == RenderOperand(lx.value) && b == RenderOperand(ly.value) && r2 == stack;
      var top;
      top, ok := ExecOperator(e.op, a, b, code, lx.value, ly.value, next, b0);
      if !ok {
        return r2, false;
      }
      return [top] + r2, true;
    }

    /**
      The instruction of a binary operator once both operands are reduced (`code`) and
      popped (`a` for X, `b` for Y): its temporary, then `{{t := a | b}}` or
      `{{t := fn a b}}`, and for a negated comparison `{{t' := not t}}`.
     */
    method ExecOperator(op: BinaryOp, a: string, b: string, ghost code: seq<Instr>, ghost vx: Operand, ghost vy: Operand,
                        ghost lo: nat, ghost b0: string) returns (top: string, ok: bool)
      requires Fresh(code, lo, tempvarIndex) && buffer == b0 + Render(code)
      requires a == RenderOperand(vx) && b == RenderOperand(vy)
      modifies this
      ensures indentLevel == old(indentLevel) && mixins == old(mixins)
      ensures ok <==> BinaryStep(op, code, vx, vy, lo, old(tempvarIndex)).Ok?
      ensures ok ==> var l := BinaryStep(op, code, vx, vy, lo, old(tempvarIndex)).value;
                     buffer == b0 + Render(l.code) && tempvarIndex == l.next && top == RenderOperand(l.value)
    {
      if op == BitOr {
        ghost var hi := tempvarIndex;
        top := ExecPipe(a, b, code, vx, vy, b0);
        PipeStep(code, vx, vy, lo, hi);
        return top, true;
      }
      if BinaryLowering(op).None? {
        var name := Tempvar();
        Write("{{" + name + " := ");
        return name, false;
      }
      var (fn, negate) := BinaryLowering(op).value;
      ghost var hi := tempvarIndex;
      top := ExecApply(fn, negate, a, b, code, vx, vy, b0);
      if negate {
        NegatedStep(op, fn, code, vx, vy, lo, hi);
      } else {
        ApplyStep(op, fn, code, vx, vy, lo, hi);
      }
      return top, true;
    }

    /** An operator that maps to a template function: `{{t := fn a b}}`, negated for `!=`, `<=` and `>=`. */
    method ExecApply(fn: string, negate: bool, a: string, b: string, ghost code: seq<Instr>,
                     ghost vx: Operand, ghost vy: Operand, ghost b0: string) returns (top: string)
      requires buffer == b0 + Render(code)
      requires a == RenderOperand(vx) && b == RenderOperand(vy)
      modifies this
      ensures indentLevel == old(indentLevel) && mixins == old(mixins)
      ensures var i := Define(old(tempvarIndex) + 1, Apply(fn, [vx, vy]));
              if negate then
                buffer == b0 + Render(code + [i] + [Define(old(tempvarIndex) + 2, Apply("not", [Temp(old(tempvarIndex) + 1)]))]) &&
                tempvarIndex == old(tempvarIndex) + 2 && top == TempName(old(tempvarIndex) + 2)
              else
                buffer == b0 + Render(code + [i]) && tempvarIndex == old(tempvarIndex) + 1 && top == TempName(old(tempvarIndex) + 1)
    {
      var name := EmitApply(fn, a, b, code, vx, vy, b0);
      if !negate {
        return name;
      }
      top := ExecNot(name, code + [Define(tempvarIndex, Apply(fn, [vx, vy]))], b0);
    }

    /** A new temporary bound to `fn` applied to two operands. */
    method EmitApply(fn: string, a: string, b: string, ghost code: seq<Instr>, ghost vx: Operand, ghost vy: Operand,
                     ghost b0: string) returns (name: string)
      requires buffer == b0 + Render(code) && a == RenderOperand(vx) && b == RenderOperand(vy)
      modifies this
      ensures tempvarIndex == old(tempvarIndex) + 1 && name == TempName(tempvarIndex)
      ensures buffer == b0 + Render(code + [Define(tempvarIndex, Apply(fn, [vx, vy]))])
      ensures indentLevel == old(indentLevel) && mixins == old(mixins)
    {
      name := Tempvar();
      WriteApply(name, fn, a, b, vx, vy);
      Extend(b0, code, Define(tempvarIndex, Apply(fn, [vx, vy])));
    }

    /** `{{t := fn a b}}`, written as the temporary, the function and the two operands. */
    method WriteApply(name: string, fn: string, a: string, b: string, ghost vx: Operand, ghost vy: Operand)
      requires name == TempName(tempvarIndex) && a == RenderOperand(vx) && b == RenderOperand(vy)
      modifies this
      ensures buffer == old(buffer) + RenderInstr(Define(tempvarIndex, Apply(fn, [vx, vy])))
      ensures tempvarIndex == old(tempvarIndex) && indentLevel == old(indentLevel) && mixins == old(mixins)
    {
      Write("{{" + name + " := ");
      Write(fn + " ");
      Write(a + " " + b + "}}");
      ApplyTwoInstr(tempvarIndex, fn, vx, vy);
      Glue3(old(buffer), "{{" + name + " := ", fn + " ", a + " " + b + "}}");
    }

    /** `{{t' := not t}}` after the instruction defining `t`. */
    method ExecNot(name: string, ghost code: seq<Instr>, ghost b0: string) returns (top: string)
      requires tempvarIndex > 0 && name == TempName(tempvarIndex) && buffer == b0 + Render(code)
      modifies this
      ensures indentLevel == old(indentLevel) && mixins == old(mixins)
      ensures tempvarIndex == old(tempvarIndex) + 1 && top == TempName(tempvarIndex)
      ensures buffer == b0 + Render(code + [Define(tempvarIndex, Apply("not", [Temp(old(tempvarIndex))]))])
    {
      ghost var t := tempvarIndex;
      top := Tempvar();
      Write("{{" + top + " := not " + name + "}}");
      NotInstr(t + 1, t);
      Extend(b0, code, Define(t + 1, Apply("not", [Temp(t)])));
    }

    /** The `|` operator: `{{t := a | b}}` (compiler.go:620-621). */
    method ExecPipe(a: string, b: string, ghost code: seq<Instr>, ghost vx: Operand, ghost vy: Operand, ghost b0: string)
      returns (top: string)
      requires buffer == b0 + Render(code)
      requires a == RenderOperand(vx) && b == RenderOperand(vy)
      modifies this
      ensures indentLevel == old(indentLevel) && mixins == old(mixins)
      ensures tempvarIndex == old(tempvarIndex) + 1 && top == TempName(tempvarIndex)
      ensures buffer == b0 + Render(code + [Define(tempvarIndex, Pipe(vx, vy))])
    {
      top := Tempvar();
      Write("{{" + top + " := " + a + " | " + b + "}}");
      PipeInstr(tempvarIndex, vx, vy);
      Extend(b0, code, Define(tempvarIndex, Pipe(vx, vy)));
    }

    method ExecUnary(e: Expr, stack: seq<string>) returns (stack': seq<string>, ok: bool)
      requires e.Unary?
      modifies this
      ensures indentLevel == old(indentLevel) && mixins == old(mixins)
      ensures ok <==> Lower(e, old(tempvarIndex), G.Known(cfg)).Ok?
      ensures ok ==> var l := Lower(e, old(tempvarIndex), G.Known(cfg)).value;
                     buffer == old(buffer) + Render(l.code) && tempvarIndex == l.next &&
                     stack' == [RenderOperand(l.value)] + stack
      decreases e, 1
    {
      ghost var next := tempvarIndex;
      ghost var b0 := buffer;
      var s1;
      s1, ok := Exec(e.x, stack);
      if !ok {
        return s1, false;
      }
      ghost var lx := Lower(e.x, next, G.Known(cfg)).value;
      var (a, r1) := Pop(s1);
      var name;
      name, ok := EmitUnary(e.uop, a, lx.code, lx.value, b0);
      if !ok {
        UnaryUnfoldErr(e, next, G.Known(cfg), lx);
        return s1, false;
      }
      UnaryCode(e, next, G.Known(cfg), lx, UnaryLowering(e.uop).value);
      return [name] + r1, true;
    }

    /**
      `{{t := fn a}}` for a unary operator: the temporary and the head are written before
      the operator is looked at, and an operator without a function fails.
     */
    method EmitUnary(op: UnaryOp, a: string, ghost code: seq<Instr>, ghost v: Operand, ghost b0: string)
      returns (name: string, ok: bool)
      requires buffer == b0 + Render(code) && a == RenderOperand(v)
      modifies this
      ensures indentLevel == old(indentLevel) && mixins == old(mixins)
      ensures ok <==> UnaryLowering(op).Some?
      ensures ok ==> tempvarIndex == old(tempvarIndex) + 1 && name == TempName(tempvarIndex) &&
                     buffer == b0 + Render(code + [Define(tempvarIndex, Apply(UnaryLowering(op).value, [v]))])
    {
      name := Tempvar();
      Write("{{" + name + " := ");
      if UnaryLowering(op).None? {
        return name, false;
      }
      FinishUnary(UnaryLowering(op).value, a, code, v, b0);
      return name, true;
    }

    /** The rest of `{{t := fn a}}`, once its head `{{t := ` is written. */
    method FinishUnary(fn: string, a: string, ghost code: seq<Instr>, ghost v: Operand, ghost b0: string)
      requires buffer == b0 + Render(code) + ("{{" + TempName(tempvarIndex) + " := ") && a == RenderOperand(v)
      modifies this
      ensures indentLevel == old(indentLevel) && mixins == old(mixins) && tempvarIndex == old(tempvarIndex)
      ensures buffer == b0 + Render(code + [Define(tempvarIndex, Apply(fn, [v]))])
    {
      Write(fn + " ");
      Write(a + "}}");
      ApplyOneInstr(tempvarIndex, fn, v);
      Glue3(b0 + Render(code), "{{" + TempName(tempvarIndex) + " := ", fn + " ", a + "}}");
      Extend(b0, code, Define(tempvarIndex, Apply(fn, [v])));
    }

    method ExecSelector(e: Expr, stack: seq<string>) returns (stack': seq<string>, ok: bool)
      requires e.Selector?
      modifies this
      ensures indentLevel == old(indentLevel) && mixins == old(mixins)
      ensures ok <==> Lower(e, old(tempvarIndex), G.Known(cfg)).Ok?
      ensures ok ==> var l := Lower(e, old(tempvarIndex), G.Known(cfg)).value;
                     buffer == old(buffer) + Render(l.code) && tempvarIndex == l.next &&
                     stack' == [RenderOperand(l.value)] + stack
      decreases e, 1
    {
      ghost var next := tempvarIndex;
      ghost var b0 := buffer;
      var s1;
      s1, ok := Exec(e.x, stack);
      if !ok {
        return s1, false;
      }
      ghost var lx := Lower(e.x, next, G.Known(cfg)).value;
      var (x, r1) := Pop(s1);
      var name := EmitField(x, e.sel, lx.code, lx.value, b0);
      SelectorCode(e, next, G.Known(cfg), lx);
      return [name] + r1, true;
    }

    /** `{{t := recv.sel}}`, where a receiver rendered as `.` is written as nothing. */
    method EmitField(x: string, sel: string, ghost code: seq<Instr>, ghost v: Operand, ghost b0: string)
      returns (name: string)
      requires buffer == b0 + Render(code) && x == RenderOperand(v)
      modifies this
      ensures indentLevel == old(indentLevel) && mixins == old(mixins)
      ensures tempvarIndex == old(tempvarIndex) + 1 && name == TempName(tempvarIndex)
      ensures buffer == b0 + Render(code + [Define(tempvarIndex, Field(v, sel))])
    {
      var r := x;
      if r == "." {
        r := "";
      }
      name := Tempvar();
      Write("{{" + name + " := " + r + "." + sel + "}}");
      FieldInstr(tempvarIndex, v, sel);
      Extend(b0, code, Define(tempvarIndex, Field(v, sel)));
    }

    /**
      A call: the arguments from the last to the first, the temporary, then the head of
      the instruction (a builtin's name, a selector's `recv.name ` or the reduced callee)
      and one ` value` per argument in source order.
     */
    method ExecCall(e: Expr, stack: seq<string>) returns (stack': seq<string>, ok: bool)
      requires e.Call?
      modifies this
      ensures indentLevel == old(indentLevel) && mixins == old(mixins)
      ensures ok <==> Lower(e, old(tempvarIndex), G.Known(cfg)).Ok?
      ensures ok ==> var l := Lower(e, old(tempvarIndex), G.Known(cfg)).value;
                     buffer == old(buffer) + Render(l.code) && tempvarIndex == l.next &&
                     stack' == [RenderOperand(l.value)] + stack
      decreases e, 1
    {
      ghost var next := tempvarIndex;
      ghost var b0 := buffer;
      var s;
      s, ok := ExecArgs(e, stack);
      if !ok {
        CallUnfoldArgs(e, next, G.Known(cfg));
        return s, false;
      }
      ghost var la := LowerArgs(e.args, next, G.Known(cfg)).value;
      var name := Tempvar();
      if e.fun.Ident? && e.fun.name in Builtins {
        stack' := ExecBuiltinCall(e, name, s, stack, next, b0, la);
        return stack', true;
      }
      stack', ok := ExecValueCall(e, name, s, stack, next, b0, la);
    }

    /** A call of a builtin: `{{t := name a1 … an}}`. */
    method ExecBuiltinCall(e: Expr, name: string, s: seq<string>, ghost stack: seq<string>, ghost next: nat, ghost b0: string,
                         ghost la: LoweredArgs)
      returns (stack': seq<string>)
      requires e.Call? && e.fun.Ident? && e.fun.name in Builtins
      requires LowerArgs(e.args, next, G.Known(cfg)) == Ok(la)
      requires buffer == b0 + Render(la.code) && tempvarIndex == la.next + 1 && name == TempName(tempvarIndex) &&
               s == RenderOperands(la.values) + stack
      modifies this
      ensures indentLevel == old(indentLevel) && mixins == old(mixins)
      ensures Lower(e, next, G.Known(cfg)).Ok?
      ensures var l := Lower(e, next, G.Known(cfg)).value;
              buffer == b0 + Render(l.code) && tempvarIndex == l.next && stack' == [RenderOperand(l.value)] + stack
    {
      var (f, r) := Pop([e.fun.name] + s);
      assert f == e.fun.name && r == s;
      var rest := WriteCall("{{" + name + " := " + f, r, |e.args|, la.values, stack);
      BuiltinCallCode(e, next, G.Known(cfg), b0, la);
      return [name] + rest;
    }

    /** A call of a method (`recv.name`) or of a reduced value. */
    method ExecValueCall(e: Expr, name: string, s: seq<string>, ghost stack: seq<string>, ghost next: nat, ghost b0: string,
                         ghost la: LoweredArgs)
      returns (stack': seq<string>, ok: bool)
      requires e.Call? && !(e.fun.Ident? && e.fun.name in Builtins)
      requires LowerArgs(e.args, next, G.Known(cfg)) == Ok(la)
      requires buffer == b0 + Render(la.code) && tempvarIndex == la.next + 1 && name == TempName(tempvarIndex) &&
               s == RenderOperands(la.values) + stack
      modifies this
      ensures indentLevel == old(indentLevel) && mixins == old(mixins)
      ensures ok <==> Lower(e, next, G.Known(cfg)).Ok?
      ensures ok ==> var l := Lower(e, next, G.Known(cfg)).value;
                     buffer == b0 + Render(l.code) && tempvarIndex == l.next && stack' == [RenderOperand(l.value)] + stack
      decreases e, 0
    {
      var s1;
      s1, ok := Exec(Callee(e.fun), s);
      if !ok {
        CalleeErr(e, next, G.Known(cfg), la);
        return s1, false;
      }
      ghost var lf := Lower(Callee(e.fun), la.next + 1, G.Known(cfg)).value;
      var (x, r) := Pop(s1);
      assert x == RenderOperand(lf.value) && r == s;
      ghost var b1 := buffer;
      assert b1 == b0 + Render(la.code) + Render(lf.code);
      var rest := WriteValueCall(e.fun, name, x, r, |e.args|, la.next + 1, lf.value, la.values, stack);
      ValueCallCode(e, next, G.Known(cfg), b0, la, lf);
      return [name] + rest, true;
    }

    /** The head of a call's instruction, one ` value` per argument, and the closing `}}`. */
    /** The instruction of a call that is not to a builtin, its callee `x` already popped. */
    method WriteValueCall(fun: Expr, name: string, x: string, s: seq<string>, n: nat,
                          ghost t: nat, ghost f: Operand, ghost values: seq<Operand>, ghost rest: seq<string>)
      returns (s': seq<string>)
      requires x == RenderOperand(f) && name == TempName(t)
      requires |values| == n && s == RenderOperands(values) + rest
      modifies this
      ensures buffer == old(buffer) + (CallHead(fun, t, f) + RenderArgs(values) + "}}") && s' == rest
      ensures tempvarIndex == old(tempvarIndex) && indentLevel == old(indentLevel) && mixins == old(mixins)
    {
      var head;
      if fun.Selector? {
        var y := x;
        if y == "." {
          y := "";
        }
        head := "{{" + name + " := " + y + "." + fun.sel + " ";
      } else {
        head := "{{" + name + " := " + x;
      }
      s' := WriteCall(head, s, n, values, rest);
    }

    method WriteCall(head: string, s: seq<string>, n: nat, ghost values: seq<Operand>, ghost rest: seq<string>)
      returns (s': seq<string>)
      requires |values| == n && s == RenderOperands(values) + rest
      modifies this
      ensures buffer == old(buffer) + (head + RenderArgs(values) + "}}") && s' == rest
      ensures tempvarIndex == old(tempvarIndex) && indentLevel == old(indentLevel) && mixins == old(mixins)
    {
      Write(head);
      s' := WriteArgs(s, n, values, rest);
      Write("}}");
      Glue3(old(buffer), head, RenderArgs(values), "}}");
    }

    /** The arguments of a call, from the last index down (compiler.go:737-739). */
    method ExecArgs(e: Expr, stack: seq<string>) returns (s: seq<string>, ok: bool)
      requires e.Call?
      modifies this
      ensures indentLevel == old(indentLevel) && mixins == old(mixins)
      ensures ok <==> LowerArgs(e.args, old(tempvarIndex), G.Known(cfg)).Ok?
      ensures ok ==> var la := LowerArgs(e.args, old(tempvarIndex), G.Known(cfg)).value;
                     buffer == old(buffer) + Render(la.code) && tempvarIndex == la.next &&
                     s == RenderOperands(la.values) + stack
      decreases e, 0
    {
      ghost var next := tempvarIndex;
      ghost var b0 := buffer;
      var args := e.args;
      s := stack;
      var i := |args|;
      ghost var ls := LoweredArgs([], [], next);
      assert args[i..] == [];
      while i > 0
        invariant 0 <= i <= |args|
        invariant LowerArgs(args[i..], next, G.Known(cfg)) == Ok(ls)
        invariant buffer == b0 + Render(ls.code) && tempvarIndex == ls.next
        invariant s == RenderOperands(ls.values) + stack
        invariant indentLevel == old(indentLevel) && mixins == old(mixins)
      {
        var s1;
        s1, ok := ExecArg(args[i - 1], s, ls, b0, stack);
        ArgsStep(args, i, next, G.Known(cfg));
        if !ok {
          LowerArgsErr(args, i - 1, next, G.Known(cfg));
          return s1, false;
        }
        ghost var la := Lower(args[i - 1], ls.next, G.Known(cfg)).value;
        ls := LoweredArgs(ls.code + la.code, [la.value] + ls.values, la.next);
        s := s1;
        i := i - 1;
      }
      assert args[0..] == args;
      ok := true;
    }

    /** One argument, reduced after those to its right (whose reduction is `ls`). */
    method ExecArg(a: Expr, s: seq<string>, ghost ls: LoweredArgs, ghost b0: string, ghost rest: seq<string>)
      returns (s': seq<string>, ok: bool)
      requires buffer == b0 + Render(ls.code) && tempvarIndex == ls.next && s == RenderOperands(ls.values) + rest
      modifies this
      ensures indentLevel == old(indentLevel) && mixins == old(mixins)
      ensures ok <==> Lower(a, ls.next, G.Known(cfg)).Ok?
      ensures ok ==> var la := Lower(a, ls.next, G.Known(cfg)).value;
                     buffer == b0 + Render(ls.code + la.code) && tempvarIndex == la.next &&
                     s' == RenderOperands([la.value] + ls.values) + rest
      decreases a, 3
    {
      s', ok := Exec(a, s);
      if ok {
        ghost var la := Lower(a, ls.next, G.Known(cfg)).value;
        ExtendCode(b0, ls.code, la.code);
        RenderOperandsCons(la.value, ls.values);
        Glue([RenderOperand(la.value)], RenderOperands(ls.values), rest);
      }
    }

    /** `c.write(" "); c.write(pop())` once per argument (compiler.go:776-779). */
    method WriteArgs(s: seq<string>, n: nat, ghost values: seq<Operand>, ghost rest: seq<string>) returns (s': seq<string>)
      requires |values| == n && s == RenderOperands(values) + rest
      modifies this
      ensures buffer == old(buffer) + RenderArgs(values) && s' == rest
      ensures tempvarIndex == old(tempvarIndex) && indentLevel == old(indentLevel) && mixins == old(mixins)
    {
      s' := s;
      var j := 0;
      while j < n
        invariant 0 <= j <= n
        invariant s' == RenderOperands(values)[j..] + rest
        invariant buffer == old(buffer) + RenderArgs(values[..j])
        invariant tempvarIndex == old(tempvarIndex) && indentLevel == old(indentLevel) && mixins == old(mixins)
      {
        var (v, r) := Pop(s');
        Write(" ");
        Write(v);
        assert values[..j + 1][..j] == values[..j];
        Glue3(old(buffer), RenderArgs(values[..j]), " ", v);
        s' := r;
        j := j + 1;
      }
      assert values[..j] == values;
    }

    /** `visitExpression`: a fresh stack, `exec`, and the value popped off the top. */
    method VisitExpression(e: Expr) returns (value: string, ok: bool)
      modifies this
      ensures indentLevel == old(indentLevel) && mixins == old(mixins)
      ensures ok <==> Lower(e, old(tempvarIndex), G.Known(cfg)).Ok?
      ensures ok ==> var l := Lower(e, old(tempvarIndex), G.Known(cfg)).value;
                     buffer == old(buffer) + Render(l.code) && tempvarIndex == l.next &&
                     value == RenderOperand(l.value)
    {
      var s;
      s, ok := Exec(e, []);
      value := Pop(s).0;
    }

    // -------------------------------------------------------------------------------
    // Interpolation

    /**
      `visitRawInterpolation` (compiler.go:560-581): `$` renamed, the text parsed (once
      more with its framing single quotes overwritten by double quotes if that fails),
      the expression translated, and the name put back into the value's text.
     */
    method VisitRawInterpolation(value: string) returns (v: string, ok: bool)
      modifies this
      ensures ok <==> G.RawInterp(cfg, old(State()), value).Ok?
      ensures ok ==> State() == G.RawInterp(cfg, old(State()), value).value.st &&
                     v == G.RawInterp(cfg, old(State()), value).value.value
    {
      var x := Strings.ReplaceAll(value, "$", DollarMarker);
      var e := cfg.parseExpr(x);
      if e.None? {
        if |x| == 0 {
          return "", false;
        }
        if x[0] == '\'' && x[|x| - 1] == '\'' {
          var b := new char[|x|](i requires 0 <= i < |x| => x[i]);
          b[0] := '"';
          b[|x| - 1] := '"';
          DoubleQuoted(x, b[..]);
          e := cfg.parseExpr(b[..]);
        }
      }
      assert e == G.ParseInterp(cfg, x);
      if e.None? {
        return "", false;
      }
      var r;
      r, ok := VisitExpression(e.value);
      if !ok {
        return "", false;
      }
      v := Strings.ReplaceAll(r, DollarMarker, "$");
    }

    /** `visitInterpolation` (compiler.go:552-554): the value as an action. */
    method VisitInterpolation(value: string) returns (v: string, ok: bool)
      modifies this
      ensures ok <==> G.Interp(cfg, old(State()), value).Ok?
      ensures ok ==> State() == G.Interp(cfg, old(State()), value).value.st &&
                     v == G.Interp(cfg, old(State()), value).value.value
    {
      var r;
      r, ok := VisitRawInterpolation(value);
      v := "{{" + r + "}}";
    }

    /** `visitJSInterpolation` (compiler.go:556-558): the value as a `safeJS` action. */
    method VisitJSInterpolation(value: string) returns (v: string, ok: bool)
      modifies this
      ensures ok <==> G.RawInterp(cfg, old(State()), value).Ok?
      ensures ok ==> State() == G.RawInterp(cfg, old(State()), value).value.st &&
                     v == "{{ safeJS " + G.RawInterp(cfg, old(State()), value).value.value + "}}"
    {
      var r;
      r, ok := VisitRawInterpolation(value);
      v := "{{ safeJS " + r + "}}";
    }

    // -------------------------------------------------------------------------------
    // Text

    /**
      The `#{…}` replacement of `visitText` (compiler.go:537-539): each match is
      interpolated as it is met and the pieces are glued in order.
     */
    method InterpolateSegments(segs: seq<Text.Segment>) returns (v: string, ok: bool)
      modifies this
      ensures ok <==> G.InterpSegments(cfg, old(State()), segs).Ok?
      ensures ok ==> State() == G.InterpSegments(cfg, old(State()), segs).value.st &&
                     v == G.InterpSegments(cfg, old(State()), segs).value.value
      decreases |segs|
    {
      if segs == [] {
        return "", true;
      }
      var first;
      match segs[0] {
        case Plain(t) =>
          first := t;
        case Hole(inner) =>
          first, ok := VisitInterpolation(inner);
          if !ok {
            return "", false;
          }
      }
      var rest;
      rest, ok := InterpolateSegments(segs[1..]);
      v := first + rest;
    }

    /**
      `visitText` (compiler.go:532-550): braces neutralised, interpolations made, then
      every line written, each but the last followed by a newline and the indentation.
     */
    method VisitText(value: string) returns (ok: bool)
      modifies this
      ensures ok <==> G.VisitText(cfg, old(State()), value).Ok?
      ensures ok ==> State() == G.VisitText(cfg, old(State()), value).value
    {
      var segs := Text.Scan(Text.EscapeBraces(value), "#{", "}");
      var v;
      v, ok := InterpolateSegments(segs);
      if !ok {
        return false;
      }
      WriteLines(v);
    }

    /**
      The loop of `visitText` (compiler.go:541-549): each line of `v`, and after every
      line but the last a newline and the indentation.
     */
    method WriteLines(v: string)
      modifies this
      ensures buffer == old(buffer) + Text.Layout(v, if cfg.prettyPrint then G.Tabs(indentLevel) else "")
      ensures tempvarIndex == old(tempvarIndex) && indentLevel == old(indentLevel) && mixins == old(mixins)
    {
      ghost var start := buffer;
      ghost var sep := "\n" + if cfg.prettyPrint then G.Tabs(indentLevel) else "";
      var lines := Strings.Split(v, '\n');
      var i := 0;
      while i < |lines|
        invariant 0 <= i <= |lines|
        invariant i == 0 ==> buffer == start
        invariant 0 < i ==> buffer == start + Strings.Join(lines[..i], sep) + (if i < |lines| then sep else "")
        invariant tempvarIndex == old(tempvarIndex) && indentLevel == old(indentLevel) && mixins == old(mixins)
      {
        ghost var before := buffer;
        Write(lines[i]);
        assert buffer == start + Strings.Join(lines[..i + 1], sep) by {
          assert lines[..i + 1] == lines[..i] + [lines[i]];
          if i == 0 {
            assert lines[..1] == [lines[0]];
          } else {
            Strings.JoinSnoc(lines[..i], lines[i], sep);
            Glue3(start, Strings.Join(lines[..i], sep), sep, lines[i]);
          }
        }
        if i < |lines| - 1 {
          Write("\n");
          Indent(false);
          assert buffer == start + Strings.Join(lines[..i + 1], sep) + sep by {
            Glue(start + Strings.Join(lines[..i + 1], sep), "\n", if cfg.prettyPrint then G.Tabs(indentLevel) else "");
          }
        }
        i := i + 1;
      }
      assert lines[..i] == lines;
    }

    // -------------------------------------------------------------------------------
    // Tags

    /**
      One attribute of `visitTag`'s loop (compiler.go:438-457): a value that is not raw is
      interpolated, as a `safeJS` action when the name starts with `on`; a guard is
      interpolated without braces.
     */
    method TranslateAttribute(item: Attribute) returns (a: Attributes.Attrib, ok: bool)
      modifies this
      ensures ok <==> G.TranslateAttr(cfg, old(State()), item).Ok?
      ensures ok ==> (State(), a) == G.TranslateAttr(cfg, old(State()), item).value
    {
      var value;
      if !item.isRaw {
        if Strings.StartsWith(item.name, "on") {
          value, ok := VisitJSInterpolation(item.value);
        } else {
          value, ok := VisitInterpolation(item.value);
        }
        if !ok {
          return Attributes.Attrib("", ""), false;
        }
      } else if item.value == "" {
        value := "";
      } else {
        value := item.value;
      }
      var condition := "";
      if |item.condition| != 0 {
        condition, ok := VisitRawInterpolation(item.condition);
        if !ok {
          return Attributes.Attrib("", ""), false;
        }
      }
      return Attributes.Attrib(value, condition), true;
    }

    /**
      The attribute table of `visitTag` (compiler.go:434-478): a second `class` is glued
      to the entry already there, each part in its own guard; any other name replaces it.
     */
    /** A further `class` after the first: both values, each inside its condition (compiler.go:459-474). */
    method GlueClass(prev: Attributes.Attrib, a: Attributes.Attrib) returns (v: string)
      ensures v == Attributes.Guarded(prev) + Attributes.Guarded(Attributes.Attrib(" " + a.value, a.condition))
    {
      var value := " " + a.value;
      if |a.condition| > 0 {
        value := "{{if " + a.condition + "}}" + value + "{{end}}";
      }
      var prevValue := prev.value;
      if |prev.condition| > 0 {
        prevValue := "{{if " + prev.condition + "}}" + prevValue + "{{end}}";
      }
      v := prevValue + value;
    }

    /** One entry into the table: a further `class` is glued, any other name replaces its entry. */
    method AddAttribute(table: map<string, Attributes.Attrib>, name: string, a: Attributes.Attrib)
      returns (table': map<string, Attributes.Attrib>)
      ensures table' == Attributes.AddItem(table, name, a)
    {
      if name == "class" && "class" in table {
        var glued := GlueClass(table["class"], a);
        table' := table["class" := Attributes.Attrib(glued, "")];
      } else {
        table' := table[name := a];
      }
    }

    method TranslateAttributes(attrs: seq<Attribute>) returns (table: map<string, Attributes.Attrib>, ok: bool)
      modifies this
      ensures ok <==> G.TranslateAttrs(cfg, old(State()), attrs).Ok?
      ensures ok ==> State() == G.TranslateAttrs(cfg, old(State()), attrs).value.st &&
                     table == G.TranslateAttrs(cfg, old(State()), attrs).value.table
    {
      ghost var st0 := State();
      table := map[];
      ghost var items: seq<(string, Attributes.Attrib)> := [];
      var i := 0;
      assert attrs[..0] == [];
      while i < |attrs|
        invariant 0 <= i <= |attrs|
        invariant G.TranslateAttrs(cfg, st0, attrs[..i]) == Ok(G.AttrTable(State(), items, table))
      {
        var item := attrs[i];
        ghost var prev := G.AttrTable(State(), items, table);
        var a;
        a, ok := TranslateAttribute(item);
        if !ok {
          G.TranslateAttrsStepErr(cfg, st0, attrs, i, prev);
          return table, false;
        }
        assert G.TranslateAttr(cfg, prev.st, item) == Ok((State(), a));
        G.TranslateAttrsStep(cfg, st0, attrs, i, prev, State(), a);
        table := AddAttribute(table, item.name, a);
        items := items + [(item.name, a)];
        i := i + 1;
      }
      assert attrs[..i] == attrs;
      ok := true;
    }

    /**
      The attributes of a tag in increasing name order (compiler.go:482-505): the names
      are collected from the table in whatever order the map yields them and sorted.
     */
    method WriteAttributes(table: map<string, Attributes.Attrib>)
      modifies this
      ensures buffer == old(buffer) + Attributes.EmitAttrs(table)
      ensures tempvarIndex == old(tempvarIndex) && indentLevel == old(indentLevel) && mixins == old(mixins)
    {
      var listed := ListNames(table);
      Strings.SortListing(listed, table.Keys);
      var names := Strings.SortStrings(listed);
      Attributes.EmitSorted(table, names);
      WriteAttributeList(names, table);
    }

    /** The loop over the sorted names (compiler.go:488-505). */
    method WriteAttributeList(names: seq<string>, table: map<string, Attributes.Attrib>)
      requires forall k :: 0 <= k < |names| ==> names[k] in table
      modifies this
      ensures buffer == old(buffer) + Attributes.EmitNames(names, table)
      ensures tempvarIndex == old(tempvarIndex) && indentLevel == old(indentLevel) && mixins == old(mixins)
    {
      var j := 0;
      while j < |names|
        invariant 0 <= j <= |names|
        invariant buffer == old(buffer) + Attributes.EmitNames(names[..j], table)
        invariant tempvarIndex == old(tempvarIndex) && indentLevel == old(indentLevel) && mixins == old(mixins)
      {
        Attributes.EmitNamesSnoc(names, table, j);
        Glue(old(buffer), Attributes.EmitNames(names[..j], table), Attributes.EmitAttr(names[j], table[names[j]]));
        WriteAttribute(names[j], table[names[j]]);
        j := j + 1;
      }
      assert names[..j] == names;
    }

    /** `for k := range attribs`: every name of the table once, in no particular order. */
    method ListNames(table: map<string, Attributes.Attrib>) returns (listed: seq<string>)
      ensures Strings.Distinct(listed)
      ensures forall x :: x in listed <==> x in table
    {
      listed := [];
      var rest := table.Keys;
      while rest != {}
        invariant rest <= table.Keys
        invariant Strings.Distinct(listed)
        invariant forall x :: x in listed <==> x in table.Keys && x !in rest
        decreases |rest|
      {
        var k :| k in rest;
        listed := listed + [k];
        rest := rest - {k};
      }
    }

    /** One attribute: its guard around ` name` or ` name="value"` (compiler.go:490-504). */
    method WriteAttribute(name: string, value: Attributes.Attrib)
      modifies this
      ensures buffer == old(buffer) + Attributes.EmitAttr(name, value)
      ensures tempvarIndex == old(tempvarIndex) && indentLevel == old(indentLevel) && mixins == old(mixins)
    {
      ghost var body := if value.value == "" then " " + name else " " + name + "=\"" + value.value + "\"";
      if |value.condition| > 0 {
        Write("{{if " + value.condition + "}}");
      }
      if value.value == "" {
        Write(" " + name);
      } else {
        Write(" " + name + "=\"" + value.value + "\"");
      }
      if |value.condition| > 0 {
        Write("{{end}}");
        Glue3(old(buffer), "{{if " + value.condition + "}}", body, "{{end}}");
      }
    }

    /**
      `visitTag` (compiler.go:425-530): the attributes are translated first, then the tag
      opens on a new line with its attributes in name order and is closed after its block.
     */
    method VisitTag(n: Node, fuel: nat) returns (ok: bool)
      requires n.Tag?
      modifies this
      ensures ok <==> G.VisitTag(cfg, old(State()), n.name, n.attributes, n.block, cfg.isSelfClosing(n), fuel).Ok?
      ensures ok ==> State() == G.VisitTag(cfg, old(State()), n.name, n.attributes, n.block, cfg.isSelfClosing(n), fuel).value
      decreases fuel, n, 0
    {
      var table;
      table, ok := TranslateAttributes(n.attributes);
      if !ok {
        return false;
      }
      Indent(true);
      ghost var atTag := buffer;
      Write("<" + n.name);
      WriteAttributes(table);
      Glue(atTag, "<" + n.name, Attributes.EmitAttrs(table));
      if cfg.isSelfClosing(n) {
        Write(" />");
        return true;
      }
      Write(">");
      ok := VisitTagBody(n.block, fuel);
      if !ok {
        return false;
      }
      Write("</" + n.name + ">");
    }

    /** The block of a tag: one level deeper, and a new line after it, unless it is inline. */
    method VisitTagBody(b: OptBlock, fuel: nat) returns (ok: bool)
      modifies this
      ensures ok <==> G.VisitTagBody(cfg, old(State()), b, fuel).Ok?
      ensures ok ==> State() == G.VisitTagBody(cfg, old(State()), b, fuel).value
      decreases fuel, b, 2
    {
      if b.NoBlock? {
        return true;
      }
      var inline := cfg.canInline(b.children);
      if !inline {
        indentLevel := indentLevel + 1;
      }
      ok := VisitBlock(b, fuel);
      if !ok {
        return false;
      }
      if !inline {
        indentLevel := indentLevel - 1;
        Indent(true);
      }
    }

    // -------------------------------------------------------------------------------
    // The walk

    /** `visit` (compiler.go:289-330): one method per kind of node. */
    method Visit(n: Node, fuel: nat) returns (ok: bool)
      modifies this
      ensures ok <==> G.Visit(cfg, old(State()), n, fuel).Ok?
      ensures ok ==> State() == G.Visit(cfg, old(State()), n, fuel).value
      decreases fuel, n, 1
    {
      match n {
        case Block(cs) =>
          ok := VisitChildren(cs, fuel);
        case Slot(_) =>
          ok := true;
        case Doctype(v) =>
          Write(cfg.doctype(v));
          ok := true;
        case Comment(_, _, _) =>
          ok := VisitComment(n, fuel);
        case Tag(_, _, _) =>
          ok := VisitTag(n, fuel);
        case Text(v, _) =>
          ok := VisitText(v);
        case Condition(_, _, _) =>
          ok := VisitCondition(n, fuel);
        case Each(_, _, _, _) =>
          ok := VisitEach(n, fuel);
        case Buffered(_, _) =>
          ok := VisitBuffered(n);
        case Assignment(_, _) =>
          ok := VisitAssignment(n);
        case Mixin(_, _, _) =>
          VisitMixin(n);
          ok := true;
        case MixinCall(_, _) =>
          ok := VisitMixinCall(n, fuel);
      }
    }

    /** `visitBlock` (compiler.go:359-367); a nil block is dereferenced, which panics. */
    method VisitBlock(b: OptBlock, fuel: nat) returns (ok: bool)
      modifies this
      ensures ok <==> G.VisitBlock(cfg, old(State()), b, fuel).Ok?
      ensures ok ==> State() == G.VisitBlock(cfg, old(State()), b, fuel).value
      decreases fuel, b, 1
    {
      if b.NoBlock? {
        return false;
      }
      ok := VisitChildren(b.children, fuel);
    }

    /** The loop of `visitBlock`: a text child starts a new line unless the block is inline. */
    method VisitChildren(cs: seq<Node>, fuel: nat) returns (ok: bool)
      modifies this
      ensures ok <==> G.VisitChildren(cfg, old(State()), cs, cfg.canInline(cs), fuel).Ok?
      ensures ok ==> State() == G.VisitChildren(cfg, old(State()), cs, cfg.canInline(cs), fuel).value
      decreases fuel, cs, 0
    {
      ghost var st0 := State();
      var i := 0;
      while i < |cs|
        invariant 0 <= i <= |cs|
        invariant G.VisitChildren(cfg, st0, cs, cfg.canInline(cs), fuel) ==
                  G.VisitChildren(cfg, State(), cs[i..], cfg.canInline(cs), fuel)
      {
        assert cs[i..][0] == cs[i] && cs[i..][1..] == cs[i + 1..];
        if !cfg.canInline(cs) && cs[i].Text? {
          Indent(true);
        }
        ok := Visit(cs[i], fuel);
        if !ok {
          return false;
        }
        i := i + 1;
      }
      assert cs[i..] == [];
      return true;
    }

    /** `visitComment` (compiler.go:373-387). */
    method VisitComment(n: Node, fuel: nat) returns (ok: bool)
      requires n.Comment?
      modifies this
      ensures ok <==> G.VisitComment(cfg, old(State()), n.value, n.silent, n.block, fuel).Ok?
      ensures ok ==> State() == G.VisitComment(cfg, old(State()), n.value, n.silent, n.block, fuel).value
      decreases fuel, n, 0
    {
      if n.silent {
        return true;
      }
      Indent(false);
      if n.block.NoBlock? {
        Write("{{unescaped \"<!-- " + Text.Escape(n.value) + " -->\"}}");
        return true;
      }
      Write("<!-- " + n.value);
      ok := VisitBlock(n.block, fuel);
      if !ok {
        return false;
      }
      Write(" -->");
    }

    /** `visitCondition` (compiler.go:389-397). */
    method VisitCondition(n: Node, fuel: nat) returns (ok: bool)
      requires n.Condition?
      modifies this
      ensures ok <==> G.VisitCondition(cfg, old(State()), n, fuel).Ok?
      ensures ok ==> State() == G.VisitCondition(cfg, old(State()), n, fuel).value
      decreases fuel, n, 0
    {
      var v;
      v, ok := VisitRawInterpolation(n.expression);
      if !ok {
        return false;
      }
      Write("{{if " + v + "}}");
      ok := VisitBlock(n.positive, fuel);
      if !ok {
        return false;
      }
      if n.negative.SomeBlock? {
        Write("{{else}}");
        ok := VisitBlock(n.negative, fuel);
        if !ok {
          return false;
        }
      }
      Write("{{end}}");
    }

    /** `visitEach` (compiler.go:399-411). */
    method VisitEach(n: Node, fuel: nat) returns (ok: bool)
      requires n.Each?
      modifies this
      ensures ok <==> G.VisitEach(cfg, old(State()), n.x, n.y, n.expression, n.block, fuel).Ok?
      ensures ok ==> State() == G.VisitEach(cfg, old(State()), n.x, n.y, n.expression, n.block, fuel).value
      decreases fuel, n, 0
    {
      if n.block.NoBlock? {
        return true;
      }
      var v;
      v, ok := VisitRawInterpolation(n.expression);
      if !ok {
        return false;
      }
      if |n.y| == 0 {
        Write("{{range " + n.x + " := " + v + "}}");
      } else {
        Write("{{range " + n.x + ", " + n.y + " := " + v + "}}");
      }
      ok := VisitBlock(n.block, fuel);
      if !ok {
        return false;
      }
      Write("{{end}}");
    }

    /** `visitBuffered` (compiler.go:413-419): the value as an action, escaped or not. */
    method VisitBuffered(n: Node) returns (ok: bool)
      requires n.Buffered?
      modifies this
      ensures ok <==> G.RawInterp(cfg, old(State()), n.expression).Ok?
      ensures ok ==> var v := G.RawInterp(cfg, old(State()), n.expression).value;
                     State() == G.Write(v.st, if n.escaped then "{{" + v.value + "}}" else "{{unescaped " + v.value + "}}")
    {
      var v;
      v, ok := VisitRawInterpolation(n.expression);
      if !ok {
        return false;
      }
      if n.escaped {
        Write("{{" + v + "}}");
      } else {
        Write("{{unescaped " + v + "}}");
      }
    }

    /** `visitAssignment` (compiler.go:421-423): `{{x := value}}`. */
    method VisitAssignment(n: Node) returns (ok: bool)
      requires n.Assignment?
      modifies this
      ensures ok <==> G.RawInterp(cfg, old(State()), n.expression).Ok?
      ensures ok ==> var v := G.RawInterp(cfg, old(State()), n.expression).value;
                     State() == G.Write(v.st, "{{" + n.x + " := " + v.value + "}}")
    {
      var v;
      v, ok := VisitRawInterpolation(n.expression);
      if !ok {
        return false;
      }
      Write("{{" + n.x + " := " + v + "}}");
    }

    /** `visitMixin` (compiler.go:793-795): the mixin is recorded under its name. */
    method VisitMixin(n: Node)
      requires n.Mixin?
      modifies this
      ensures State() == old(State()).(mixins := old(mixins)[n.name := G.MixinDef(n.args, n.block)])
    {
      mixins := mixins[n.name := G.MixinDef(n.args, n.block)];
    }

    /**
      `visitMixinCall` (compiler.go:797-803): a mixin not recorded yet is a nil pointer;
      its parameters are bound to the call's arguments, then its block is visited.
     */
    method VisitMixinCall(n: Node, fuel: nat) returns (ok: bool)
      requires n.MixinCall?
      modifies this
      ensures ok <==> G.VisitMixinCall(cfg, old(State()), n.name, n.args, fuel).Ok?
      ensures ok ==> State() == G.VisitMixinCall(cfg, old(State()), n.name, n.args, fuel).value
      decreases fuel, n, 0
    {
      if n.name !in mixins {
        return false;
      }
      ghost var st0 := State();
      var def := mixins[n.name];
      var bound := BindArgs(def.args, n.args);
      ghost var st1 := State();
      ok := false;
      if bound && fuel > 0 {
        ok := VisitBlock(def.block, fuel - 1);
      }
      MixinCallResult(cfg, st0, n.name, n.args, fuel, def, bound, st1, ok, State());
    }

    /** The loop of `visitMixinCall`: `{{param := value}}` for each parameter, in order. */
    method BindArgs(params: seq<string>, args: seq<string>) returns (ok: bool)
      modifies this
      ensures ok <==> G.BindArgs(cfg, old(State()), params, args).Ok?
      ensures ok ==> State() == G.BindArgs(cfg, old(State()), params, args).value
    {
      ghost var st0 := State();
      var i := 0;
      while i < |params|
        invariant 0 <= i <= |params| && i <= |args|
        invariant G.BindArgs(cfg, st0, params, args) == G.BindArgs(cfg, State(), params[i..], args[i..])
      {
        assert params[i..][0] == params[i] && params[i..][1..] == params[i + 1..];
        if i >= |args| {
          return false;
        }
        assert args[i..][0] == args[i] && args[i..][1..] == args[i + 1..];
        var v;
        v, ok := VisitRawInterpolation(args[i]);
        if !ok {
          return false;
        }
        Write("{{" + params[i] + " := " + v + "}}");
        i := i + 1;
      }
      assert params[i..] == [];
      return true;
    }

    /**
      `CompileWriter` (compiler.go:256-271) on a resolved tree: a fresh buffer, the walk,
      a final newline if anything was written; the text goes to `out` and the buffer is
      left empty, as `WriteTo` drains it.
     */
    method CompileWriter(root: Node, fuel: nat) returns (out: string, ok: bool)
      modifies this
      ensures ok <==> G.CompileWriter(cfg, old(State()), root, fuel).Ok?
      ensures ok ==> out == G.CompileWriter(cfg, old(State()), root, fuel).value.out &&
                     State() == G.CompileWriter(cfg, old(State()), root, fuel).value.(out := "")
    {
      buffer := "";
      ok := Visit(root, fuel);
      if !ok {
        return "", false;
      }
      if |buffer| > 0 {
        Write("\n");
      }
      out := buffer;
      buffer := "";
    }
  }

  // ---------------------------------------------------------------------------------
  // How the steps of `exec` match `Lower`: one lemma unfolding `Lower` per expression
  // kind, one giving the text of the instructions each step adds.

  /** A loop that writes `ss[j]` after `ss[..j]` has written `ss[..j + 1]`. */
  lemma ConcatStep(start: string, ss: seq<string>, j: nat, before: string, after: string)
    requires j < |ss| && before == start + Strings.Concat(ss[..j]) && after == before + ss[j]
    ensures after == start + Strings.Concat(ss[..j + 1])
  {
    Strings.ConcatTake(ss, j);
    Glue(start, Strings.Concat(ss[..j]), ss[j]);
  }

  lemma Glue<T>(b0: seq<T>, r: seq<T>, w: seq<T>)
    ensures b0 + r + w == b0 + (r + w)
  {
  }

  lemma Glue3(b: string, p: string, q: string, w: string)
    ensures b + p + q + w == b + (p + q + w)
  {
    Glue(b, p, q);
    Glue(b, p + q, w);
  }

  /** Appending the text of one more instruction. */
  lemma Extend(b0: string, code: seq<Instr>, i: Instr)
    ensures b0 + Render(code) + RenderInstr(i) == b0 + Render(code + [i])
  {
    RenderSnoc(code, i);
    Glue(b0, Render(code), RenderInstr(i));
  }

  lemma PipeInstr(t: nat, x: Operand, y: Operand)
    ensures RenderInstr(Define(t, Pipe(x, y))) ==
            "{{" + TempName(t) + " := " + RenderOperand(x) + " | " + RenderOperand(y) + "}}"
  {
    var p := "{{" + TempName(t) + " := ";
    var a := RenderOperand(x);
    Glue(p, a + " | ", RenderOperand(y));
    Glue(p, a, " | ");
  }

  lemma ApplyTwoInstr(t: nat, fn: string, x: Operand, y: Operand)
    ensures RenderInstr(Define(t, Apply(fn, [x, y]))) ==
            ("{{" + TempName(t) + " := ") + (fn + " ") + (RenderOperand(x) + " " + RenderOperand(y) + "}}")
  {
    var a := RenderOperand(x);
    var b := RenderOperand(y);
    assert RenderArgs([x]) == " " + a by {
      assert [x][..0] == [];
    }
    assert RenderArgs([x, y]) == " " + a + " " + b by {
      assert [x, y][..1] == [x];
    }
    var p := "{{" + TempName(t) + " := ";
    var z := a + " " + b;
    Glue(" ", a + " ", b);
    Glue(" ", a, " ");
    Glue(fn, " ", z);
    Glue(p, fn + " ", z);
    Glue(p + (fn + " "), z, "}}");
  }

  lemma ApplyOneInstr(t: nat, fn: string, x: Operand)
    ensures RenderInstr(Define(t, Apply(fn, [x]))) ==
            ("{{" + TempName(t) + " := ") + (fn + " ") + (RenderOperand(x) + "}}")
  {
    var a := RenderOperand(x);
    assert RenderArgs([x]) == " " + a by {
      assert [x][..0] == [];
    }
    var p := "{{" + TempName(t) + " := ";
    Glue(fn, " ", a);
    Glue(p, fn + " ", a);
    Glue(p + (fn + " "), a, "}}");
  }

  lemma NotInstr(t: nat, u: nat)
    ensures RenderInstr(Define(t, Apply("not", [Temp(u)]))) == "{{" + TempName(t) + " := not " + TempName(u) + "}}"
  {
    ApplyOneInstr(t, "not", Temp(u));
    var q := "{{" + TempName(t);
    assert "not" + " " == "not " && " := " + "not " == " := not ";
    Glue(q, " := ", "not ");
    Glue(q + " := not ", TempName(u), "}}");
  }

  lemma FieldInstr(t: nat, x: Operand, sel: string)
    ensures RenderInstr(Define(t, Field(x, sel))) == "{{" + TempName(t) + " := " + Receiver(x) + "." + sel + "}}"
  {
    var p, r := "{{" + TempName(t) + " := ", Receiver(x);
    Glue(p, r + ".", sel);
    Glue(p, r, ".");
  }

  lemma ApplyInstr(t: nat, fn: string, vs: seq<Operand>)
    ensures RenderInstr(Define(t, Apply(fn, vs))) == ("{{" + TempName(t) + " := " + fn) + RenderArgs(vs) + "}}"
  {
    Glue("{{" + TempName(t) + " := ", fn, RenderArgs(vs));
  }

  lemma ApplyValueInstr(t: nat, f: Operand, vs: seq<Operand>)
    ensures RenderInstr(Define(t, ApplyValue(f, vs))) == ("{{" + TempName(t) + " := " + RenderOperand(f)) + RenderArgs(vs) + "}}"
  {
    Glue("{{" + TempName(t) + " := ", RenderOperand(f), RenderArgs(vs));
  }

  lemma MethodInstr(t: nat, x: Operand, sel: string, vs: seq<Operand>)
    ensures RenderInstr(Define(t, Method(x, sel, vs))) ==
            ("{{" + TempName(t) + " := " + Receiver(x) + "." + sel + " ") + RenderArgs(vs) + "}}"
  {
    var p, r := "{{" + TempName(t) + " := ", Receiver(x);
    Glue(p, r + "." + sel + " ", RenderArgs(vs));
    Glue(p, r + "." + sel, " ");
    Glue(p, r + ".", sel);
    Glue(p, r, ".");
  }

  lemma PipeStep(code: seq<Instr>, vx: Operand, vy: Operand, lo: nat, hi: nat)
    requires Fresh(code, lo, hi)
    ensures BinaryStep(BitOr, code, vx, vy, lo, hi) == Ok(Lowered(code + [Define(hi + 1, Pipe(vx, vy))], Temp(hi + 1), hi + 1))
  {
  }

  lemma ApplyStep(op: BinaryOp, fn: string, code: seq<Instr>, vx: Operand, vy: Operand, lo: nat, hi: nat)
    requires Fresh(code, lo, hi) && op != BitOr && BinaryLowering(op) == Some((fn, false))
    ensures BinaryStep(op, code, vx, vy, lo, hi) == Ok(Lowered(code + [Define(hi + 1, Apply(fn, [vx, vy]))], Temp(hi + 1), hi + 1))
  {
  }

  lemma NegatedStep(op: BinaryOp, fn: string, code: seq<Instr>, vx: Operand, vy: Operand, lo: nat, hi: nat)
    requires Fresh(code, lo, hi) && op != BitOr && BinaryLowering(op) == Some((fn, true))
    ensures BinaryStep(op, code, vx, vy, lo, hi) ==
            Ok(Lowered(code + [Define(hi + 1, Apply(fn, [vx, vy]))] + [Define(hi + 2, Apply("not", [Temp(hi + 1)]))],
                       Temp(hi + 2), hi + 2))
  {
  }

  lemma BinaryUnfold(e: Expr, next: nat, known: set<string>)
    requires e.Binary? && Lower(e.y, next, known).Ok? && Lower(e.x, Lower(e.y, next, known).value.next, known).Ok?
    ensures var ly := Lower(e.y, next, known).value;
            var lx := Lower(e.x, ly.next, known).value;
            Fresh(ly.code + lx.code, next, lx.next) &&
            Lower(e, next, known) == BinaryStep(e.op, ly.code + lx.code, lx.value, ly.value, next, lx.next)
  {
    var ly := Lower(e.y, next, known).value;
    var lx := Lower(e.x, ly.next, known).value;
    FreshAppend(ly.code, lx.code, next, ly.next, lx.next);
  }

  lemma UnaryUnfoldErr(e: Expr, next: nat, known: set<string>, lx: Lowered)
    requires e.Unary? && Lower(e.x, next, known) == Ok(lx) && UnaryLowering(e.uop).None?
    ensures Lower(e, next, known).Err?
  {
  }

  /** A unary operator with a function, once its operand is reduced. */
  lemma UnaryCode(e: Expr, next: nat, known: set<string>, lx: Lowered, fn: string)
    requires e.Unary? && Lower(e.x, next, known) == Ok(lx) && UnaryLowering(e.uop) == Some(fn)
    ensures Lower(e, next, known) ==
              Ok(Lowered(lx.code + [Define(lx.next + 1, Apply(fn, [lx.value]))], Temp(lx.next + 1), lx.next + 1))
  {
  }

  /** A field selection, once its operand is reduced. */
  lemma SelectorCode(e: Expr, next: nat, known: set<string>, lx: Lowered)
    requires e.Selector? && Lower(e.x, next, known) == Ok(lx)
    ensures Lower(e, next, known) ==
              Ok(Lowered(lx.code + [Define(lx.next + 1, Field(lx.value, e.sel))], Temp(lx.next + 1), lx.next + 1))
  {
  }

  lemma CallUnfoldArgs(e: Expr, next: nat, known: set<string>)
    requires e.Call? && LowerArgs(e.args, next, known).Err?
    ensures Lower(e, next, known).Err?
  {
  }

  /** The head of the instruction of a call that is not to a builtin. */
  function CallHead(fun: Expr, t: nat, f: Operand): string {
    if fun.Selector? then "{{" + TempName(t) + " := " + Receiver(f) + "." + fun.sel + " "
    else "{{" + TempName(t) + " := " + RenderOperand(f)
  }

  /** What a call's instruction adds to the code of its arguments (`la`) and of its callee (`lf`). */
  lemma CalleeErr(e: Expr, next: nat, known: set<string>, la: LoweredArgs)
    requires e.Call? && !(e.fun.Ident? && e.fun.name in Builtins)
    requires LowerArgs(e.args, next, known) == Ok(la) && Lower(Callee(e.fun), la.next + 1, known).Err?
    ensures Lower(e, next, known).Err?
  {
  }

  lemma ValueCallCode(e: Expr, next: nat, known: set<string>, b0: string, la: LoweredArgs, lf: Lowered)
    requires e.Call? && !(e.fun.Ident? && e.fun.name in Builtins)
    requires LowerArgs(e.args, next, known) == Ok(la) && Lower(Callee(e.fun), la.next + 1, known) == Ok(lf)
    ensures Fresh(la.code, next, la.next) && Fresh(lf.code, la.next + 1, lf.next)
    ensures Lower(e, next, known) == Ok(CallStep(e.fun, la, lf, next))
    ensures b0 + Render(la.code) + Render(lf.code) + (CallHead(e.fun, la.next + 1, lf.value) + RenderArgs(la.values) + "}}") ==
            b0 + Render(CallStep(e.fun, la, lf, next).code)
  {
    var t := la.next + 1;
    CallUnfoldOk(e, next, known, la, lf);
    var i := if e.fun.Selector? then Define(t, Method(lf.value, e.fun.sel, la.values))
             else Define(t, ApplyValue(lf.value, la.values));
    if e.fun.Selector? {
      MethodInstr(t, lf.value, e.fun.sel, la.values);
    } else {
      ApplyValueInstr(t, lf.value, la.values);
    }
    assert RenderInstr(i) == CallHead(e.fun, t, lf.value) + RenderArgs(la.values) + "}}";
    ExtendCode(b0, la.code, lf.code);
    Extend(b0, la.code + lf.code, i);
    CallStepCode(e.fun, la, lf, next);
  }

  /** A call of a defined mixin binds its arguments, then visits the mixin's block. */
  lemma MixinCallResult(cfg: G.Config, st: G.GenState, name: string, args: seq<string>, fuel: nat,
                        def: G.MixinDef, bound: bool, st1: G.GenState, ok: bool, st2: G.GenState)
    requires name in st.mixins && st.mixins[name] == def
    requires var b := G.BindArgs(cfg, st, def.args, args);
             (bound <==> b.Ok?) && (bound ==> st1 == b.value)
    requires if bound && fuel > 0
             then var v := G.VisitBlock(cfg, st1, def.block, fuel - 1);
                  (ok <==> v.Ok?) && (ok ==> st2 == v.value)
             else !ok
    ensures ok <==> G.VisitMixinCall(cfg, st, name, args, fuel).Ok?
    ensures ok ==> st2 == G.VisitMixinCall(cfg, st, name, args, fuel).value
  {
  }

  /** What a builtin call's instruction adds to the code of its arguments. */
  lemma BuiltinCallCode(e: Expr, next: nat, known: set<string>, b0: string, la: LoweredArgs)
    requires e.Call? && LowerArgs(e.args, next, known) == Ok(la) && e.fun.Ident? && e.fun.name in Builtins
    ensures Lower(e, next, known) ==
              Ok(Lowered(la.code + [Define(la.next + 1, Apply(e.fun.name, la.values))], Temp(la.next + 1), la.next + 1))
    ensures b0 + Render(la.code) + (("{{" + TempName(la.next + 1) + " := " + e.fun.name) + RenderArgs(la.values) + "}}") ==
            b0 + Render(la.code + [Define(la.next + 1, Apply(e.fun.name, la.values))])
  {
    BuiltinUnfold(e, next, known, la);
    ApplyInstr(la.next + 1, e.fun.name, la.values);
    Extend(b0, la.code, Define(la.next + 1, Apply(e.fun.name, la.values)));
  }

  lemma CallStepCode(fun: Expr, la: LoweredArgs, lf: Lowered, lo: nat)
    requires Fresh(la.code, lo, la.next) && Fresh(lf.code, la.next + 1, lf.next)
    ensures var i := if fun.Selector? then Define(la.next + 1, Method(lf.value, fun.sel, la.values))
                     else Define(la.next + 1, ApplyValue(lf.value, la.values));
            CallStep(fun, la, lf, lo).code == (la.code + lf.code) + [i]
  {
  }
  lemma ExtendCode(b0: string, a: seq<Instr>, b: seq<Instr>)
    ensures b0 + Render(a) + Render(b) == b0 + Render(a + b)
  {
    RenderAppend(a, b);
    Glue(b0, Render(a), Render(b));
  }

  lemma RenderOperandsCons(v: Operand, vs: seq<Operand>)
    ensures RenderOperands([v] + vs) == [RenderOperand(v)] + RenderOperands(vs)
  {
  }

  /** One more argument, the one before those already reduced. */
  lemma ArgsStep(args: seq<Expr>, i: nat, next: nat, known: set<string>)
    requires 0 < i <= |args| && LowerArgs(args[i..], next, known).Ok?
    ensures var ls := LowerArgs(args[i..], next, known).value;
            var la := Lower(args[i - 1], ls.next, known);
            (la.Err? ==> LowerArgs(args[i - 1..], next, known).Err?) &&
            (la.Ok? ==> LowerArgs(args[i - 1..], next, known) ==
                        Ok(LoweredArgs(ls.code + la.value.code, [la.value.value] + ls.values, la.value.next)))
  {
    assert args[i - 1..][0] == args[i - 1] && args[i - 1..][1..] == args[i..];
  }

  /** An argument that fails to lower makes the whole argument list fail. */
  lemma {:induction false} LowerArgsErr(args: seq<Expr>, i: nat, next: nat, known: set<string>)
    requires i <= |args| && LowerArgs(args[i..], next, known).Err?
    ensures LowerArgs(args, next, known).Err?
    decreases i
  {
    if i > 0 {
      assert args[i - 1..][0] == args[i - 1] && args[i - 1..][1..] == args[i..];
      LowerArgsErr(args, i - 1, next, known);
    } else {
      assert args[0..] == args;
    }
  }

  /** The buffer `visitRawInterpolation` parses once the first and last byte are `"`. */
  lemma DoubleQuoted(x: string, y: string)
    requires |x| > 0 && |y| == |x| && y[0] == '"' && y[|x| - 1] == '"'
    requires forall i :: 0 < i < |x| - 1 ==> y[i] == x[i]
    ensures y == if |x| == 1 then "\"" else "\"" + x[1..|x| - 1] + "\""
  {
  }
}
