/** Properties of the evaluator: fuel adequacy, the 0/1 results of logical
    nodes, short-circuiting, sequencing, loops and a few algebraic laws. */
module ArvoreProps {
  import opened Wrappers
  import opened Arvore

  // ---------------------------------------------------------------------
  // Logical results
  // ---------------------------------------------------------------------

  /** Comparisons, `!` and `or` always yield 0 or 1. */
  lemma EvalTruth(h: HostArith, e: Expr, env: Env, fuel: nat)
    requires YieldsTruth(e)
    ensures Eval(h, e, env, fuel).Finished? ==> Eval(h, e, env, fuel).value in {0.0, 1.0}
  {
    if fuel > 0 {
      if e.Negacao? {
        var r := EvalUnary(h, e, env, fuel - 1);
      } else if e.Or? {
        var r := EvalOr(h, e, env, fuel - 1);
      } else {
        var r := EvalStrict(h, e, env, fuel - 1);
      }
    }
  }

  // ---------------------------------------------------------------------
  // Fuel: a finished evaluation does not depend on the budget
  // ---------------------------------------------------------------------

  /** Giving a finished evaluation more fuel changes nothing. */
  lemma {:induction false} EvalMore(h: HostArith, e: Expr, env: Env, fuel: nat, more: nat)
    requires fuel <= more
    requires Eval(h, e, env, fuel).Finished?
    ensures Eval(h, e, env, more) == Eval(h, e, env, fuel)
    decreases fuel, 0
  {
    hide EvalBind, EvalSeq, EvalIf, Loop, EvalCall, EvalUnary, EvalAnd, EvalOr, EvalStrict;
    var f, g := fuel - 1, more - 1;
    match e
    case Numero(_) =>
    case String(_) =>
    case Identificador(_) =>
    case GetAttr(_, _) =>
    case Assign(_, _) => BindMore(h, e, env, f, g);
    case VarDef(_, _) => BindMore(h, e, env, f, g);
    case Block(ss) => SeqMore(h, ss, env, f, g, 0.0);
    case If(_, _, _) => IfMore(h, e, env, f, g);
    case While(c, b) => LoopMore(h, c, b, env, f, g, 0.0);
    case Call(_, _) => CallMore(h, e, env, f, g);
    case Negacao(_) => UnaryMore(h, e, env, f, g);
    case NegacaoAritmetica(_) => UnaryMore(h, e, env, f, g);
    case Print(x) => EvalMore(h, x, env, f, g);
    case And(_, _) => AndMore(h, e, env, f, g);
    case Or(_, _) => OrMore(h, e, env, f, g);
    case _ => StrictMore(h, e, env, f, g);
  }

  lemma {:induction false} BindMore(h: HostArith, e: Expr, env: Env, fuel: nat, more: nat)
    requires e.Assign? || e.VarDef?
    requires fuel <= more && EvalBind(h, e, env, fuel).Finished?
    ensures EvalBind(h, e, env, more) == EvalBind(h, e, env, fuel)
    decreases fuel, 1
  {
    EvalMore(h, e.value, env, fuel, more);
  }

  lemma {:induction false} UnaryMore(h: HostArith, e: Expr, env: Env, fuel: nat, more: nat)
    requires e.Negacao? || e.NegacaoAritmetica?
    requires fuel <= more && EvalUnary(h, e, env, fuel).Finished?
    ensures EvalUnary(h, e, env, more) == EvalUnary(h, e, env, fuel)
    decreases fuel, 1
  {
    EvalMore(h, e.operand, env, fuel, more);
  }

  lemma {:induction false} CallMore(h: HostArith, e: Expr, env: Env, fuel: nat, more: nat)
    requires e.Call?
    requires fuel <= more && EvalCall(h, e, env, fuel).Finished?
    ensures EvalCall(h, e, env, more) == EvalCall(h, e, env, fuel)
    decreases fuel, |e.args| + 1
  {
    SeqMore(h, e.args, env, fuel, more, 0.0);
  }

  lemma {:induction false} IfMore(h: HostArith, e: Expr, env: Env, fuel: nat, more: nat)
    requires e.If?
    requires fuel <= more && EvalIf(h, e, env, fuel).Finished?
    ensures EvalIf(h, e, env, more) == EvalIf(h, e, env, fuel)
    decreases fuel, 1
  {
    EvalMore(h, e.cond, env, fuel, more);
    var env1 := Eval(h, e.cond, env, fuel).env;
    if Eval(h, e.cond, env, fuel).value != 0.0 {
      EvalMore(h, e.thenBranch, env1, fuel, more);
    } else if e.elseBranch.Some? {
      EvalMore(h, e.elseBranch.value, env1, fuel, more);
    }
  }

  lemma {:induction false} AndMore(h: HostArith, e: Expr, env: Env, fuel: nat, more: nat)
    requires e.And?
    requires fuel <= more && EvalAnd(h, e, env, fuel).Finished?
    ensures EvalAnd(h, e, env, more) == EvalAnd(h, e, env, fuel)
    decreases fuel, 1
  {
    EvalMore(h, e.l, env, fuel, more);
    var a := Eval(h, e.l, env, fuel);
    if a.value != 0.0 {
      EvalMore(h, e.r, a.env, fuel, more);
    }
  }

  lemma {:induction false} OrMore(h: HostArith, e: Expr, env: Env, fuel: nat, more: nat)
    requires e.Or?
    requires fuel <= more && EvalOr(h, e, env, fuel).Finished?
    ensures EvalOr(h, e, env, more) == EvalOr(h, e, env, fuel)
    decreases fuel, 1
  {
    EvalMore(h, e.l, env, fuel, more);
    var a := Eval(h, e.l, env, fuel);
    if a.value == 0.0 {
      EvalMore(h, e.r, a.env, fuel, more);
    }
  }

  lemma {:induction false} StrictMore(h: HostArith, e: Expr, env: Env, fuel: nat, more: nat)
    requires IsStrictBinary(e)
    requires fuel <= more && EvalStrict(h, e, env, fuel).Finished?
    ensures EvalStrict(h, e, env, more) == EvalStrict(h, e, env, fuel)
    decreases fuel, 1
  {
    EvalMore(h, e.l, env, fuel, more);
    var a := Eval(h, e.l, env, fuel);
    EvalMore(h, e.r, a.env, fuel, more);
  }

  lemma {:induction false} SeqMore(h: HostArith, ss: seq<Expr>, env: Env, fuel: nat, more: nat, last: real)
    requires fuel <= more && EvalSeq(h, ss, env, fuel, last).Finished?
    ensures EvalSeq(h, ss, env, more, last) == EvalSeq(h, ss, env, fuel, last)
    decreases fuel, |ss|
  {
    if ss != [] {
      EvalMore(h, ss[0], env, fuel, more);
      var a := Eval(h, ss[0], env, fuel);
      SeqMore(h, ss[1..], a.env, fuel, more, a.value);
    }
  }

  lemma {:induction false} LoopMore(h: HostArith, c: Expr, b: Expr, env: Env, fuel: nat, more: nat, last: real)
    requires fuel <= more && Loop(h, c, b, env, fuel, last).Finished?
    ensures Loop(h, c, b, env, more, last) == Loop(h, c, b, env, fuel, last)
    decreases fuel, 0
  {
    hide Eval, Loop;
    LoopUnfold(h, c, b, env, fuel, last);
    LoopUnfold(h, c, b, env, more, last);
    var f, g := fuel - 1, more - 1;
    EvalMore(h, c, env, f, g);
    var a := Eval(h, c, env, f);
    if a.value != 0.0 {
      EvalMore(h, b, a.env, f, g);
      var d := Eval(h, b, a.env, f);
      LoopMore(h, c, b, d.env, f, g, d.value);
    }
  }

  /** One round of a loop. */
  lemma LoopUnfold(h: HostArith, c: Expr, b: Expr, env: Env, fuel: nat, last: real)
    ensures fuel == 0 ==> Loop(h, c, b, env, fuel, last) == OutOfFuel
    ensures fuel > 0 ==> (Loop(h, c, b, env, fuel, last) ==
      match Eval(h, c, env, fuel - 1)
      case OutOfFuel => OutOfFuel
      case Finished(cv, env1) =>
        if cv == 0.0 then Finished(last, env1)
        else match Eval(h, b, env1, fuel - 1)
          case OutOfFuel => OutOfFuel
          case Finished(bv, env2) => Loop(h, c, b, env2, fuel - 1, bv))
  {
  }

  // ---------------------------------------------------------------------
  // Names, assignment and declaration
  // ---------------------------------------------------------------------

  /** `true` and `false` read as 1 and 0 whatever the environment holds, and
      reading a name never changes the environment. */
  lemma ReadConstants(h: HostArith, env: Env, fuel: nat)
    requires fuel > 0
    ensures Eval(h, Identificador("true"), env, fuel) == Finished(1.0, env)
    ensures Eval(h, Identificador("false"), env, fuel) == Finished(0.0, env)
  {
  }

  /** `var x = v` and `x = v` behave the same: both store the value of `v`
      under `x` and yield it, and no other binding changes. */
  lemma DeclareIsAssign(h: HostArith, x: string, v: Expr, env: Env, fuel: nat)
    ensures Eval(h, VarDef(x, v), env, fuel) == Eval(h, Assign(x, v), env, fuel)
    ensures fuel > 0 && Eval(h, v, env, fuel - 1).Finished? ==>
      var w := Eval(h, v, env, fuel - 1);
      Eval(h, Assign(x, v), env, fuel) == Finished(w.value, w.env[x := w.value])
  {
  }

  /** Reading a name just assigned gives back the stored value, unless the
      name is one of the constants `true` and `false`. */
  lemma ReadAfterWrite(h: HostArith, x: string, v: Expr, env: Env, fuel: nat)
    requires x != "true" && x != "false"
    requires Eval(h, v, env, fuel).Finished?
    ensures var r := Eval(h, Block([Assign(x, v), Identificador(x)]), env, fuel + 3);
      r.Finished? && r.value == Eval(h, v, env, fuel).value
  {
    EvalMore(h, v, env, fuel, fuel + 1);
    var w := Eval(h, v, env, fuel);
    var env1 := w.env[x := w.value];
    var s := [Assign(x, v), Identificador(x)];
    assert Eval(h, s[0], env, fuel + 2) == Finished(w.value, env1);
    assert Eval(h, s[1], env1, fuel + 2) == Finished(w.value, env1);
    assert EvalSeq(h, s[1..], env1, fuel + 2, w.value) == Finished(w.value, env1);
    assert EvalSeq(h, s, env, fuel + 2, 0.0) == Finished(w.value, env1);
  }

  // ---------------------------------------------------------------------
  // Blocks
  // ---------------------------------------------------------------------

  /** Running `ss + ts` is running `ss` and then `ts` from where it stopped. */
  lemma {:induction false} SeqAppend(h: HostArith, ss: seq<Expr>, ts: seq<Expr>, env: Env, fuel: nat, last: real)
    ensures EvalSeq(h, ss + ts, env, fuel, last) ==
      match EvalSeq(h, ss, env, fuel, last)
      case OutOfFuel => OutOfFuel
      case Finished(v, env1) => EvalSeq(h, ts, env1, fuel, v)
    decreases |ss|
  {
    if ss == [] {
      assert ss + ts == ts;
    } else {
      assert (ss + ts)[0] == ss[0];
      assert (ss + ts)[1..] == ss[1..] + ts;
      match Eval(h, ss[0], env, fuel)
      case OutOfFuel =>
      case Finished(v, env1) => SeqAppend(h, ss[1..], ts, env1, fuel, v);
    }
  }

  /** A block's value is its last statement's value, evaluated where the
      statements before it left the environment; an empty block yields 0. */
  lemma BlockValue(h: HostArith, ss: seq<Expr>, env: Env, fuel: nat)
    requires fuel > 0
    ensures ss == [] ==> Eval(h, Block(ss), env, fuel) == Finished(0.0, env)
    ensures ss != [] ==> (Eval(h, Block(ss), env, fuel) ==
      match EvalSeq(h, ss[..|ss| - 1], env, fuel - 1, 0.0)
      case OutOfFuel => OutOfFuel
      case Finished(_, env1) => Eval(h, ss[|ss| - 1], env1, fuel - 1))
  {
    if ss != [] {
      var n := |ss| - 1;
      assert ss == ss[..n] + [ss[n]];
      SeqAppend(h, ss[..n], [ss[n]], env, fuel - 1, 0.0);
    }
  }

  /** `{ var foo = 1; var bar = 2; bar }` is 2, and both variables stay bound
      after the block: there is no block scope. */
  lemma BlockExample(h: HostArith)
    ensures Eval(h, Block([VarDef("foo", Numero(1.0)), VarDef("bar", Numero(2.0)), Identificador("bar")]), map[], 3)
      == Finished(2.0, map["foo" := 1.0, "bar" := 2.0])
  {
    var ss := [VarDef("foo", Numero(1.0)), VarDef("bar", Numero(2.0)), Identificador("bar")];
    var e1 := map["foo" := 1.0];
    var e2 := map["foo" := 1.0, "bar" := 2.0];
    assert Eval(h, ss[0], map[], 2) == Finished(1.0, e1);
    assert Eval(h, ss[1], e1, 2) == Finished(2.0, e2);
    assert Eval(h, ss[2], e2, 2) == Finished(2.0, e2);
    BlockValue(h, ss, map[], 3);
    assert ss[..2] == [ss[0], ss[1]];
    assert EvalSeq(h, ss[..2], map[], 2, 0.0) == Finished(2.0, e2) by {
      assert ss[..2][1..] == [ss[1]] && [ss[1]][1..] == [];
    }
  }

  // ---------------------------------------------------------------------
  // Conditionals and logical operators
  // ---------------------------------------------------------------------

  /** The then-branch runs exactly when the condition is non-zero. */
  lemma IfBranch(h: HostArith, c: Expr, t: Expr, el: Option<Expr>, env: Env, fuel: nat)
    requires fuel > 0 && Eval(h, c, env, fuel - 1).Finished?
    ensures var cv := Eval(h, c, env, fuel - 1);
      Eval(h, If(c, t, el), env, fuel) ==
        if cv.value != 0.0 then Eval(h, t, cv.env, fuel - 1)
        else if el.Some? then Eval(h, el.value, cv.env, fuel - 1)
        else Finished(0.0, cv.env)
  {
  }

  /** `if (1 < 2) 3 else 4` is 3 and `if (1 > 2) 3 else 4` is 4. */
  lemma IfElseExample(h: HostArith, env: Env)
    ensures Eval(h, If(Menor(Numero(1.0), Numero(2.0)), Numero(3.0), Some(Numero(4.0))), env, 3) == Finished(3.0, env)
    ensures Eval(h, If(Maior(Numero(1.0), Numero(2.0)), Numero(3.0), Some(Numero(4.0))), env, 3) == Finished(4.0, env)
  {
    assert Eval(h, Menor(Numero(1.0), Numero(2.0)), env, 2) == Finished(1.0, env);
    assert Eval(h, Maior(Numero(1.0), Numero(2.0)), env, 2) == Finished(0.0, env);
  }

  /** Negating the condition and swapping the branches changes nothing. */
  lemma IfSwap(h: HostArith, c: Expr, t: Expr, x: Expr, env: Env, fuel: nat)
    requires Eval(h, If(c, t, Some(x)), env, fuel).Finished?
    ensures Eval(h, If(Negacao(c), x, Some(t)), env, fuel + 1) == Eval(h, If(c, t, Some(x)), env, fuel)
  {
    var cv := Eval(h, c, env, fuel - 1);
    assert Eval(h, Negacao(c), env, fuel) == Finished(if cv.value == 0.0 then 1.0 else 0.0, cv.env);
    if cv.value != 0.0 {
      EvalMore(h, t, cv.env, fuel - 1, fuel);
    } else {
      EvalMore(h, x, cv.env, fuel - 1, fuel);
    }
  }

  /** A zero left operand decides `and` without the right one; a non-zero
      one hands the result, unnormalised, to the right operand. */
  lemma AndShortCircuit(h: HostArith, a: Expr, b: Expr, b': Expr, env: Env, fuel: nat)
    requires fuel > 0 && Eval(h, a, env, fuel - 1).Finished?
    ensures var av := Eval(h, a, env, fuel - 1);
      && (av.value == 0.0 ==> Eval(h, And(a, b), env, fuel) == Finished(0.0, av.env) == Eval(h, And(a, b'), env, fuel))
      && (av.value != 0.0 ==> Eval(h, And(a, b), env, fuel) == Eval(h, b, av.env, fuel - 1))
  {
  }

  /** A non-zero left operand decides `or` as 1 without the right one; a zero
      one gives the right operand's truth value. */
  lemma OrShortCircuit(h: HostArith, a: Expr, b: Expr, b': Expr, env: Env, fuel: nat)
    requires fuel > 0 && Eval(h, a, env, fuel - 1).Finished?
    ensures var av := Eval(h, a, env, fuel - 1);
      && (av.value != 0.0 ==> Eval(h, Or(a, b), env, fuel) == Finished(1.0, av.env) == Eval(h, Or(a, b'), env, fuel))
      && (av.value == 0.0 && Eval(h, b, av.env, fuel - 1).Finished? ==>
            var bv := Eval(h, b, av.env, fuel - 1);
            Eval(h, Or(a, b), env, fuel) == Finished(Truth(bv.value), bv.env))
  {
  }

  /** One step of `!x`. */
  lemma NotStep(h: HostArith, x: Expr, env: Env, fuel: nat)
    ensures Eval(h, Negacao(x), env, fuel) ==
      if fuel == 0 then OutOfFuel
      else match Eval(h, x, env, fuel - 1)
        case OutOfFuel => OutOfFuel
        case Finished(v, env1) => Finished(if v == 0.0 then 1.0 else 0.0, env1)
  {
  }

  /** One step of `a and b`. */
  lemma AndStep(h: HostArith, a: Expr, b: Expr, env: Env, fuel: nat)
    ensures Eval(h, And(a, b), env, fuel) ==
      if fuel == 0 then OutOfFuel
      else match Eval(h, a, env, fuel - 1)
        case OutOfFuel => OutOfFuel
        case Finished(v, env1) => if v == 0.0 then Finished(0.0, env1) else Eval(h, b, env1, fuel - 1)
  {
  }

  /** One step of `a or b`. */
  lemma OrStep(h: HostArith, a: Expr, b: Expr, env: Env, fuel: nat)
    ensures Eval(h, Or(a, b), env, fuel) ==
      if fuel == 0 then OutOfFuel
      else match Eval(h, a, env, fuel - 1)
        case OutOfFuel => OutOfFuel
        case Finished(v, env1) =>
          if v != 0.0 then Finished(1.0, env1)
          else match Eval(h, b, env1, fuel - 1)
            case OutOfFuel => OutOfFuel
            case Finished(w, env2) => Finished(Truth(w), env2)
  {
  }

  /** De Morgan: `!(a and b)` and `!a or !b` agree on value and effects. */
  lemma DeMorgan(h: HostArith, a: Expr, b: Expr, env: Env, fuel: nat)
    ensures Eval(h, Or(Negacao(a), Negacao(b)), env, fuel) == Eval(h, Negacao(And(a, b)), env, fuel)
  {
    hide Eval;
    OrStep(h, Negacao(a), Negacao(b), env, fuel);
    NotStep(h, And(a, b), env, fuel);
    if fuel > 0 {
      NotStep(h, a, env, fuel - 1);
      AndStep(h, a, b, env, fuel - 1);
      if fuel > 1 {
        var av := Eval(h, a, env, fuel - 2);
        if av.Finished? && av.value != 0.0 {
          NotStep(h, b, av.env, fuel - 1);
        }
      }
    }
  }

  /** Double negation normalises to the truth value: `!!true` is 1. */
  lemma DoubleNegation(h: HostArith, x: Expr, env: Env, fuel: nat)
    requires Eval(h, x, env, fuel).Finished?
    ensures var v := Eval(h, x, env, fuel);
      Eval(h, Negacao(Negacao(x)), env, fuel + 2) == Finished(Truth(v.value), v.env)
  {
    hide Eval;
    NotStep(h, Negacao(x), env, fuel + 2);
    NotStep(h, x, env, fuel + 1);
  }

  lemma NotNotTrue(h: HostArith, env: Env)
    ensures Eval(h, Negacao(Negacao(Identificador("true"))), env, 3) == Finished(1.0, env)
  {
    ReadConstants(h, env, 1);
    DoubleNegation(h, Identificador("true"), env, 1);
  }

  /** Arithmetic negation is an involution: `-(-x)` gives back the value of
      `x` and its effects. */
  lemma {:induction false} NegateTwice(h: HostArith, x: Expr, env: Env, fuel: nat)
    requires Eval(h, x, env, fuel).Finished?
    ensures Eval(h, NegacaoAritmetica(NegacaoAritmetica(x)), env, fuel + 2) == Eval(h, x, env, fuel)
  {
    var v := Eval(h, x, env, fuel);
    assert Eval(h, NegacaoAritmetica(x), env, fuel + 1) == Finished(-v.value, v.env);
    assert -(-v.value) == v.value;
  }

  /** `-5` is -5. */
  lemma NegativeLiteral(h: HostArith, env: Env)
    ensures Eval(h, NegacaoAritmetica(Numero(5.0)), env, 2) == Finished(-5.0, env)
  {
  }

  /** A `Print` node yields the value of its operand with its effects; printing
      is output only. */
  lemma PrintYieldsOperand(h: HostArith, x: Expr, env: Env, fuel: nat)
    ensures Eval(h, Print(x), env, fuel + 1) == Eval(h, x, env, fuel)
  {
  }

  // ---------------------------------------------------------------------
  // Attribute access and calls
  // ---------------------------------------------------------------------

  /** `o.a` yields 0 and leaves the environment alone without evaluating `o`,
      even when `o` would not finish. */
  lemma AttrIgnoresObject(h: HostArith, o: Expr, a: string, env: Env, fuel: nat)
    requires fuel > 0
    ensures Eval(h, GetAttr(o, a), env, fuel) == Finished(0.0, env)
  {
  }

  /** A call runs its arguments left to right, never its callee, and yields 0. */
  lemma CallIgnoresCallee(h: HostArith, f: Expr, g: Expr, args: seq<Expr>, env: Env, fuel: nat)
    requires fuel > 0
    ensures Eval(h, Call(f, args), env, fuel) == Eval(h, Call(g, args), env, fuel)
    ensures Eval(h, Call(f, args), env, fuel) ==
      match EvalSeq(h, args, env, fuel - 1, 0.0)
      case OutOfFuel => OutOfFuel
      case Finished(_, env1) => Finished(0.0, env1)
  {
  }

  // ---------------------------------------------------------------------
  // Loops
  // ---------------------------------------------------------------------

  /** A finished loop stopped because its condition evaluated to zero: either
      on entry, yielding `last`, or right after a round of its body, whose
      value it yields and whose variables the exiting test started from. */
  lemma {:induction false} LoopExit(h: HostArith, c: Expr, b: Expr, env: Env, fuel: nat, last: real)
    requires Loop(h, c, b, env, fuel, last).Finished?
    ensures var r := Loop(h, c, b, env, fuel, last);
      (r.value == last && fuel >= 1 && Eval(h, c, env, fuel - 1) == Finished(0.0, r.env))
      || exists env1: Env, g: nat :: 1 <= g < fuel && Eval(h, b, env1, g).Finished?
           && Eval(h, b, env1, g).value == r.value
           && Eval(h, c, Eval(h, b, env1, g).env, g - 1) == Finished(0.0, r.env)
    decreases fuel
  {
    hide Loop;
    LoopUnfold(h, c, b, env, fuel, last);
    var r := Loop(h, c, b, env, fuel, last);
    var a := Eval(h, c, env, fuel - 1);
    if a.value == 0.0 {
      assert Eval(h, c, env, fuel - 1) == Finished(0.0, r.env);
    } else {
      var d := Eval(h, b, a.env, fuel - 1);
      assert r == Loop(h, c, b, d.env, fuel - 1, d.value);
      LoopExit(h, c, b, d.env, fuel - 1, d.value);
      if r.value == d.value && fuel - 1 >= 1 && Eval(h, c, d.env, fuel - 2) == Finished(0.0, r.env) {
        assert Eval(h, b, a.env, fuel - 1) == d;
      }
    }
  }

  /** A loop whose condition is zero on entry yields 0 and runs no body. */
  lemma WhileSkipped(h: HostArith, c: Expr, b: Expr, env: Env, fuel: nat)
    requires fuel >= 2 && Eval(h, c, env, fuel - 2).Finished? && Eval(h, c, env, fuel - 2).value == 0.0
    ensures Eval(h, While(c, b), env, fuel) == Finished(0.0, Eval(h, c, env, fuel - 2).env)
  {
  }

  /** `while (i < n) { i = i + 1; }`, the counting loop of the examples. */
  function CountLoop(i: string, n: nat): Expr {
    While(Menor(Identificador(i), Numero(n as real)),
          Block([Assign(i, Soma(Identificador(i), Numero(1.0)))]))
  }

  /** The loop test `i < n` of the counting loop. */
  lemma CountTest(h: HostArith, i: string, n: nat, env: Env, fuel: nat)
    requires i != "true" && i != "false" && i in env
    requires fuel >= 2
    ensures Eval(h, CountLoop(i, n).cond, env, fuel) == Finished(if env[i] < n as real then 1.0 else 0.0, env)
  {
    var c := CountLoop(i, n).cond;
    assert Eval(h, c.l, env, fuel - 1) == Finished(env[i], env);
    assert Eval(h, c.r, env, fuel - 1) == Finished(n as real, env);
    assert Eval(h, c, env, fuel) == EvalStrict(h, c, env, fuel - 1);
  }

  /** One run of the counting loop's body adds one to `i` and yields the new value. */
  lemma CountStep(h: HostArith, i: string, n: nat, env: Env, fuel: nat)
    requires i != "true" && i != "false" && i in env
    requires fuel >= 4
    ensures Eval(h, CountLoop(i, n).body, env, fuel) == Finished(env[i] + 1.0, env[i := env[i] + 1.0])
  {
    var body := CountLoop(i, n).body;
    var inc := body.stmts[0];
    var v := env[i] + 1.0;
    assert Eval(h, inc.value.l, env, fuel - 3) == Finished(env[i], env);
    assert Eval(h, inc.value.r, env, fuel - 3) == Finished(1.0, env);
    assert Eval(h, inc.value, env, fuel - 2) == EvalStrict(h, inc.value, env, fuel - 3);
    assert Eval(h, inc.value, env, fuel - 2) == Finished(v, env);
    assert Eval(h, inc, env, fuel - 1) == EvalBind(h, inc, env, fuel - 2);
    assert Eval(h, inc, env, fuel - 1) == Finished(v, env[i := v]);
    assert EvalSeq(h, body.stmts, env, fuel - 1, 0.0) == Finished(v, env[i := v]) by {
      assert body.stmts[1..] == [];
    }
  }

  /** Counting from `k` up to `n` takes `n - k` rounds: the loop ends with `i`
      bound to `n` and yields `n` (or 0 when it never runs). */
  lemma {:induction false} CountLoopRuns(h: HostArith, i: string, n: nat, k: nat, env: Env, fuel: nat, last: real)
    requires i != "true" && i != "false"
    requires k <= n && i in env && env[i] == k as real
    requires fuel >= n - k + 5
    ensures var c := CountLoop(i, n);
      Loop(h, c.cond, c.body, env, fuel, last) == Finished(if k < n then n as real else last, env[i := n as real])
    decreases n - k
  {
    hide Loop, Eval;
    var c := CountLoop(i, n);
    LoopUnfold(h, c.cond, c.body, env, fuel, last);
    var f := fuel - 1;
    CountTest(h, i, n, env, f);
    if k < n {
      var env2 := env[i := (k + 1) as real];
      CountStep(h, i, n, env, f);
      CountLoopRuns(h, i, n, k + 1, env2, f, (k + 1) as real);
      assert env2[i := n as real] == env[i := n as real];
    } else {
      assert env[i := n as real] == env;
    }
  }

  /** `var i = 0` followed by `while (i < 5) { i = i + 1; }` leaves `i` at 5. */
  lemma CountToFive(h: HostArith)
    ensures Eval(h, CountLoop("i", 5), map["i" := 0.0], 11) == Finished(5.0, map["i" := 5.0])
  {
    hide Loop;
    var c := CountLoop("i", 5);
    assert Eval(h, c, map["i" := 0.0], 11) == Loop(h, c.cond, c.body, map["i" := 0.0], 10, 0.0);
    CountLoopRuns(h, "i", 5, 0, map["i" := 0.0], 10, 0.0);
    assert map["i" := 0.0]["i" := 5.0] == map["i" := 5.0];
  }

  // ---------------------------------------------------------------------
  // Arithmetic
  // ---------------------------------------------------------------------

  /** `10 / 2 - 1` is 4 once division is exact on a non-zero divisor. */
  lemma DivideThenSubtract(h: HostArith, env: Env)
    requires ExactOnNonZero(h)
    ensures Eval(h, Subtracao(Divisao(Numero(10.0), Numero(2.0)), Numero(1.0)), env, 4) == Finished(4.0, env)
  {
    assert h.div(10.0, 2.0) == 5.0;
  }

  /** The host remainder follows the sign of the dividend, as Rust's `%` on
      `f64` does: `-7 % 2` is `-1`, not Dafny's Euclidean `1`. */
  lemma RemainderTruncates(h: HostArith, env: Env)
    requires ExactOnNonZero(h)
    ensures Eval(h, Modulo(NegacaoAritmetica(Numero(7.0)), Numero(2.0)), env, 4) == Finished(-1.0, env)
  {
    assert Trunc(-7.0 / 2.0) == -3;
    assert h.rem(-7.0, 2.0) == -1.0;
  }
}
