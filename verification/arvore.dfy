/** The syntax tree of src/arvore_sintatica_abstrata.rs and its tree-walking
    evaluator `avaliar_com_contexto` over a flat environment of numbers. */
module Arvore {
  import opened Wrappers

  /** Variable name to value; shared by every statement of a run. */
  type Env = map<string, real>

  /** The `Expr` tree. The Rust enum has `NumeroInteiro`/`NumeroFloat`; the
      parser only ever builds one numeric literal, modelled as `Numero`. */
  datatype Expr =
    | Numero(n: real)
    | String(text: string)
    | Identificador(name: string)
    | Assign(name: string, value: Expr)
    | VarDef(name: string, value: Expr)
    | Block(stmts: seq<Expr>)
    | If(cond: Expr, thenBranch: Expr, elseBranch: Option<Expr>)
    | While(cond: Expr, body: Expr)
    | GetAttr(obj: Expr, attr: string)
    | Call(callee: Expr, args: seq<Expr>)
    | Negacao(operand: Expr)
    | NegacaoAritmetica(operand: Expr)
    | And(l: Expr, r: Expr)
    | Or(l: Expr, r: Expr)
    | Soma(l: Expr, r: Expr)
    | Subtracao(l: Expr, r: Expr)
    | Multiplicacao(l: Expr, r: Expr)
    | Divisao(l: Expr, r: Expr)
    | Modulo(l: Expr, r: Expr)
    | Maior(l: Expr, r: Expr)
    | Menor(l: Expr, r: Expr)
    | MaiorIgual(l: Expr, r: Expr)
    | MenorIgual(l: Expr, r: Expr)
    | IgualIgual(l: Expr, r: Expr)
    | Diferente(l: Expr, r: Expr)
    | Print(operand: Expr)

  /** The host's floating-point `/` and `%`. They are parameters because the
      IEEE-754 results for a zero divisor (infinities, NaN) have no `real`
      counterpart; `ExactOnNonZero` pins them down everywhere else. */
  datatype HostArith = HostArith(div: (real, real) -> real, rem: (real, real) -> real)

  /** Rounding toward zero, as the remainder of Rust's `%` on `f64` uses it. */
  function Trunc(x: real): int {
    if x >= 0.0 then x.Floor else -((-x).Floor)
  }

  ghost predicate ExactOnNonZero(h: HostArith) {
    && (forall a, b :: b != 0.0 ==> h.div(a, b) == a / b)
    && (forall a, b :: b != 0.0 ==> h.rem(a, b) == a - b * Trunc(a / b) as real)
  }

  /** Outcome of evaluating with a fuel budget: `OutOfFuel` stands for a
      computation (a `while` loop) that has not finished within the budget. */
  datatype Outcome = Finished(value: real, env: Env) | OutOfFuel

  /** Truthiness: zero is false, anything else is true. */
  function Truth(v: real): (t: real)
    ensures t == 0.0 <==> v == 0.0
    ensures t == 0.0 || t == 1.0
  {
    if v != 0.0 then 1.0 else 0.0
  }

  /** Reading a name: `true` and `false` are constants, a bound name reads its
      value and an unbound one reads zero. */
  function Lookup(env: Env, name: string): (v: real)
    ensures name == "true" ==> v == 1.0
    ensures name == "false" ==> v == 0.0
    ensures name != "true" && name != "false" && name in env ==> v == env[name]
    ensures name != "true" && name != "false" && name !in env ==> v == 0.0
  {
    if name == "true" then 1.0
    else if name == "false" then 0.0
    else if name in env then env[name]
    else 0.0
  }

  /** The binary nodes that always evaluate both operands. */
  predicate IsStrictBinary(e: Expr) {
    e.Soma? || e.Subtracao? || e.Multiplicacao? || e.Divisao? || e.Modulo? || IsComparison(e)
  }

  predicate IsComparison(e: Expr) {
    e.Maior? || e.Menor? || e.MaiorIgual? || e.MenorIgual? || e.IgualIgual? || e.Diferente?
  }

  /** Nodes whose value is always 0 or 1. */
  predicate YieldsTruth(e: Expr) {
    IsComparison(e) || e.Negacao? || e.Or?
  }

  /** The operator of a strict binary node applied to its operands' values. */
  function Apply(h: HostArith, e: Expr, a: real, b: real): (v: real)
    requires IsStrictBinary(e)
    ensures IsComparison(e) ==> v == 0.0 || v == 1.0
  {
    match e
    case Soma(_, _) => a + b
    case Subtracao(_, _) => a - b
    case Multiplicacao(_, _) => a * b
    case Divisao(_, _) => h.div(a, b)
    case Modulo(_, _) => h.rem(a, b)
    case Maior(_, _) => if a > b then 1.0 else 0.0
    case Menor(_, _) => if a < b then 1.0 else 0.0
    case MaiorIgual(_, _) => if a >= b then 1.0 else 0.0
    case MenorIgual(_, _) => if a <= b then 1.0 else 0.0
    case IgualIgual(_, _) => if a == b then 1.0 else 0.0
    case Diferente(_, _) => if a != b then 1.0 else 0.0
  }

  /** Every name some `Assign` or `VarDef` inside `e` may bind. */
  function Assigned(e: Expr): set<string> {
    match e
    case Numero(_) => {}
    case String(_) => {}
    case Identificador(_) => {}
    case Assign(x, v) => {x} + Assigned(v)
    case VarDef(x, v) => {x} + Assigned(v)
    case Block(ss) => set i, x | 0 <= i < |ss| && x in Assigned(ss[i]) :: x
    case If(c, t, el) =>
      Assigned(c) + Assigned(t) + (match el case Some(x) => Assigned(x) case None => {})
    case While(c, b) => Assigned(c) + Assigned(b)
    case GetAttr(o, _) => Assigned(o)
    case Call(f, args) => Assigned(f) + (set i, x | 0 <= i < |args| && x in Assigned(args[i]) :: x)
    case Negacao(x) => Assigned(x)
    case NegacaoAritmetica(x) => Assigned(x)
    case Print(x) => Assigned(x)
    case And(a, b) => Assigned(a) + Assigned(b)
    case Or(a, b) => Assigned(a) + Assigned(b)
    case Soma(a, b) => Assigned(a) + Assigned(b)
    case Subtracao(a, b) => Assigned(a) + Assigned(b)
    case Multiplicacao(a, b) => Assigned(a) + Assigned(b)
    case Divisao(a, b) => Assigned(a) + Assigned(b)
    case Modulo(a, b) => Assigned(a) + Assigned(b)
    case Maior(a, b) => Assigned(a) + Assigned(b)
    case Menor(a, b) => Assigned(a) + Assigned(b)
    case MaiorIgual(a, b) => Assigned(a) + Assigned(b)
    case MenorIgual(a, b) => Assigned(a) + Assigned(b)
    case IgualIgual(a, b) => Assigned(a) + Assigned(b)
    case Diferente(a, b) => Assigned(a) + Assigned(b)
  }

  function AssignedAll(ss: seq<Expr>): set<string> {
    set i, x | 0 <= i < |ss| && x in Assigned(ss[i]) :: x
  }

  /** `env'` differs from `env` only on `names`, and loses no binding. */
  predicate Frame(env: Env, env': Env, names: set<string>) {
    && env.Keys <= env'.Keys
    && env'.Keys <= env.Keys + names
    && forall k :: k in env && k !in names ==> env'[k] == env[k]
  }

  lemma FrameTrans(a: Env, b: Env, c: Env, n1: set<string>, n2: set<string>, n: set<string>)
    requires Frame(a, b, n1) && Frame(b, c, n2)
    requires n1 <= n && n2 <= n
    ensures Frame(a, c, n)
  {
  }

  lemma FrameWiden(a: Env, b: Env, n1: set<string>, n: set<string>)
    requires Frame(a, b, n1) && n1 <= n
    ensures Frame(a, b, n)
  {
  }

  lemma AssignedAllSplit(ss: seq<Expr>)
    requires ss != []
    ensures Assigned(ss[0]) <= AssignedAll(ss)
    ensures AssignedAll(ss[1..]) <= AssignedAll(ss)
  {
    forall x | x in AssignedAll(ss[1..])
      ensures x in AssignedAll(ss)
    {
      var i :| 0 <= i < |ss[1..]| && x in Assigned(ss[1..][i]);
      assert ss[1..][i] == ss[i + 1];
    }
  }

  /** Stores the value of a finished right-hand side under `name`. */
  function Bind(name: string, o: Outcome): (r: Outcome)
    ensures r.Finished? <==> o.Finished?
    ensures o.Finished? ==> r.value == o.value && r.env == o.env[name := o.value]
  {
    match o
    case Finished(v, env) => Finished(v, env[name := v])
    case OutOfFuel => OutOfFuel
  }

  /** `avaliar_com_contexto`: evaluates `e` in `env` with at most `fuel` nested
      steps. A finished evaluation changes only names `e` assigns. */
  function Eval(h: HostArith, e: Expr, env: Env, fuel: nat): (r: Outcome)
    ensures r.Finished? ==> Frame(env, r.env, Assigned(e))
    decreases fuel, 0
  {
    if fuel == 0 then OutOfFuel
    else
      var f := fuel - 1;
      match e
      case Numero(n) => Finished(n, env)
      case String(_) => Finished(0.0, env)
      case Identificador(x) => Finished(Lookup(env, x), env)
      case Assign(_, _) => EvalBind(h, e, env, f)
      case VarDef(_, _) => EvalBind(h, e, env, f)
      case Block(ss) => EvalSeq(h, ss, env, f, 0.0)
      case If(_, _, _) => EvalIf(h, e, env, f)
      case While(c, b) => Loop(h, c, b, env, f, 0.0)
      case GetAttr(_, _) => Finished(0.0, env)
      case Call(_, _) => EvalCall(h, e, env, f)
      case Negacao(_) => EvalUnary(h, e, env, f)
      case NegacaoAritmetica(_) => EvalUnary(h, e, env, f)
      case Print(x) => Eval(h, x, env, f)
      case And(_, _) => EvalAnd(h, e, env, f)
      case Or(_, _) => EvalOr(h, e, env, f)
      case _ => EvalStrict(h, e, env, f)
  }

  /** `var x = v` and `x = v`: the value of `v`, stored under `x`. */
  function EvalBind(h: HostArith, e: Expr, env: Env, fuel: nat): (r: Outcome)
    requires e.Assign? || e.VarDef?
    ensures r.Finished? ==> Frame(env, r.env, Assigned(e))
    decreases fuel, 1
  {
    Bind(e.name, Eval(h, e.value, env, fuel))
  }

  /** `!x` yields 1 exactly when `x` is zero; `-x` negates. */
  function EvalUnary(h: HostArith, e: Expr, env: Env, fuel: nat): (r: Outcome)
    requires e.Negacao? || e.NegacaoAritmetica?
    ensures r.Finished? ==> Frame(env, r.env, Assigned(e))
    ensures r.Finished? && e.Negacao? ==> r.value == 0.0 || r.value == 1.0
    decreases fuel, 1
  {
    match Eval(h, e.operand, env, fuel)
    case OutOfFuel => OutOfFuel
    case Finished(v, env1) =>
      if e.Negacao? then Finished(if v == 0.0 then 1.0 else 0.0, env1)
      else Finished(-v, env1)
  }

  /** A call evaluates its arguments in order, never the callee, and yields 0. */
  function EvalCall(h: HostArith, e: Expr, env: Env, fuel: nat): (r: Outcome)
    requires e.Call?
    ensures r.Finished? ==> Frame(env, r.env, Assigned(e))
    decreases fuel, |e.args| + 1
  {
    match EvalSeq(h, e.args, env, fuel, 0.0)
    case OutOfFuel => OutOfFuel
    case Finished(_, env1) =>
      FrameWiden(env, env1, AssignedAll(e.args), Assigned(e));
      Finished(0.0, env1)
  }

  /** `if`: a non-zero condition selects the then-branch; zero selects the
      else-branch, or yields zero when there is none. */
  function EvalIf(h: HostArith, e: Expr, env: Env, fuel: nat): (r: Outcome)
    requires e.If?
    ensures r.Finished? ==> Frame(env, r.env, Assigned(e))
    decreases fuel, 1
  {
    match Eval(h, e.cond, env, fuel)
    case OutOfFuel => OutOfFuel
    case Finished(cv, env1) =>
      if cv != 0.0 then
        var r := Eval(h, e.thenBranch, env1, fuel);
        if r.Finished? then FrameTrans(env, env1, r.env, Assigned(e.cond), Assigned(e.thenBranch), Assigned(e)); r else r
      else
        match e.elseBranch
        case Some(x) =>
          var r := Eval(h, x, env1, fuel);
          if r.Finished? then FrameTrans(env, env1, r.env, Assigned(e.cond), Assigned(x), Assigned(e)); r else r
        case None => FrameWiden(env, env1, Assigned(e.cond), Assigned(e)); Finished(0.0, env1)
  }

  /** `and`: a zero left value is the result and the right side is skipped;
      otherwise the right value, unnormalised, is the result. */
  function EvalAnd(h: HostArith, e: Expr, env: Env, fuel: nat): (r: Outcome)
    requires e.And?
    ensures r.Finished? ==> Frame(env, r.env, Assigned(e))
    decreases fuel, 1
  {
    match Eval(h, e.l, env, fuel)
    case OutOfFuel => OutOfFuel
    case Finished(av, env1) =>
      if av == 0.0 then FrameWiden(env, env1, Assigned(e.l), Assigned(e)); Finished(0.0, env1)
      else
        var r := Eval(h, e.r, env1, fuel);
        if r.Finished? then FrameTrans(env, env1, r.env, Assigned(e.l), Assigned(e.r), Assigned(e)); r else r
  }

  /** `or`: a non-zero left value gives 1 and skips the right side; otherwise
      the right value normalised to 0 or 1. */
  function EvalOr(h: HostArith, e: Expr, env: Env, fuel: nat): (r: Outcome)
    requires e.Or?
    ensures r.Finished? ==> Frame(env, r.env, Assigned(e))
    ensures r.Finished? ==> r.value == 0.0 || r.value == 1.0
    decreases fuel, 1
  {
    match Eval(h, e.l, env, fuel)
    case OutOfFuel => OutOfFuel
    case Finished(av, env1) =>
      if av != 0.0 then FrameWiden(env, env1, Assigned(e.l), Assigned(e)); Finished(1.0, env1)
      else
        match Eval(h, e.r, env1, fuel)
        case OutOfFuel => OutOfFuel
        case Finished(bv, env2) =>
          FrameTrans(env, env1, env2, Assigned(e.l), Assigned(e.r), Assigned(e));
          Finished(Truth(bv), env2)
  }

  /** Arithmetic and comparison nodes: both operands, left first, then the operator. */
  function EvalStrict(h: HostArith, e: Expr, env: Env, fuel: nat): (r: Outcome)
    requires IsStrictBinary(e)
    ensures r.Finished? ==> Frame(env, r.env, Assigned(e))
    ensures r.Finished? && IsComparison(e) ==> r.value == 0.0 || r.value == 1.0
    decreases fuel, 1
  {
    match Eval(h, e.l, env, fuel)
    case OutOfFuel => OutOfFuel
    case Finished(av, env1) =>
      match Eval(h, e.r, env1, fuel)
      case OutOfFuel => OutOfFuel
      case Finished(bv, env2) =>
        FrameTrans(env, env1, env2, Assigned(e.l), Assigned(e.r), Assigned(e));
        Finished(Apply(h, e, av, bv), env2)
  }

  /** Statements of a block (or arguments of a call) in order, threading the
      environment; the value is the last one, or `last` when there is none. */
  function EvalSeq(h: HostArith, ss: seq<Expr>, env: Env, fuel: nat, last: real): (r: Outcome)
    ensures r.Finished? ==> Frame(env, r.env, AssignedAll(ss))
    ensures ss == [] ==> r == Finished(last, env)
    decreases fuel, |ss|
  {
    if ss == [] then Finished(last, env)
    else
      match Eval(h, ss[0], env, fuel)
      case OutOfFuel => OutOfFuel
      case Finished(v, env1) =>
        var r := EvalSeq(h, ss[1..], env1, fuel, v);
        if r.Finished? then
          AssignedAllSplit(ss);
          FrameTrans(env, env1, r.env, Assigned(ss[0]), AssignedAll(ss[1..]), AssignedAll(ss));
          r
        else r
  }

  /** The `while` loop: evaluate the condition, stop on zero, otherwise run the
      body and go round again; the value is the last body value, or `last`. */
  function Loop(h: HostArith, c: Expr, b: Expr, env: Env, fuel: nat, last: real): (r: Outcome)
    ensures r.Finished? ==> Frame(env, r.env, Assigned(c) + Assigned(b))
    decreases fuel, 0
  {
    if fuel == 0 then OutOfFuel
    else
      var f := fuel - 1;
      match Eval(h, c, env, f)
      case OutOfFuel => OutOfFuel
      case Finished(cv, env1) =>
        if cv == 0.0 then
          FrameWiden(env, env1, Assigned(c), Assigned(c) + Assigned(b));
          Finished(last, env1)
        else
          match Eval(h, b, env1, f)
          case OutOfFuel => OutOfFuel
          case Finished(bv, env2) =>
            var r := Loop(h, c, b, env2, f, bv);
            if r.Finished? then
              FrameTrans(env, env1, env2, Assigned(c), Assigned(b), Assigned(c) + Assigned(b));
              FrameTrans(env, env2, r.env, Assigned(c) + Assigned(b), Assigned(c) + Assigned(b), Assigned(c) + Assigned(b));
              r
            else r
  }

  /** `avaliar`: evaluation in an empty environment; the only bindings it can
      leave behind are names the tree assigns. */
  function Avaliar(h: HostArith, e: Expr, fuel: nat): (r: Outcome)
    ensures r.Finished? ==> r.env.Keys <= Assigned(e)
  {
    Eval(h, e, map[], fuel)
  }
}
