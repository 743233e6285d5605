/** Properties of the parser of src/analisador_sintatico.rs. The centrepiece
    is a printer from syntax trees to tokens, with as few parentheses as the
    precedence ladder allows, and the theorem that the parser reads every
    printed statement back as the tree it came from. */
module SintaticoProps {
  import opened Wrappers
  import opened Lexico
  import opened Sintatico
  import A = Arvore

  // ---------------------------------------------------------------------
  // Trees the parser can build, and their grammar levels
  // ---------------------------------------------------------------------

  /** The binary nodes the parser builds (`%` has no token, so no `Modulo`). */
  predicate IsBinary(e: A.Expr) {
    || e.Multiplicacao? || e.Divisao? || e.Soma? || e.Subtracao?
    || e.Maior? || e.MaiorIgual? || e.Menor? || e.MenorIgual?
    || e.IgualIgual? || e.Diferente? || e.And? || e.Or?
  }

  /** Statements are parsed only by `analisar_expressao` and
      `analisar_declaracao`; inside an expression they need parentheses. */
  predicate IsStatement(e: A.Expr) {
    e.Block? || e.If? || e.While? || e.VarDef?
  }

  /** The grammar level whose production builds `e`, as numbered by
      `OpLevel`: 0 unary and primary, 1 call, 2 attribute, 3 to 7 binary,
      8 assignment, 9 statements (and the nodes no production builds). */
  function Level(e: A.Expr): (l: nat)
    ensures l <= 9
    ensures IsBinary(e) ==> 3 <= l <= 7
    ensures l == 9 <==> IsStatement(e) || e.Modulo? || e.Print?
  {
    match e
    case Numero(_) => 0
    case String(_) => 0
    case Identificador(_) => 0
    case Negacao(_) => 0
    case NegacaoAritmetica(_) => 0
    case Call(_, _) => 1
    case GetAttr(_, _) => 2
    case Multiplicacao(_, _) => 3
    case Divisao(_, _) => 3
    case Soma(_, _) => 4
    case Subtracao(_, _) => 4
    case Maior(_, _) => 5
    case MaiorIgual(_, _) => 5
    case Menor(_, _) => 5
    case MenorIgual(_, _) => 5
    case IgualIgual(_, _) => 5
    case Diferente(_, _) => 5
    case And(_, _) => 6
    case Or(_, _) => 7
    case Assign(_, _) => 8
    case _ => 9
  }

  /** The operator token of a binary node: it sits at the node's level and
      the parser combines the two operands back into the node. */
  function OpToken(e: A.Expr): (t: Simbolo)
    requires IsBinary(e)
    ensures OpLevel(t) == Level(e)
    ensures Combine(t, e.l, e.r) == e
  {
    match e
    case Multiplicacao(_, _) => Multiplicacao
    case Divisao(_, _) => Divisao
    case Soma(_, _) => Soma
    case Subtracao(_, _) => Subtracao
    case Maior(_, _) => Maior
    case MaiorIgual(_, _) => MaiorIgual
    case Menor(_, _) => Menor
    case MenorIgual(_, _) => MenorIgual
    case IgualIgual(_, _) => IgualIgual
    case Diferente(_, _) => Diferente
    case And(_, _) => And
    case Or(_, _) => Or
  }

  /** Trees made only of nodes the parser builds. */
  predicate Printable(e: A.Expr) {
    !Unbuilt(e)
  }

  /** `e` contains a node no production builds. */
  predicate Unbuilt(e: A.Expr) {
    match e
    case Numero(_) => false
    case String(_) => false
    case Identificador(_) => false
    case Negacao(x) => Unbuilt(x)
    case NegacaoAritmetica(x) => Unbuilt(x)
    case Call(f, args) => Unbuilt(f) || exists i :: 0 <= i < |args| && Unbuilt(args[i])
    case GetAttr(o, _) => Unbuilt(o)
    case Assign(_, v) => Unbuilt(v)
    case VarDef(_, v) => Unbuilt(v)
    case Block(ss) => exists i :: 0 <= i < |ss| && Unbuilt(ss[i])
    case If(c, t, el) => Unbuilt(c) || Unbuilt(t) || (el.Some? && Unbuilt(el.value))
    case While(c, b) => Unbuilt(c) || Unbuilt(b)
    case Modulo(_, _) => true
    case Print(_) => true
    case _ => Unbuilt(e.l) || Unbuilt(e.r)
  }

  // ---------------------------------------------------------------------
  // The printer
  // ---------------------------------------------------------------------

  /** Tokens that can open an expression. */
  predicate StartsExpr(t: Simbolo) {
    t.Numero? || t.String? || t.Identificador? || t == Negacao || t == Subtracao || t == AbreParenteses
  }

  /** Tokens that can open a statement. */
  predicate StartsStmt(t: Simbolo) {
    StartsExpr(t) || t == AbreChaves || t == If || t == While || t == Var
  }

  /** `e` printed where the parser reads a level-`k` expression: bare when
      its own level is at most `k`, in parentheses otherwise. */
  function ExprText(e: A.Expr, k: nat): (t: seq<Simbolo>)
    ensures Printable(e) && k <= 8 ==> |t| > 0 && StartsExpr(t[0])
    decreases e, 3, 0
  {
    if Level(e) <= k then RawText(e)
    else [AbreParenteses] + StmtText(e) + [FechaParenteses]
  }

  /** An expression node at its own level: operands of a left-associative
      level are printed one level lower on the right. */
  function RawText(e: A.Expr): (t: seq<Simbolo>)
    ensures Printable(e) && Level(e) <= 8 ==> |t| > 0 && StartsExpr(t[0])
    decreases e, 1, 0
  {
    match e
    case Numero(n) => [Numero(n)]
    case String(s) => [String(s)]
    case Identificador(x) => [Identificador(x)]
    case Negacao(x) => [Negacao] + ExprText(x, 0)
    case NegacaoAritmetica(x) => [Subtracao] + ExprText(x, 0)
    case Call(f, _) => ExprText(f, 1) + [AbreParenteses] + ArgsText(e, 0) + [FechaParenteses]
    case GetAttr(o, a) => ExprText(o, 2) + [Ponto, Identificador(a)]
    case Assign(x, v) => [Identificador(x), Igual] + ExprText(v, 8)
    case Multiplicacao(_, _) => BinaryText(e)
    case Divisao(_, _) => BinaryText(e)
    case Soma(_, _) => BinaryText(e)
    case Subtracao(_, _) => BinaryText(e)
    case Maior(_, _) => BinaryText(e)
    case MaiorIgual(_, _) => BinaryText(e)
    case Menor(_, _) => BinaryText(e)
    case MenorIgual(_, _) => BinaryText(e)
    case IgualIgual(_, _) => BinaryText(e)
    case Diferente(_, _) => BinaryText(e)
    case And(_, _) => BinaryText(e)
    case Or(_, _) => BinaryText(e)
    case _ => []
  }

  /** A binary node: the left operand at the node's own level (the level
      loops to the left), the right operand one level lower. */
  function BinaryText(e: A.Expr): (t: seq<Simbolo>)
    requires IsBinary(e)
    ensures Printable(e) ==> |t| > 0 && StartsExpr(t[0])
    decreases e, 0, 0
  {
    ExprText(e.l, Level(e)) + [OpToken(e)] + ExprText(e.r, Level(e) - 1)
  }

  /** The arguments of call `c` from the `i`-th on, separated by commas. */
  function ArgsText(c: A.Expr, i: nat): (t: seq<Simbolo>)
    requires c.Call?
    decreases c, 0, |c.args| - i
  {
    if i >= |c.args| then []
    else (if i == 0 then [] else [Virgula]) + StmtText(c.args[i]) + ArgsText(c, i + 1)
  }

  /** The statements of block `b` from the `i`-th on, each closed by `;`. */
  function ItemsText(b: A.Expr, i: nat): (t: seq<Simbolo>)
    requires b.Block?
    decreases b, 0, |b.stmts| - i
  {
    if i >= |b.stmts| then []
    else DeclText(b.stmts[i]) + [PontoVirgula] + ItemsText(b, i + 1)
  }

  /** A statement as `analisar_expressao` reads it. */
  function StmtText(s: A.Expr): (t: seq<Simbolo>)
    ensures Printable(s) ==> |t| > 0 && StartsStmt(t[0])
    decreases s, 2, 0
  {
    if !IsStatement(s) then RawText(s)
    else match s
    case Block(_) => [AbreChaves] + ItemsText(s, 0) + [FechaChaves]
    case If(c, th, el) =>
      [If, AbreParenteses] + ExprText(c, 8) + [FechaParenteses] + DeclText(th)
        + (if el.Some? then [Else] + DeclText(el.value) else [])
    case While(c, b) => [While, AbreParenteses] + ExprText(c, 8) + [FechaParenteses] + DeclText(b)
    case VarDef(x, v) => [Var, Identificador(x), Igual] + ExprText(v, 8)
  }

  /** A statement as `analisar_declaracao` reads it: `if` and `while` need
      parentheses there. */
  function DeclText(s: A.Expr): (t: seq<Simbolo>)
    ensures Printable(s) ==> |t| > 0 && StartsStmt(t[0]) && t[0] != If && t[0] != While
    decreases s, 4, 0
  {
    if s.Block? || s.VarDef? then StmtText(s) else ExprText(s, 8)
  }

  // ---------------------------------------------------------------------
  // The precedence ladder, one level at a time
  // ---------------------------------------------------------------------

  /** Every position a parse result mentions lies within `n` tokens. */
  predicate Bounded<T>(r: Parse<T>, n: nat) {
    match r
    case Parsed(_, q) => q <= n
    case Failed(q) => q <= n
  }

  /** The loop of level `l` (1 to 8) resumed with `x` already parsed and the
      cursor at `q`. */
  function Resume(l: nat, toks: seq<Simbolo>, x: A.Expr, q: nat): (r: Parse<A.Expr>)
    requires 1 <= l <= 8 && q <= |toks|
    ensures Bounded(r, |toks|)
  {
    if l == 1 then CallTail(toks, x, q)
    else if l == 2 then AttrTail(toks, x, q)
    else if l <= 7 then BinaryTail(l, toks, x, q)
    else AssignTail(toks, x, q)
  }

  /** Level `l` applied to the result of level `l - 1`. */
  function Step(l: nat, toks: seq<Simbolo>, r: Parse<A.Expr>): (r': Parse<A.Expr>)
    requires 1 <= l <= 8 && Bounded(r, |toks|)
    ensures Bounded(r', |toks|)
  {
    match r
    case Failed(q) => Failed(q)
    case Parsed(x, q) => Resume(l, toks, x, q)
  }

  /** Levels `j + 1` to `k` applied in turn to the result of level `j`. */
  function Finish(j: nat, k: nat, toks: seq<Simbolo>, r: Parse<A.Expr>): (r': Parse<A.Expr>)
    requires j <= k <= 8 && Bounded(r, |toks|)
    ensures Bounded(r', |toks|)
    decreases k - j
  {
    if j == k then r else Finish(j + 1, k, toks, Step(j + 1, toks, r))
  }

  /** Where a parser of level `j` stands after `x`: level 0 is done, any
      other level resumes its loop. */
  function Tail(j: nat, toks: seq<Simbolo>, x: A.Expr, q: nat): (r: Parse<A.Expr>)
    requires j <= 8 && q <= |toks|
    ensures Bounded(r, |toks|)
  {
    if j == 0 then Parsed(x, q) else Resume(j, toks, x, q)
  }

  /** Each level is the level below followed by its own loop. */
  lemma LevelStep(k: nat, toks: seq<Simbolo>, p: nat)
    requires 1 <= k <= 8 && p <= |toks|
    ensures ParseLevel(k, toks, p) == Step(k, toks, ParseLevel(k - 1, toks, p))
  {
  }

  /** Level `k` is level `j` followed by the loops of the levels in between. */
  lemma {:induction false} Unfold(j: nat, k: nat, toks: seq<Simbolo>, p: nat)
    requires j <= k <= 8 && p <= |toks|
    ensures ParseLevel(k, toks, p) == Finish(j, k, toks, ParseLevel(j, toks, p))
    decreases k - j
  {
    if j < k {
      LevelStep(j + 1, toks, p);
      Unfold(j + 1, k, toks, p);
    }
  }

  /** The token at `q` does not continue any level from 1 to `k`. */
  predicate Stops(k: nat, toks: seq<Simbolo>, q: nat) {
    q >= |toks| || OpLevel(toks[q]) == 0 || OpLevel(toks[q]) > k
  }

  /** A loop whose token is not next stops at once. */
  lemma ResumeStops(l: nat, toks: seq<Simbolo>, x: A.Expr, q: nat)
    requires 1 <= l <= 8 && q <= |toks|
    requires q == |toks| || OpLevel(toks[q]) != l
    ensures Resume(l, toks, x, q) == Parsed(x, q)
  {
  }

  /** Levels below the one the next token continues pass `x` through. */
  lemma {:induction false} Skip(j: nat, m: nat, k: nat, toks: seq<Simbolo>, x: A.Expr, q: nat)
    requires j <= m <= k <= 8 && q <= |toks|
    requires q == |toks| || OpLevel(toks[q]) == 0 || OpLevel(toks[q]) >= m
    ensures Finish(j, k, toks, Tail(j, toks, x, q)) == Finish(m, k, toks, Tail(m, toks, x, q))
    decreases m - j
  {
    if j < m {
      if j > 0 {
        ResumeStops(j, toks, x, q);
      }
      assert Finish(j, k, toks, Parsed(x, q)) == Finish(j + 1, k, toks, Resume(j + 1, toks, x, q));
      Skip(j + 1, m, k, toks, x, q);
    }
  }

  /** When the next token continues no level up to `k`, the parse is over. */
  lemma Halt(j: nat, k: nat, toks: seq<Simbolo>, x: A.Expr, q: nat)
    requires j <= k <= 8 && q <= |toks|
    requires Stops(k, toks, q)
    ensures Finish(j, k, toks, Tail(j, toks, x, q)) == Parsed(x, q)
  {
    Skip(j, k, k, toks, x, q);
    if k > 0 {
      ResumeStops(k, toks, x, q);
    }
  }

  // ---------------------------------------------------------------------
  // One round of each loop
  // ---------------------------------------------------------------------

  lemma BinaryTailStep(l: nat, toks: seq<Simbolo>, acc: A.Expr, q: nat, y: A.Expr, r: nat)
    requires 3 <= l <= 7 && q < |toks| && OpLevel(toks[q]) == l
    requires ParseLevel(l - 1, toks, q + 1) == Parsed(y, r)
    ensures BinaryTail(l, toks, acc, q) == BinaryTail(l, toks, Combine(toks[q], acc, y), r)
  {
  }

  lemma CallTailStep(toks: seq<Simbolo>, callee: A.Expr, q: nat, args: seq<A.Expr>, r: nat)
    requires q < |toks| && toks[q] == AbreParenteses
    requires CallArgs(toks, q + 1) == Parsed(args, r)
    requires r < |toks| && toks[r] == FechaParenteses
    ensures CallTail(toks, callee, q) == CallTail(toks, A.Call(callee, args), r + 1)
  {
  }

  lemma AttrTailStep(toks: seq<Simbolo>, acc: A.Expr, q: nat, name: string)
    requires q + 1 < |toks| && toks[q] == Ponto && toks[q + 1] == Identificador(name)
    ensures AttrTail(toks, acc, q) == AttrTail(toks, A.GetAttr(acc, name), q + 2)
  {
  }

  lemma AssignTailStep(toks: seq<Simbolo>, x: string, q: nat, v: A.Expr, r: nat)
    requires q < |toks| && toks[q] == Igual
    requires ParseAtribuicao(toks, q + 1) == Parsed(v, r)
    ensures AssignTail(toks, A.Identificador(x), q) == Parsed(A.Assign(x, v), r)
  {
  }

  lemma CallArgsFirst(toks: seq<Simbolo>, q: nat, a: A.Expr, r: nat)
    requires q < |toks| && toks[q] != FechaParenteses
    requires ParseExpressao(toks, q) == Parsed(a, r)
    ensures CallArgs(toks, q) == ArgsTail(toks, [a], r)
  {
  }

  lemma ArgsTailStep(toks: seq<Simbolo>, args: seq<A.Expr>, q: nat, a: A.Expr, r: nat)
    requires q < |toks| && toks[q] == Virgula
    requires ParseExpressao(toks, q + 1) == Parsed(a, r)
    ensures ArgsTail(toks, args, q) == ArgsTail(toks, args + [a], r)
  {
  }

  lemma BlockItemsStep(toks: seq<Simbolo>, p: nat, acc: seq<A.Expr>, s: A.Expr, r: nat)
    requires p < |toks| && toks[p] != FechaChaves && toks[p] != PontoVirgula
    requires ParseDeclaracao(toks, p) == Parsed(s, r)
    requires r < |toks| && toks[r] == PontoVirgula
    ensures BlockItems(toks, p, acc) == BlockItems(toks, r + 1, acc + [s])
  {
    assert BlockItems(toks, r, acc + [s]) == BlockItems(toks, r + 1, acc + [s]);
  }

  lemma ParenStep(toks: seq<Simbolo>, p: nat, x: A.Expr, r: nat)
    requires p < |toks| && toks[p] == AbreParenteses
    requires ParseExpressao(toks, p + 1) == Parsed(x, r)
    requires r < |toks| && toks[r] == FechaParenteses
    ensures ParseLevel(0, toks, p) == Parsed(x, r + 1)
  {
  }

  lemma UnaryStep(toks: seq<Simbolo>, p: nat, x: A.Expr, r: nat)
    requires p < |toks| && (toks[p] == Negacao || toks[p] == Subtracao)
    requires ParseUnario(toks, p + 1) == Parsed(x, r)
    ensures ParseUnario(toks, p) == Parsed(if toks[p] == Negacao then A.Negacao(x) else A.NegacaoAritmetica(x), r)
  {
  }

  lemma VarStep(toks: seq<Simbolo>, p: nat, x: string, v: A.Expr, r: nat)
    requires p + 2 < |toks| && toks[p] == Var && toks[p + 1] == Identificador(x) && toks[p + 2] == Igual
    requires ParseAtribuicao(toks, p + 3) == Parsed(v, r)
    ensures ParseDeclaracaoVariavel(toks, p) == Parsed(A.VarDef(x, v), r)
  {
  }

  lemma WhileStep(toks: seq<Simbolo>, p: nat, c: A.Expr, qc: nat, b: A.Expr, r: nat)
    requires p + 1 < |toks| && toks[p] == While && toks[p + 1] == AbreParenteses
    requires ParseAtribuicao(toks, p + 2) == Parsed(c, qc)
    requires qc < |toks| && toks[qc] == FechaParenteses
    requires ParseDeclaracao(toks, qc + 1) == Parsed(b, r)
    ensures ParseWhile(toks, p) == Parsed(A.While(c, b), r)
  {
  }

  /** The part of `analisar_if` up to and including the first branch. */
  lemma IfStep(toks: seq<Simbolo>, p: nat, c: A.Expr, qc: nat, t: A.Expr, qt: nat)
    requires p + 1 < |toks| && toks[p] == If && toks[p + 1] == AbreParenteses
    requires ParseAtribuicao(toks, p + 2) == Parsed(c, qc)
    requires qc < |toks| && toks[qc] == FechaParenteses
    requires ParseDeclaracao(toks, qc + 1) == Parsed(t, qt)
    ensures qt < |toks| && toks[qt] == Else ==>
      ParseIf(toks, p) == (match ParseDeclaracao(toks, qt + 1)
                           case Failed(f) => Failed(f)
                           case Parsed(el, r) => Parsed(A.If(c, t, Some(el)), r))
    ensures qt >= |toks| || toks[qt] != Else ==> ParseIf(toks, p) == Parsed(A.If(c, t, None), qt)
  {
  }

  // ---------------------------------------------------------------------
  // Reading printed text back
  // ---------------------------------------------------------------------

  /** The tokens from position `p` on begin with `t`. */
  predicate At(toks: seq<Simbolo>, p: nat, t: seq<Simbolo>) {
    p + |t| <= |toks| && toks[p..p + |t|] == t
  }

  lemma AtSplit(toks: seq<Simbolo>, p: nat, x: seq<Simbolo>, y: seq<Simbolo>)
    requires At(toks, p, x + y)
    ensures At(toks, p, x) && At(toks, p + |x|, y)
  {
    var w := toks[p..p + |x| + |y|];
    assert w == x + y;
    assert w[..|x|] == x && w[|x|..] == y;
    assert toks[p..p + |x|] == w[..|x|];
    assert toks[p + |x|..p + |x| + |y|] == w[|x|..];
  }

  lemma AtHead(toks: seq<Simbolo>, p: nat, t: seq<Simbolo>)
    requires At(toks, p, t) && |t| > 0
    ensures toks[p] == t[0]
  {
    assert toks[p..p + |t|][0] == toks[p];
  }

  lemma AtEach(toks: seq<Simbolo>, p: nat, t: seq<Simbolo>)
    requires At(toks, p, t)
    ensures forall i :: 0 <= i < |t| ==> toks[p + i] == t[i]
  {
    forall i | 0 <= i < |t|
      ensures toks[p + i] == t[i]
    {
      assert toks[p..p + |t|][i] == toks[p + i];
    }
  }

  lemma AtBound(toks: seq<Simbolo>, p: nat, t: seq<Simbolo>)
    requires At(toks, p, t)
    ensures p + |t| <= |toks|
  {
  }

  /** The top of the ladder is `analisar_atribuicao`. */
  lemma LevelTop(toks: seq<Simbolo>, p: nat)
    requires p <= |toks|
    ensures ParseLevel(8, toks, p) == ParseAtribuicao(toks, p)
  {
  }

  /** The token after an expression of level `l`: it ends the expression or
      continues a level at least `l` (an assignment ends its expression). */
  predicate FollowOk(l: nat, toks: seq<Simbolo>, q: nat) {
    q >= |toks| || OpLevel(toks[q]) == 0 || (l <= OpLevel(toks[q]) && l < 8)
  }

  /** The level at which the parser completes `e` printed for level `k`: a
      parenthesised expression is complete at the unary level. */
  function Eff(e: A.Expr, k: nat): nat {
    if Level(e) <= k then Level(e) else 0
  }

  /** The token after statement `s` ends it: it continues no expression and
      is no `else` an `if` without one could take. */
  predicate Closes(s: A.Expr, toks: seq<Simbolo>, q: nat) {
    && Stops(8, toks, q)
    && (q < |toks| && s.If? && s.elseBranch.None? ==> toks[q] != Else)
  }

  /** The parser of level `k` reads `e` printed for level `k`, and goes on
      exactly as if `e` had been parsed at its own level. */
  lemma {:induction false} ExprRoundTrip(e: A.Expr, k: nat, toks: seq<Simbolo>, p: nat)
    requires Printable(e) && k <= 8
    requires At(toks, p, ExprText(e, k))
    requires FollowOk(Eff(e, k), toks, p + |ExprText(e, k)|)
    ensures ParseLevel(k, toks, p) == Finish(Eff(e, k), k, toks, Tail(Eff(e, k), toks, e, p + |ExprText(e, k)|))
    decreases e, if Level(e) <= k then 3 else 5, if Level(e) <= k then 0 else 1
  {
    hide ParseLevel, Finish, RawText, StmtText;
    if Level(e) <= k {
      BareAt(e, k, toks, p);
    } else {
      ParenAt(e, k, toks, p);
    }
  }

  lemma {:induction false} BareAt(e: A.Expr, k: nat, toks: seq<Simbolo>, p: nat)
    requires Printable(e) && Level(e) <= k <= 8
    requires At(toks, p, RawText(e))
    requires FollowOk(Level(e), toks, p + |RawText(e)|)
    ensures ParseLevel(k, toks, p) == Finish(Level(e), k, toks, Tail(Level(e), toks, e, p + |RawText(e)|))
    decreases e, 2, 1
  {
    hide ParseLevel, Finish, Tail, RawText;
    RawRoundTrip(e, toks, p);
    Unfold(Level(e), k, toks, p);
  }

  lemma {:induction false} ParenAt(e: A.Expr, k: nat, toks: seq<Simbolo>, p: nat)
    requires Printable(e) && k < Level(e) && k <= 8
    requires At(toks, p, [AbreParenteses] + StmtText(e) + [FechaParenteses])
    requires FollowOk(0, toks, p + |StmtText(e)| + 2)
    ensures ParseLevel(k, toks, p) == Finish(0, k, toks, Parsed(e, p + |StmtText(e)| + 2))
    decreases e, 5, 0
  {
    hide ParseLevel, ParseUnario, ParseExpressao, Finish, StmtText, At;
    var body := StmtText(e);
    var r := p + 1 + |body|;
    AtSplit(toks, p, [AbreParenteses] + body, [FechaParenteses]);
    AtSplit(toks, p, [AbreParenteses], body);
    AtHead(toks, p, [AbreParenteses]);
    AtHead(toks, r, [FechaParenteses]);
    StmtRoundTrip(e, toks, p + 1);
    ParenStep(toks, p, e, r);
    Unfold(0, k, toks, p);
  }

  /** An expression node printed bare is read by the production of its own
      level, which then resumes its loop. */
  lemma {:induction false} RawRoundTrip(e: A.Expr, toks: seq<Simbolo>, p: nat)
    requires Printable(e) && Level(e) <= 8
    requires At(toks, p, RawText(e))
    requires FollowOk(Level(e), toks, p + |RawText(e)|)
    ensures ParseLevel(Level(e), toks, p) == Tail(Level(e), toks, e, p + |RawText(e)|)
    decreases e, 2, 0
  {
    hide ParseLevel, RawText;
    if IsBinary(e) {
      BinaryRoundTrip(e, toks, p);
    } else if e.Negacao? || e.NegacaoAritmetica? {
      UnaryRoundTrip(e, toks, p);
    } else if e.Call? {
      CallRoundTrip(e, toks, p);
    } else if e.GetAttr? {
      AttrRoundTrip(e, toks, p);
    } else if e.Assign? {
      AssignRoundTrip(e, toks, p);
    } else {
      LiteralRoundTrip(e, toks, p);
    }
  }

  /** A literal or an identifier is a single token. */
  lemma LiteralRoundTrip(e: A.Expr, toks: seq<Simbolo>, p: nat)
    requires e.Numero? || e.String? || e.Identificador?
    requires At(toks, p, RawText(e))
    ensures ParseLevel(0, toks, p) == Parsed(e, p + |RawText(e)|)
  {
    AtHead(toks, p, RawText(e));
  }

  lemma {:induction false} UnaryRoundTrip(e: A.Expr, toks: seq<Simbolo>, p: nat)
    requires e.Negacao? || e.NegacaoAritmetica?
    requires Printable(e) && At(toks, p, RawText(e))
    ensures ParseLevel(0, toks, p) == Parsed(e, p + |RawText(e)|)
    decreases e, 1, 0
  {
    hide ParseUnario, ExprText, At;
    var t := ExprText(e.operand, 0);
    var op := if e.Negacao? then Negacao else Subtracao;
    assert RawText(e) == [op] + t;
    AtSplit(toks, p, [op], t);
    AtHead(toks, p, [op]);
    ExprRoundTrip(e.operand, 0, toks, p + 1);
    UnaryStep(toks, p, e.operand, p + 1 + |t|);
  }

  // Calls

  lemma {:induction false} CallRoundTrip(e: A.Expr, toks: seq<Simbolo>, p: nat)
    requires e.Call? && Printable(e) && At(toks, p, RawText(e))
    ensures ParseLevel(1, toks, p) == CallTail(toks, e, p + |RawText(e)|)
    decreases e, 1, 0
  {
    hide ParseLevel, CallTail, RawText, ExprText, ArgsText, At;
    SplitCall(e, toks, p);
    CallParse(e, toks, p);
  }

  lemma SplitCall(e: A.Expr, toks: seq<Simbolo>, p: nat)
    requires e.Call? && Printable(e) && At(toks, p, RawText(e))
    ensures var qf := p + |ExprText(e.callee, 1)|;
      && At(toks, p, ExprText(e.callee, 1))
      && qf < |toks| && toks[qf] == AbreParenteses
      && At(toks, qf + 1, ArgsText(e, 0))
      && qf + 1 + |ArgsText(e, 0)| < |toks| && toks[qf + 1 + |ArgsText(e, 0)|] == FechaParenteses
      && |RawText(e)| == |ExprText(e.callee, 1)| + |ArgsText(e, 0)| + 2
  {
    hide ExprText, ArgsText, At;
    var tf := ExprText(e.callee, 1);
    var ta := ArgsText(e, 0);
    var qf := p + |tf|;
    assert RawText(e) == tf + [AbreParenteses] + ta + [FechaParenteses];
    AtSplit(toks, p, tf + [AbreParenteses] + ta, [FechaParenteses]);
    AtSplit(toks, p, tf + [AbreParenteses], ta);
    AtSplit(toks, p, tf, [AbreParenteses]);
    AtHead(toks, qf, [AbreParenteses]);
    AtHead(toks, qf + 1 + |ta|, [FechaParenteses]);
  }

  lemma {:induction false} CallParse(e: A.Expr, toks: seq<Simbolo>, p: nat)
    requires e.Call? && Printable(e)
    requires var qf := p + |ExprText(e.callee, 1)|;
      && At(toks, p, ExprText(e.callee, 1))
      && qf < |toks| && toks[qf] == AbreParenteses
      && At(toks, qf + 1, ArgsText(e, 0))
      && qf + 1 + |ArgsText(e, 0)| < |toks| && toks[qf + 1 + |ArgsText(e, 0)|] == FechaParenteses
    ensures ParseLevel(1, toks, p) == CallTail(toks, e, p + |ExprText(e.callee, 1)| + 1 + |ArgsText(e, 0)| + 1)
    decreases e, 0, |e.args| + 1
  {
    hide ParseLevel, CallTail, CallArgs, ExprText, ArgsText, At;
    var qf := p + |ExprText(e.callee, 1)|;
    Callee(e, toks, p);
    ArgsRoundTrip(e, 0, toks, qf + 1);
    CallTailStep(toks, e.callee, qf, e.args, qf + 1 + |ArgsText(e, 0)|);
  }

  /** The callee of a call, followed by `(`, leaves the parser in the loop of
      `analisar_chamada`. */
  lemma {:induction false} Callee(e: A.Expr, toks: seq<Simbolo>, p: nat)
    requires e.Call? && Printable(e)
    requires At(toks, p, ExprText(e.callee, 1))
    requires p + |ExprText(e.callee, 1)| < |toks| && toks[p + |ExprText(e.callee, 1)|] == AbreParenteses
    ensures ParseLevel(1, toks, p) == CallTail(toks, e.callee, p + |ExprText(e.callee, 1)|)
    decreases e, 0, 0
  {
    hide ParseLevel, CallTail, ExprText, At;
    ExprRoundTrip(e.callee, 1, toks, p);
    Skip(Eff(e.callee, 1), 1, 1, toks, e.callee, p + |ExprText(e.callee, 1)|);
  }

  /** The argument list of call `c` from its `i`-th argument on is read back
      as the whole argument list, stopping at the closing `)`. */
  lemma {:induction false} ArgsRoundTrip(c: A.Expr, i: nat, toks: seq<Simbolo>, p: nat)
    requires c.Call? && Printable(c) && i <= |c.args|
    requires At(toks, p, ArgsText(c, i))
    requires p + |ArgsText(c, i)| < |toks| && toks[p + |ArgsText(c, i)|] == FechaParenteses
    ensures i == 0 ==> CallArgs(toks, p) == Parsed(c.args, p + |ArgsText(c, i)|)
    ensures i > 0 ==> ArgsTail(toks, c.args[..i], p) == Parsed(c.args, p + |ArgsText(c, i)|)
    decreases c, 0, |c.args| - i
  {
    hide *;
    if i == |c.args| {
      ArgsEnd(c, i, toks, p);
    } else if i == 0 {
      SplitFirstArg(c, toks, p);
      FirstArg(c, toks, p);
      ArgsRoundTrip(c, 1, toks, p + |StmtText(c.args[0])|);
    } else {
      SplitNextArg(c, i, toks, p);
      NextArg(c, i, toks, p);
      ArgsRoundTrip(c, i + 1, toks, p + 1 + |StmtText(c.args[i])|);
    }
  }

  /** After the last argument only the closing `)` remains. */
  lemma ArgsEnd(c: A.Expr, i: nat, toks: seq<Simbolo>, p: nat)
    requires c.Call? && i == |c.args|
    requires p + |ArgsText(c, i)| < |toks| && toks[p + |ArgsText(c, i)|] == FechaParenteses
    ensures ArgsText(c, i) == []
    ensures i == 0 ==> CallArgs(toks, p) == Parsed(c.args, p)
    ensures i > 0 ==> ArgsTail(toks, c.args[..i], p) == Parsed(c.args, p)
  {
    assert c.args[..i] == c.args;
  }

  lemma SplitFirstArg(c: A.Expr, toks: seq<Simbolo>, p: nat)
    requires c.Call? && Printable(c) && 0 < |c.args|
    requires At(toks, p, ArgsText(c, 0))
    requires p + |ArgsText(c, 0)| < |toks| && toks[p + |ArgsText(c, 0)|] == FechaParenteses
    ensures At(toks, p, StmtText(c.args[0]))
    ensures At(toks, p + |StmtText(c.args[0])|, ArgsText(c, 1))
    ensures |ArgsText(c, 0)| == |StmtText(c.args[0])| + |ArgsText(c, 1)|
    ensures p + |StmtText(c.args[0])| < |toks|
    ensures toks[p + |StmtText(c.args[0])|] == Virgula || toks[p + |StmtText(c.args[0])|] == FechaParenteses
  {
    hide StmtText, At;
    var ta := StmtText(c.args[0]);
    var rest := ArgsText(c, 1);
    assert ArgsText(c, 0) == ta + rest;
    AtSplit(toks, p, ta, rest);
    if 1 < |c.args| {
      AtHead(toks, p + |ta|, rest);
    }
  }

  lemma SplitNextArg(c: A.Expr, i: nat, toks: seq<Simbolo>, p: nat)
    requires c.Call? && Printable(c) && 0 < i < |c.args|
    requires At(toks, p, ArgsText(c, i))
    requires p + |ArgsText(c, i)| < |toks| && toks[p + |ArgsText(c, i)|] == FechaParenteses
    ensures At(toks, p, [Virgula] + StmtText(c.args[i]))
    ensures At(toks, p + 1 + |StmtText(c.args[i])|, ArgsText(c, i + 1))
    ensures |ArgsText(c, i)| == 1 + |StmtText(c.args[i])| + |ArgsText(c, i + 1)|
    ensures p + 1 + |StmtText(c.args[i])| < |toks|
    ensures toks[p + 1 + |StmtText(c.args[i])|] == Virgula || toks[p + 1 + |StmtText(c.args[i])|] == FechaParenteses
  {
    hide StmtText, At;
    var ta := [Virgula] + StmtText(c.args[i]);
    var rest := ArgsText(c, i + 1);
    assert ArgsText(c, i) == ta + rest;
    AtSplit(toks, p, ta, rest);
    if i + 1 < |c.args| {
      AtHead(toks, p + |ta|, rest);
    }
  }

  /** The first argument of a call. */
  lemma {:induction false} FirstArg(c: A.Expr, toks: seq<Simbolo>, p: nat)
    requires c.Call? && Printable(c) && 0 < |c.args|
    requires At(toks, p, StmtText(c.args[0]))
    requires p + |StmtText(c.args[0])| < |toks|
    requires toks[p + |StmtText(c.args[0])|] == Virgula || toks[p + |StmtText(c.args[0])|] == FechaParenteses
    ensures CallArgs(toks, p) == ArgsTail(toks, c.args[..1], p + |StmtText(c.args[0])|)
    decreases c, 0, 0
  {
    hide CallArgs, ArgsTail, ParseExpressao, StmtText, At;
    var a := c.args[0];
    AtHead(toks, p, StmtText(a));
    StmtRoundTrip(a, toks, p);
    CallArgsFirst(toks, p, a, p + |StmtText(a)|);
    assert [a] == c.args[..1];
  }

  /** An argument after the first, with the comma before it. */
  lemma {:induction false} NextArg(c: A.Expr, i: nat, toks: seq<Simbolo>, p: nat)
    requires c.Call? && Printable(c) && 0 < i < |c.args|
    requires At(toks, p, [Virgula] + StmtText(c.args[i]))
    requires p + 1 + |StmtText(c.args[i])| < |toks|
    requires toks[p + 1 + |StmtText(c.args[i])|] == Virgula || toks[p + 1 + |StmtText(c.args[i])|] == FechaParenteses
    ensures ArgsTail(toks, c.args[..i], p) == ArgsTail(toks, c.args[..i + 1], p + 1 + |StmtText(c.args[i])|)
    decreases c, 0, 0
  {
    hide ArgsTail, ParseExpressao, StmtText, At;
    var a := c.args[i];
    AtSplit(toks, p, [Virgula], StmtText(a));
    AtHead(toks, p, [Virgula]);
    AtHead(toks, p + 1, StmtText(a));
    StmtRoundTrip(a, toks, p + 1);
    ArgsTailStep(toks, c.args[..i], p, a, p + 1 + |StmtText(a)|);
    assert c.args[..i] + [a] == c.args[..i + 1];
  }

  // Attribute access

  lemma {:induction false} AttrRoundTrip(e: A.Expr, toks: seq<Simbolo>, p: nat)
    requires e.GetAttr? && Printable(e) && At(toks, p, RawText(e))
    ensures ParseLevel(2, toks, p) == AttrTail(toks, e, p + |RawText(e)|)
    decreases e, 1, 0
  {
    hide ParseLevel, AttrTail, ExprText, At;
    var to := ExprText(e.obj, 2);
    var qo := p + |to|;
    assert RawText(e) == to + [Ponto, Identificador(e.attr)];
    AtSplit(toks, p, to, [Ponto, Identificador(e.attr)]);
    AtEach(toks, qo, [Ponto, Identificador(e.attr)]);
    assert [Ponto, Identificador(e.attr)][1] == Identificador(e.attr);
    AttrObject(e, toks, p);
    AttrTailStep(toks, e.obj, qo, e.attr);
  }

  /** The object of an attribute access, followed by `.`, leaves the parser in
      the loop of `analisar_atributo`. */
  lemma {:induction false} AttrObject(e: A.Expr, toks: seq<Simbolo>, p: nat)
    requires e.GetAttr? && Printable(e)
    requires At(toks, p, ExprText(e.obj, 2))
    requires p + |ExprText(e.obj, 2)| < |toks| && toks[p + |ExprText(e.obj, 2)|] == Ponto
    ensures ParseLevel(2, toks, p) == AttrTail(toks, e.obj, p + |ExprText(e.obj, 2)|)
    decreases e, 0, 0
  {
    hide ParseLevel, AttrTail, ExprText, At;
    ExprRoundTrip(e.obj, 2, toks, p);
    Skip(Eff(e.obj, 2), 2, 2, toks, e.obj, p + |ExprText(e.obj, 2)|);
  }

  // Binary operators

  lemma {:induction false} BinaryRoundTrip(e: A.Expr, toks: seq<Simbolo>, p: nat)
    requires IsBinary(e) && Printable(e) && At(toks, p, RawText(e))
    requires FollowOk(Level(e), toks, p + |RawText(e)|)
    ensures ParseLevel(Level(e), toks, p) == BinaryTail(Level(e), toks, e, p + |RawText(e)|)
    decreases e, 1, 0
  {
    hide ParseLevel, BinaryTail, RawText, ExprText, At;
    SplitBinary(e, toks, p);
    BinaryParse(e, toks, p);
  }

  lemma RawBinary(e: A.Expr)
    requires IsBinary(e)
    ensures RawText(e) == BinaryText(e)
  {
  }

  lemma SplitBinary(e: A.Expr, toks: seq<Simbolo>, p: nat)
    requires IsBinary(e) && Printable(e) && At(toks, p, RawText(e))
    ensures var qa := p + |ExprText(e.l, Level(e))|;
      && At(toks, p, ExprText(e.l, Level(e)))
      && qa < |toks| && toks[qa] == OpToken(e)
      && At(toks, qa + 1, ExprText(e.r, Level(e) - 1))
      && |RawText(e)| == |ExprText(e.l, Level(e))| + 1 + |ExprText(e.r, Level(e) - 1)|
  {
    hide RawText, ExprText, At;
    RawBinary(e);
    var ta := ExprText(e.l, Level(e));
    var tb := ExprText(e.r, Level(e) - 1);
    assert BinaryText(e) == ta + [OpToken(e)] + tb;
    AtSplit(toks, p, ta + [OpToken(e)], tb);
    AtSplit(toks, p, ta, [OpToken(e)]);
    AtHead(toks, p + |ta|, [OpToken(e)]);
  }

  lemma {:induction false} BinaryParse(e: A.Expr, toks: seq<Simbolo>, p: nat)
    requires IsBinary(e) && Printable(e)
    requires var qa := p + |ExprText(e.l, Level(e))|;
      && At(toks, p, ExprText(e.l, Level(e)))
      && qa < |toks| && toks[qa] == OpToken(e)
      && At(toks, qa + 1, ExprText(e.r, Level(e) - 1))
      && FollowOk(Level(e), toks, qa + 1 + |ExprText(e.r, Level(e) - 1)|)
    ensures var qa := p + |ExprText(e.l, Level(e))|;
      ParseLevel(Level(e), toks, p) == BinaryTail(Level(e), toks, e, qa + 1 + |ExprText(e.r, Level(e) - 1)|)
    decreases e, 0, 1
  {
    hide ParseLevel, BinaryTail, ExprText, At;
    var qa := p + |ExprText(e.l, Level(e))|;
    var r := qa + 1 + |ExprText(e.r, Level(e) - 1)|;
    LeftOperand(e, toks, p);
    RightOperand(e, toks, qa + 1);
    BinaryTailStep(Level(e), toks, e.l, qa, e.r, r);
  }

  /** The left operand of a binary node, followed by its operator, leaves the
      parser in the loop of the node's level. */
  lemma {:induction false} LeftOperand(e: A.Expr, toks: seq<Simbolo>, p: nat)
    requires IsBinary(e) && Printable(e)
    requires At(toks, p, ExprText(e.l, Level(e)))
    requires p + |ExprText(e.l, Level(e))| < |toks|
    requires OpLevel(toks[p + |ExprText(e.l, Level(e))|]) == Level(e)
    ensures ParseLevel(Level(e), toks, p) == BinaryTail(Level(e), toks, e.l, p + |ExprText(e.l, Level(e))|)
    decreases e, 0, 0
  {
    hide ParseLevel, BinaryTail, ExprText, At;
    var l := Level(e);
    var qa := p + |ExprText(e.l, l)|;
    ExprRoundTrip(e.l, l, toks, p);
    Skip(Eff(e.l, l), l, l, toks, e.l, qa);
  }

  /** The right operand of a binary node, printed one level lower, is read
      completely by the level below. */
  lemma {:induction false} RightOperand(e: A.Expr, toks: seq<Simbolo>, p: nat)
    requires IsBinary(e) && Printable(e)
    requires At(toks, p, ExprText(e.r, Level(e) - 1))
    requires FollowOk(Level(e), toks, p + |ExprText(e.r, Level(e) - 1)|)
    ensures ParseLevel(Level(e) - 1, toks, p) == Parsed(e.r, p + |ExprText(e.r, Level(e) - 1)|)
    decreases e, 0, 0
  {
    hide ParseLevel, ExprText, At;
    ExprDone(e.r, Level(e) - 1, toks, p);
  }

  /** An expression printed for level `k` and followed by a token that
      continues no level up to `k` is read completely. */
  lemma {:induction false} ExprDone(e: A.Expr, k: nat, toks: seq<Simbolo>, p: nat)
    requires Printable(e) && k <= 8
    requires At(toks, p, ExprText(e, k))
    requires Stops(k, toks, p + |ExprText(e, k)|)
    ensures ParseLevel(k, toks, p) == Parsed(e, p + |ExprText(e, k)|)
    decreases e, 6, 0
  {
    hide ParseLevel, Finish, Tail, ExprText;
    ExprRoundTrip(e, k, toks, p);
    Halt(Eff(e, k), k, toks, e, p + |ExprText(e, k)|);
  }

  // Assignment

  lemma {:induction false} AssignRoundTrip(e: A.Expr, toks: seq<Simbolo>, p: nat)
    requires e.Assign? && Printable(e) && At(toks, p, RawText(e))
    requires FollowOk(8, toks, p + |RawText(e)|)
    ensures ParseLevel(8, toks, p) == Parsed(e, p + |RawText(e)|)
    ensures AssignTail(toks, e, p + |RawText(e)|) == Parsed(e, p + |RawText(e)|)
    decreases e, 1, 0
  {
    hide ParseLevel, AssignTail, RawText, ExprText, At;
    SplitAssign(e, toks, p);
    AssignParse(e, toks, p);
  }

  lemma SplitAssign(e: A.Expr, toks: seq<Simbolo>, p: nat)
    requires e.Assign? && Printable(e) && At(toks, p, RawText(e))
    ensures p + 1 < |toks| && toks[p] == Identificador(e.name) && toks[p + 1] == Igual
    ensures At(toks, p + 2, ExprText(e.value, 8))
    ensures |RawText(e)| == 2 + |ExprText(e.value, 8)|
  {
    hide ExprText, At;
    var tv := ExprText(e.value, 8);
    assert RawText(e) == [Identificador(e.name), Igual] + tv;
    AtSplit(toks, p, [Identificador(e.name), Igual], tv);
    AtEach(toks, p, [Identificador(e.name), Igual]);
    assert [Identificador(e.name), Igual][1] == Igual;
  }

  lemma {:induction false} AssignParse(e: A.Expr, toks: seq<Simbolo>, p: nat)
    requires e.Assign? && Printable(e)
    requires p + 1 < |toks| && toks[p] == Identificador(e.name) && toks[p + 1] == Igual
    requires At(toks, p + 2, ExprText(e.value, 8))
    requires FollowOk(8, toks, p + 2 + |ExprText(e.value, 8)|)
    ensures ParseLevel(8, toks, p) == Parsed(e, p + 2 + |ExprText(e.value, 8)|)
    ensures AssignTail(toks, e, p + 2 + |ExprText(e.value, 8)|) == Parsed(e, p + 2 + |ExprText(e.value, 8)|)
    decreases e, 0, 0
  {
    hide ParseAtribuicao, ExprText, At;
    var q := p + 2 + |ExprText(e.value, 8)|;
    AssignTarget(toks, p, e.name);
    ExprDone(e.value, 8, toks, p + 2);
    AssignTailStep(toks, e.name, p + 1, e.value, q);
  }

  /** An identifier followed by `=` leaves the parser in the tail of
      `analisar_atribuicao`. */
  lemma AssignTarget(toks: seq<Simbolo>, p: nat, x: string)
    requires p + 1 < |toks| && toks[p] == Identificador(x) && toks[p + 1] == Igual
    ensures ParseLevel(8, toks, p) == AssignTail(toks, A.Identificador(x), p + 1)
  {
    assert ParseUnario(toks, p) == Parsed(A.Identificador(x), p + 1);
    Unfold(0, 7, toks, p);
    Halt(0, 7, toks, A.Identificador(x), p + 1);
  }

  // Blocks

  /** The statements of block `b` from the `i`-th on are read back as the
      whole block once the closing `}` is reached. */
  lemma {:induction false} ItemsRoundTrip(b: A.Expr, i: nat, toks: seq<Simbolo>, p: nat)
    requires b.Block? && Printable(b) && i <= |b.stmts|
    requires At(toks, p, ItemsText(b, i))
    requires p + |ItemsText(b, i)| < |toks| && toks[p + |ItemsText(b, i)|] == FechaChaves
    ensures BlockItems(toks, p, b.stmts[..i]) == Parsed(b, p + |ItemsText(b, i)| + 1)
    decreases b, 0, |b.stmts| - i
  {
    hide BlockItems, ItemsText, DeclText, At;
    if i == |b.stmts| {
      ItemsEnd(b, i, toks, p);
    } else {
      SplitItem(b, i, toks, p);
      ItemStep(b, i, toks, p);
      ItemsRoundTrip(b, i + 1, toks, p + |DeclText(b.stmts[i])| + 1);
    }
  }

  /** After the last statement only the closing `}` remains. */
  lemma ItemsEnd(b: A.Expr, i: nat, toks: seq<Simbolo>, p: nat)
    requires b.Block? && i == |b.stmts|
    requires p + |ItemsText(b, i)| < |toks| && toks[p + |ItemsText(b, i)|] == FechaChaves
    ensures ItemsText(b, i) == []
    ensures BlockItems(toks, p, b.stmts[..i]) == Parsed(b, p + 1)
  {
    assert b.stmts[..i] == b.stmts;
  }

  lemma SplitItem(b: A.Expr, i: nat, toks: seq<Simbolo>, p: nat)
    requires b.Block? && Printable(b) && i < |b.stmts|
    requires At(toks, p, ItemsText(b, i))
    ensures At(toks, p, DeclText(b.stmts[i]))
    ensures p + |DeclText(b.stmts[i])| < |toks| && toks[p + |DeclText(b.stmts[i])|] == PontoVirgula
    ensures At(toks, p + |DeclText(b.stmts[i])| + 1, ItemsText(b, i + 1))
    ensures |ItemsText(b, i)| == |DeclText(b.stmts[i])| + 1 + |ItemsText(b, i + 1)|
  {
    hide DeclText, At;
    var td := DeclText(b.stmts[i]);
    var rest := ItemsText(b, i + 1);
    assert ItemsText(b, i) == td + [PontoVirgula] + rest;
    AtSplit(toks, p, td + [PontoVirgula], rest);
    AtSplit(toks, p, td, [PontoVirgula]);
    AtHead(toks, p + |td|, [PontoVirgula]);
  }

  /** One statement of a block and the `;` after it. */
  lemma {:induction false} ItemStep(b: A.Expr, i: nat, toks: seq<Simbolo>, p: nat)
    requires b.Block? && Printable(b) && i < |b.stmts|
    requires At(toks, p, DeclText(b.stmts[i]))
    requires p + |DeclText(b.stmts[i])| < |toks| && toks[p + |DeclText(b.stmts[i])|] == PontoVirgula
    ensures BlockItems(toks, p, b.stmts[..i]) == BlockItems(toks, p + |DeclText(b.stmts[i])| + 1, b.stmts[..i + 1])
    decreases b, 0, 0
  {
    hide BlockItems, ParseDeclaracao, DeclText, At;
    var d := b.stmts[i];
    AtHead(toks, p, DeclText(d));
    DeclRoundTrip(d, toks, p);
    BlockItemsStep(toks, p, b.stmts[..i], d, p + |DeclText(d)|);
    assert b.stmts[..i] + [d] == b.stmts[..i + 1];
  }

  lemma {:induction false} BlockRoundTrip(s: A.Expr, toks: seq<Simbolo>, p: nat)
    requires s.Block? && Printable(s) && At(toks, p, StmtText(s))
    ensures ParseBloco(toks, p) == Parsed(s, p + |StmtText(s)|)
    decreases s, 3, 0
  {
    hide BlockItems, ItemsText, At;
    var ti := ItemsText(s, 0);
    var q := p + |StmtText(s)|;
    assert StmtText(s) == [AbreChaves] + ti + [FechaChaves];
    AtSplit(toks, p, [AbreChaves] + ti, [FechaChaves]);
    AtSplit(toks, p, [AbreChaves], ti);
    AtHead(toks, p, [AbreChaves]);
    AtHead(toks, q - 1, [FechaChaves]);
    ItemsRoundTrip(s, 0, toks, p + 1);
    assert s.stmts[..0] == [];
  }

  // Statements

  lemma {:induction false} VarRoundTrip(s: A.Expr, toks: seq<Simbolo>, p: nat)
    requires s.VarDef? && Printable(s) && At(toks, p, StmtText(s))
    requires Stops(8, toks, p + |StmtText(s)|)
    ensures ParseDeclaracaoVariavel(toks, p) == Parsed(s, p + |StmtText(s)|)
    decreases s, 3, 0
  {
    hide ParseDeclaracaoVariavel, ParseAtribuicao, ParseLevel, ExprText, At;
    var tv := ExprText(s.value, 8);
    var head := [Var, Identificador(s.name), Igual];
    assert StmtText(s) == head + tv;
    AtSplit(toks, p, head, tv);
    AtEach(toks, p, head);
    assert head[0] == Var && head[1] == Identificador(s.name) && head[2] == Igual;
    ExprDone(s.value, 8, toks, p + 3);
    LevelTop(toks, p + 3);
    VarStep(toks, p, s.name, s.value, p + |StmtText(s)|);
  }

  /** A condition in parentheses after `while` or `if`: the parser reads the
      condition and finds the `)`. */
  lemma {:induction false} Condition(s: A.Expr, kw: Simbolo, toks: seq<Simbolo>, p: nat)
    requires (s.While? || s.If?) && Printable(s)
    requires At(toks, p, [kw, AbreParenteses] + ExprText(s.cond, 8) + [FechaParenteses])
    ensures toks[p] == kw && toks[p + 1] == AbreParenteses
    ensures toks[p + 2 + |ExprText(s.cond, 8)|] == FechaParenteses
    ensures ParseAtribuicao(toks, p + 2) == Parsed(s.cond, p + 2 + |ExprText(s.cond, 8)|)
    decreases s, 0, 0
  {
    hide ParseAtribuicao, ParseLevel, ExprText, At;
    var head := [kw, AbreParenteses];
    var tc := ExprText(s.cond, 8);
    var qc := p + 2 + |tc|;
    AtSplit(toks, p, head + tc, [FechaParenteses]);
    AtSplit(toks, p, head, tc);
    AtEach(toks, p, head);
    assert head[0] == kw && head[1] == AbreParenteses;
    AtHead(toks, qc, [FechaParenteses]);
    ExprDone(s.cond, 8, toks, p + 2);
    LevelTop(toks, p + 2);
  }

  lemma {:induction false} WhileRoundTrip(s: A.Expr, toks: seq<Simbolo>, p: nat)
    requires s.While? && Printable(s) && At(toks, p, StmtText(s))
    requires Stops(8, toks, p + |StmtText(s)|)
    ensures ParseWhile(toks, p) == Parsed(s, p + |StmtText(s)|)
    decreases s, 3, 0
  {
    hide ParseWhile, StmtText, ExprText, DeclText, At;
    SplitWhile(s, toks, p);
    WhileParse(s, toks, p);
  }

  lemma SplitWhile(s: A.Expr, toks: seq<Simbolo>, p: nat)
    requires s.While? && Printable(s) && At(toks, p, StmtText(s))
    ensures At(toks, p, [While, AbreParenteses] + ExprText(s.cond, 8) + [FechaParenteses])
    ensures At(toks, p + 3 + |ExprText(s.cond, 8)|, DeclText(s.body))
    ensures |StmtText(s)| == 3 + |ExprText(s.cond, 8)| + |DeclText(s.body)|
  {
    hide DeclText, ExprText, At;
    var hc := [While, AbreParenteses] + ExprText(s.cond, 8) + [FechaParenteses];
    assert StmtText(s) == hc + DeclText(s.body);
    AtSplit(toks, p, hc, DeclText(s.body));
  }

  lemma {:induction false} WhileParse(s: A.Expr, toks: seq<Simbolo>, p: nat)
    requires s.While? && Printable(s)
    requires At(toks, p, [While, AbreParenteses] + ExprText(s.cond, 8) + [FechaParenteses])
    requires At(toks, p + 3 + |ExprText(s.cond, 8)|, DeclText(s.body))
    requires Stops(8, toks, p + 3 + |ExprText(s.cond, 8)| + |DeclText(s.body)|)
    ensures ParseWhile(toks, p) == Parsed(s, p + 3 + |ExprText(s.cond, 8)| + |DeclText(s.body)|)
    decreases s, 2, 0
  {
    hide ParseWhile, ParseAtribuicao, ParseDeclaracao, ExprText, DeclText, At;
    var qc := p + 2 + |ExprText(s.cond, 8)|;
    Condition(s, While, toks, p);
    DeclRoundTrip(s.body, toks, qc + 1);
    WhileStep(toks, p, s.cond, qc, s.body, qc + 1 + |DeclText(s.body)|);
  }

  lemma {:induction false} IfRoundTrip(s: A.Expr, toks: seq<Simbolo>, p: nat)
    requires s.If? && Printable(s) && At(toks, p, StmtText(s))
    requires Closes(s, toks, p + |StmtText(s)|)
    ensures ParseIf(toks, p) == Parsed(s, p + |StmtText(s)|)
    decreases s, 3, 0
  {
    hide ParseIf, StmtText, IfHeadText, DeclText, At;
    SplitIf(s, toks, p);
    if s.elseBranch.Some? {
      IfElseParse(s, toks, p);
    } else {
      IfThenParse(s, toks, p);
    }
  }

  /** The printed `if` up to the end of its first branch. */
  function IfHeadText(s: A.Expr): seq<Simbolo>
    requires s.If?
  {
    [If, AbreParenteses] + ExprText(s.cond, 8) + [FechaParenteses] + DeclText(s.thenBranch)
  }

  lemma IfText(s: A.Expr)
    requires s.If?
    ensures StmtText(s) == IfHeadText(s) + (if s.elseBranch.Some? then [Else] + DeclText(s.elseBranch.value) else [])
  {
  }

  lemma SplitIf(s: A.Expr, toks: seq<Simbolo>, p: nat)
    requires s.If? && Printable(s) && At(toks, p, StmtText(s))
    ensures At(toks, p, IfHeadText(s))
    ensures s.elseBranch.None? ==> |StmtText(s)| == |IfHeadText(s)|
    ensures s.elseBranch.Some? ==>
      && p + |IfHeadText(s)| < |toks| && toks[p + |IfHeadText(s)|] == Else
      && At(toks, p + |IfHeadText(s)| + 1, DeclText(s.elseBranch.value))
      && |StmtText(s)| == |IfHeadText(s)| + 1 + |DeclText(s.elseBranch.value)|
  {
    hide StmtText, IfHeadText, DeclText, ExprText, At;
    var te := if s.elseBranch.Some? then [Else] + DeclText(s.elseBranch.value) else [];
    IfText(s);
    AtSplit(toks, p, IfHeadText(s), te);
    if s.elseBranch.Some? {
      AtSplit(toks, p + |IfHeadText(s)|, [Else], DeclText(s.elseBranch.value));
      AtHead(toks, p + |IfHeadText(s)|, [Else]);
    }
  }

  lemma {:induction false} IfThenParse(s: A.Expr, toks: seq<Simbolo>, p: nat)
    requires s.If? && s.elseBranch.None? && Printable(s)
    requires At(toks, p, IfHeadText(s))
    requires Stops(8, toks, p + |IfHeadText(s)|)
    requires p + |IfHeadText(s)| < |toks| ==> toks[p + |IfHeadText(s)|] != Else
    ensures ParseIf(toks, p) == Parsed(s, p + |IfHeadText(s)|)
    decreases s, 2, 0
  {
    hide ParseIf, ParseAtribuicao, ParseDeclaracao, IfHeadText, ExprText, DeclText, At;
    var qc := p + 2 + |ExprText(s.cond, 8)|;
    IfHead(s, toks, p);
    IfStep(toks, p, s.cond, qc, s.thenBranch, qc + 1 + |DeclText(s.thenBranch)|);
  }

  lemma {:induction false} IfElseParse(s: A.Expr, toks: seq<Simbolo>, p: nat)
    requires s.If? && s.elseBranch.Some? && Printable(s)
    requires At(toks, p, IfHeadText(s))
    requires p + |IfHeadText(s)| < |toks| && toks[p + |IfHeadText(s)|] == Else
    requires At(toks, p + |IfHeadText(s)| + 1, DeclText(s.elseBranch.value))
    requires Stops(8, toks, p + |IfHeadText(s)| + 1 + |DeclText(s.elseBranch.value)|)
    ensures ParseIf(toks, p) == Parsed(s, p + |IfHeadText(s)| + 1 + |DeclText(s.elseBranch.value)|)
    decreases s, 2, 0
  {
    hide ParseIf, ParseAtribuicao, ParseDeclaracao, IfHeadText, ExprText, DeclText, At;
    var qc := p + 2 + |ExprText(s.cond, 8)|;
    IfHead(s, toks, p);
    DeclRoundTrip(s.elseBranch.value, toks, p + |IfHeadText(s)| + 1);
    IfStep(toks, p, s.cond, qc, s.thenBranch, qc + 1 + |DeclText(s.thenBranch)|);
  }

  /** The condition and first branch of a printed `if`. */
  lemma {:induction false} IfHead(s: A.Expr, toks: seq<Simbolo>, p: nat)
    requires s.If? && Printable(s)
    requires At(toks, p, IfHeadText(s))
    requires Stops(8, toks, p + |IfHeadText(s)|)
    ensures |IfHeadText(s)| == 3 + |ExprText(s.cond, 8)| + |DeclText(s.thenBranch)|
    ensures var qc := p + 2 + |ExprText(s.cond, 8)|;
      && toks[p] == If && toks[p + 1] == AbreParenteses
      && ParseAtribuicao(toks, p + 2) == Parsed(s.cond, qc)
      && toks[qc] == FechaParenteses
      && ParseDeclaracao(toks, qc + 1) == Parsed(s.thenBranch, qc + 1 + |DeclText(s.thenBranch)|)
    decreases s, 1, 0
  {
    hide ParseAtribuicao, ParseDeclaracao, ExprText, DeclText;
    var tc := ExprText(s.cond, 8);
    var tt := DeclText(s.thenBranch);
    var hc := [If, AbreParenteses] + tc + [FechaParenteses];
    assert IfHeadText(s) == hc + tt;
    AtSplit(toks, p, hc, tt);
    Condition(s, If, toks, p);
    DeclRoundTrip(s.thenBranch, toks, p + 3 + |tc|);
  }

  /** The first printed token tells the statements apart. */
  lemma StmtHead(s: A.Expr)
    requires Printable(s)
    ensures s.Block? ==> StmtText(s)[0] == AbreChaves
    ensures s.VarDef? ==> StmtText(s)[0] == Var
    ensures s.If? ==> StmtText(s)[0] == If
    ensures s.While? ==> StmtText(s)[0] == While
    ensures !IsStatement(s) ==> StartsExpr(StmtText(s)[0])
  {
  }

  /** `analisar_expressao` reads a printed statement back as itself and
      leaves the cursor right after it. */
  lemma {:induction false} StmtRoundTrip(s: A.Expr, toks: seq<Simbolo>, p: nat)
    requires Printable(s) && At(toks, p, StmtText(s))
    requires Closes(s, toks, p + |StmtText(s)|)
    ensures ParseExpressao(toks, p) == Parsed(s, p + |StmtText(s)|)
    decreases s, 4, 0
  {
    hide ParseBloco, ParseIf, ParseWhile, ParseDeclaracaoVariavel, ParseAtribuicao, ParseLevel, StmtText, At;
    AtHead(toks, p, StmtText(s));
    StmtHead(s);
    if s.Block? {
      BlockRoundTrip(s, toks, p);
    } else if s.VarDef? {
      VarRoundTrip(s, toks, p);
    } else if s.If? {
      IfRoundTrip(s, toks, p);
    } else if s.While? {
      WhileRoundTrip(s, toks, p);
    } else {
      BareRoundTrip(s, toks, p);
    }
  }

  /** A statement that is an expression is read by the assignment level. */
  lemma {:induction false} BareRoundTrip(s: A.Expr, toks: seq<Simbolo>, p: nat)
    requires Printable(s) && !IsStatement(s) && At(toks, p, StmtText(s))
    requires Stops(8, toks, p + |StmtText(s)|)
    ensures StmtText(s) == ExprText(s, 8)
    ensures ParseAtribuicao(toks, p) == Parsed(s, p + |StmtText(s)|)
    decreases s, 3, 1
  {
    hide ParseLevel, Finish, Tail, At;
    assert StmtText(s) == ExprText(s, 8);
    AtBound(toks, p, StmtText(s));
    ExprRoundTrip(s, 8, toks, p);
    Halt(Level(s), 8, toks, s, p + |StmtText(s)|);
    LevelTop(toks, p);
  }

  /** `analisar_declaracao` reads a statement printed for it back as itself. */
  lemma {:induction false} DeclRoundTrip(s: A.Expr, toks: seq<Simbolo>, p: nat)
    requires Printable(s) && At(toks, p, DeclText(s))
    requires Stops(8, toks, p + |DeclText(s)|)
    ensures ParseDeclaracao(toks, p) == Parsed(s, p + |DeclText(s)|)
    decreases s, 7, 0
  {
    hide ParseBloco, ParseDeclaracaoVariavel, ParseAtribuicao, ParseLevel, StmtText, ExprText, At;
    AtHead(toks, p, DeclText(s));
    StmtHead(s);
    if s.Block? {
      BlockRoundTrip(s, toks, p);
    } else if s.VarDef? {
      VarRoundTrip(s, toks, p);
    } else {
      ExprDone(s, 8, toks, p);
      LevelTop(toks, p);
    }
  }

  // ---------------------------------------------------------------------
  // Whole statements
  // ---------------------------------------------------------------------

  /** `analisar_expressao` reads a printed statement at the start of the
      tokens and leaves whatever follows unread, provided the next token
      continues no expression and is no `else` a bare `if` could take. */
  lemma StmtThenRest(s: A.Expr, rest: seq<Simbolo>)
    requires Printable(s)
    requires rest == [] || (OpLevel(rest[0]) == 0 && !(s.If? && s.elseBranch.None? && rest[0] == Else))
    ensures ParseExpressao(StmtText(s) + rest, 0) == Parsed(s, |StmtText(s)|)
  {
    var toks := StmtText(s) + rest;
    assert toks[0..|StmtText(s)|] == StmtText(s);
    if rest != [] {
      assert toks[|StmtText(s)|] == rest[0];
    }
    StmtRoundTrip(s, toks, 0);
  }

  /** A line of tokens made of a printed statement and the end marker parses
      back as that statement. */
  lemma LineRoundTrip(s: A.Expr)
    requires Printable(s)
    ensures ParseLine(StmtText(s) + [Fim]) == Some(s)
  {
    StmtThenRest(s, [Fim]);
  }
}
