/** Individual rules of the parser of src/analisador_sintatico.rs: what each
    production rejects, the defaults it fills in, the quirks of its loops, and
    the shapes it gives to concrete lines. */
module SintaticoFacts {
  import opened Wrappers
  import opened Lexico
  import opened Sintatico
  import opened SintaticoProps
  import A = Arvore

  // ---------------------------------------------------------------------
  // Tokens no expression starts with
  // ---------------------------------------------------------------------

  /** The loops of the levels above a failed one pass the failure on. */
  lemma {:induction false} FinishFailed(j: nat, k: nat, toks: seq<Simbolo>, q: nat)
    requires j <= k <= 8 && q <= |toks|
    ensures Finish(j, k, toks, Failed(q)) == Failed(q)
    decreases k - j
  {
    if j < k {
      assert Step(j + 1, toks, Failed(q)) == Failed(q);
      FinishFailed(j + 1, k, toks, q);
    }
  }

  /** At a token that cannot open an expression (or at the end), every level
      of the ladder fails without moving the cursor. */
  lemma NonStarterFails(k: nat, toks: seq<Simbolo>, p: nat)
    requires k <= 8 && p <= |toks|
    requires p == |toks| || !StartsExpr(toks[p])
    ensures ParseLevel(k, toks, p) == Failed(p)
  {
    assert ParseLevel(0, toks, p) == Failed(p);
    Unfold(0, k, toks, p);
    FinishFailed(0, k, toks, p);
  }

  /** `analisar_declaracao` accepts no bare `if` or `while`, nor any other
      token that opens no statement. */
  lemma DeclarationRejects(toks: seq<Simbolo>, p: nat)
    requires p <= |toks|
    requires p == |toks| || (!StartsExpr(toks[p]) && toks[p] != Var && toks[p] != AbreChaves)
    ensures ParseDeclaracao(toks, p) == Failed(p)
  {
    NonStarterFails(8, toks, p);
  }

  /** `if` and `while` are accepted by `analisar_expressao` but not as the
      branch or body of another `if` or `while`. */
  lemma NestedIfRejected(toks: seq<Simbolo>, p: nat)
    requires p < |toks| && (toks[p] == If || toks[p] == While)
    ensures ParseDeclaracao(toks, p) == Failed(p)
  {
    DeclarationRejects(toks, p);
  }

  /** A block still open when the line's `Fim` arrives fails there. */
  lemma UnclosedBlock(toks: seq<Simbolo>, p: nat, acc: seq<A.Expr>)
    requires p < |toks| && toks[p] == Fim
    ensures BlockItems(toks, p, acc) == Failed(p)
  {
    DeclarationRejects(toks, p);
  }

  /** `;` inside a block is skipped and stores nothing. */
  lemma SemicolonSkipped(toks: seq<Simbolo>, p: nat, acc: seq<A.Expr>)
    requires p < |toks| && toks[p] == PontoVirgula
    ensures BlockItems(toks, p, acc) == BlockItems(toks, p + 1, acc)
  {
  }

  // ---------------------------------------------------------------------
  // Assignment and `var`
  // ---------------------------------------------------------------------

  /** `=` after anything but a bare identifier fails right after the `=`. */
  lemma AssignToNonName(toks: seq<Simbolo>, p: nat, x: A.Expr, q: nat)
    requires p <= |toks| && ParseBinary(7, toks, p) == Parsed(x, q)
    requires !x.Identificador? && q < |toks| && toks[q] == Igual
    ensures ParseAtribuicao(toks, p) == Failed(q + 1)
  {
  }

  /** `var x` with no `=` after the name declares `x` as 0. */
  lemma VarWithoutInitializer(toks: seq<Simbolo>, p: nat, x: string)
    requires p + 1 < |toks| && toks[p] == Var && toks[p + 1] == Identificador(x)
    requires p + 2 == |toks| || toks[p + 2] != Igual
    ensures ParseDeclaracaoVariavel(toks, p) == Parsed(A.VarDef(x, A.Numero(0.0)), p + 2)
  {
  }

  /** `var` must be followed by a name. */
  lemma VarWithoutName(toks: seq<Simbolo>, p: nat)
    requires p < |toks| && toks[p] == Var
    requires p + 1 == |toks| || !toks[p + 1].Identificador?
    ensures ParseDeclaracaoVariavel(toks, p) == Failed(p + 1)
  {
  }

  // ---------------------------------------------------------------------
  // Call arguments
  // ---------------------------------------------------------------------

  /** A first argument that fails is dropped, and the argument list goes on
      from wherever the failed attempt stopped. */
  lemma FailedFirstArgument(toks: seq<Simbolo>, q: nat, r: nat)
    requires q < |toks| && toks[q] != FechaParenteses
    requires ParseExpressao(toks, q) == Failed(r)
    ensures CallArgs(toks, q) == ArgsTail(toks, [], r)
  {
  }

  /** After an argument, a token other than `,` and `)` fails the list. */
  lemma ArgumentMisfollowed(toks: seq<Simbolo>, args: seq<A.Expr>, q: nat)
    requires q < |toks| && toks[q] != Virgula && toks[q] != FechaParenteses
    ensures ArgsTail(toks, args, q) == Failed(q)
  {
  }

  // ---------------------------------------------------------------------
  // Printed text of small trees
  // ---------------------------------------------------------------------

  lemma LiteralText(e: A.Expr, k: nat)
    requires e.Numero? || e.Identificador?
    ensures ExprText(e, k) == [if e.Numero? then Numero(e.n) else Identificador(e.name)]
  {
  }

  lemma BinaryTextAt(e: A.Expr, k: nat)
    requires IsBinary(e) && Level(e) <= k
    ensures ExprText(e, k) == ExprText(e.l, Level(e)) + [OpToken(e)] + ExprText(e.r, Level(e) - 1)
  {
    RawBinary(e);
  }

  lemma AssignText(e: A.Expr)
    requires e.Assign?
    ensures ExprText(e, 8) == [Identificador(e.name), Igual] + ExprText(e.value, 8)
  {
  }

  lemma CallText(c: A.Expr)
    requires c.Call?
    ensures ExprText(c, 8) == ExprText(c.callee, 1) + [AbreParenteses] + ArgsText(c, 0) + [FechaParenteses]
  {
  }

  lemma ArgsTextStep(c: A.Expr, i: nat)
    requires c.Call?
    ensures ArgsText(c, i) == if i >= |c.args| then []
      else (if i == 0 then [] else [Virgula]) + StmtText(c.args[i]) + ArgsText(c, i + 1)
  {
  }

  lemma BlockText(b: A.Expr)
    requires b.Block?
    ensures StmtText(b) == [AbreChaves] + ItemsText(b, 0) + [FechaChaves]
  {
  }

  lemma ItemsTextStep(b: A.Expr, i: nat)
    requires b.Block?
    ensures ItemsText(b, i) == if i >= |b.stmts| then [] else DeclText(b.stmts[i]) + [PontoVirgula] + ItemsText(b, i + 1)
  {
  }

  lemma VarText(s: A.Expr)
    requires s.VarDef?
    ensures DeclText(s) == [Var, Identificador(s.name), Igual] + ExprText(s.value, 8)
  {
  }

  lemma CallPrintable(c: A.Expr)
    requires c.Call? && c.callee.Identificador?
    requires forall i :: 0 <= i < |c.args| ==> !Unbuilt(c.args[i])
    ensures Printable(c)
  {
    assert !Unbuilt(c.callee);
  }

  lemma ExprStmtText(e: A.Expr)
    requires Printable(e) && !IsStatement(e)
    ensures StmtText(e) == ExprText(e, 8)
  {
  }

  // ---------------------------------------------------------------------
  // Concrete lines
  // ---------------------------------------------------------------------

  /** `10 / 2 - 1`: `/` binds tighter than `-`. */
  lemma PrecedenceExample()
    ensures ParseLine([Numero(10.0), Divisao, Numero(2.0), Subtracao, Numero(1.0), Fim])
         == Some(A.Subtracao(A.Divisao(A.Numero(10.0), A.Numero(2.0)), A.Numero(1.0)))
  {
    hide ExprText, StmtText, ParseLine;
    var d := A.Divisao(A.Numero(10.0), A.Numero(2.0));
    var e := A.Subtracao(d, A.Numero(1.0));
    LiteralText(A.Numero(10.0), 3);
    LiteralText(A.Numero(2.0), 2);
    LiteralText(A.Numero(1.0), 3);
    BinaryTextAt(d, 4);
    BinaryTextAt(e, 8);
    ExprStmtText(e);
    LineRoundTrip(e);
    assert StmtText(e) + [Fim] == [Numero(10.0), Divisao, Numero(2.0), Subtracao, Numero(1.0), Fim];
  }

  /** `x - y - z` groups to the left. */
  lemma LeftAssociative(x: real, y: real, z: real)
    ensures ParseLine([Numero(x), Subtracao, Numero(y), Subtracao, Numero(z), Fim])
         == Some(A.Subtracao(A.Subtracao(A.Numero(x), A.Numero(y)), A.Numero(z)))
  {
    hide ExprText, StmtText, ParseLine;
    var d := A.Subtracao(A.Numero(x), A.Numero(y));
    var e := A.Subtracao(d, A.Numero(z));
    LiteralText(A.Numero(x), 4);
    LiteralText(A.Numero(y), 3);
    LiteralText(A.Numero(z), 3);
    BinaryTextAt(d, 4);
    BinaryTextAt(e, 8);
    assert !Unbuilt(A.Numero(x)) && !Unbuilt(A.Numero(y));
    assert Printable(d);
    ExprStmtText(e);
    LineRoundTrip(e);
    assert StmtText(e) + [Fim] == [Numero(x), Subtracao, Numero(y), Subtracao, Numero(z), Fim];
  }

  /** `a = b = v` groups to the right. */
  lemma RightAssociative(a: string, b: string, v: real)
    ensures ParseLine([Identificador(a), Igual, Identificador(b), Igual, Numero(v), Fim])
         == Some(A.Assign(a, A.Assign(b, A.Numero(v))))
  {
    hide ExprText, StmtText, ParseLine;
    var d := A.Assign(b, A.Numero(v));
    var e := A.Assign(a, d);
    LiteralText(A.Numero(v), 8);
    AssignText(d);
    AssignText(e);
    assert !Unbuilt(A.Numero(v));
    assert Printable(d);
    ExprStmtText(e);
    LineRoundTrip(e);
    assert StmtText(e) + [Fim] == [Identificador(a), Igual, Identificador(b), Igual, Numero(v), Fim];
  }

  /** `{ var a = 1; } a`: the statement ends at `}` and `a` is never read. */
  lemma TrailingTokensIgnored()
    ensures ParseLine([AbreChaves, Var, Identificador("a"), Igual, Numero(1.0), PontoVirgula, FechaChaves,
                       Identificador("a"), Fim])
         == Some(A.Block([A.VarDef("a", A.Numero(1.0))]))
  {
    hide ExprText, StmtText, DeclText, ItemsText;
    var d := A.VarDef("a", A.Numero(1.0));
    var e := A.Block([d]);
    LiteralText(A.Numero(1.0), 8);
    VarText(d);
    ItemsTextStep(e, 0);
    ItemsTextStep(e, 1);
    BlockText(e);
    assert !Unbuilt(d);
    assert forall i :: 0 <= i < |e.stmts| ==> !Unbuilt(e.stmts[i]);
    assert Printable(e);
    StmtThenRest(e, [Identificador("a"), Fim]);
    assert StmtText(e) + [Identificador("a"), Fim]
        == [AbreChaves, Var, Identificador("a"), Igual, Numero(1.0), PontoVirgula, FechaChaves, Identificador("a"), Fim];
  }

  /** `f(x, y)` keeps its arguments in order. */
  lemma CallArgumentsInOrder(f: string, x: real, y: real)
    ensures ParseLine([Identificador(f), AbreParenteses, Numero(x), Virgula, Numero(y), FechaParenteses, Fim])
         == Some(A.Call(A.Identificador(f), [A.Numero(x), A.Numero(y)]))
  {
    hide ExprText, StmtText, ArgsText, ParseLine;
    var e := A.Call(A.Identificador(f), [A.Numero(x), A.Numero(y)]);
    LiteralText(A.Identificador(f), 1);
    LiteralText(A.Numero(x), 8);
    LiteralText(A.Numero(y), 8);
    assert !Unbuilt(A.Numero(x)) && !Unbuilt(A.Numero(y));
    ExprStmtText(A.Numero(x));
    ExprStmtText(A.Numero(y));
    ArgsTextStep(e, 0);
    ArgsTextStep(e, 1);
    ArgsTextStep(e, 2);
    CallText(e);
    forall i | 0 <= i < |e.args|
      ensures !Unbuilt(e.args[i])
    {
      assert i == 0 || i == 1;
    }
    CallPrintable(e);
    ExprStmtText(e);
    LineRoundTrip(e);
    assert StmtText(e) + [Fim] == [Identificador(f), AbreParenteses, Numero(x), Virgula, Numero(y), FechaParenteses, Fim];
  }

  /** `f()` is a call with no arguments. */
  lemma EmptyCall(f: string)
    ensures ParseLine([Identificador(f), AbreParenteses, FechaParenteses, Fim])
         == Some(A.Call(A.Identificador(f), []))
  {
    hide ExprText, StmtText, ArgsText, ParseLine;
    var e := A.Call(A.Identificador(f), []);
    LiteralText(A.Identificador(f), 1);
    ArgsTextStep(e, 0);
    CallText(e);
    CallPrintable(e);
    ExprStmtText(e);
    LineRoundTrip(e);
    assert StmtText(e) + [Fim] == [Identificador(f), AbreParenteses, FechaParenteses, Fim];
  }
}
