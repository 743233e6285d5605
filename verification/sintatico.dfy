/** The recursive-descent parser of src/analisador_sintatico.rs. The Rust
    `Analisador` mutates a cursor over a token vector; here every production is
    a pure function from a token sequence and a cursor position to a result
    that carries the cursor position afterwards. A failure carries the position
    too, because the call-argument rule resumes from wherever a failed first
    argument left the cursor. */
module Sintatico {
  import opened Wrappers
  import opened Lexico
  import A = Arvore

  /** Result of a production started at some cursor position: the value and the
      position after it, or the position where the cursor stopped on failure. */
  datatype Parse<T> = Parsed(value: T, next: nat) | Failed(at: nat)

  /** A successful production consumed at least one token; either way the
      cursor stayed within the token sequence and never moved back. */
  predicate Progress<T>(r: Parse<T>, p: nat, n: nat) {
    match r
    case Parsed(_, q) => p < q <= n
    case Failed(q) => p <= q <= n
  }

  /** The cursor never moved back and stayed within the token sequence. */
  predicate Within<T>(r: Parse<T>, p: nat, n: nat) {
    match r
    case Parsed(_, q) => p <= q <= n
    case Failed(q) => p <= q <= n
  }

  // ---------------------------------------------------------------------
  // Cursor primitives: `ver`, `avancar`, `consumir`
  // ---------------------------------------------------------------------

  /** `ver`: the token under the cursor, if any. */
  function Ver(toks: seq<Simbolo>, p: nat): (r: Option<Simbolo>)
    ensures r.Some? <==> p < |toks|
    ensures r.Some? ==> r.value == toks[p]
  {
    if p < |toks| then Some(toks[p]) else None
  }

  /** `avancar`: one step forward, or no move at all at the end. */
  function Avancar(toks: seq<Simbolo>, p: nat): (q: nat)
    requires p <= |toks|
    ensures q <= |toks|
    ensures p < |toks| ==> q == p + 1
    ensures p == |toks| ==> q == p
  {
    if p < |toks| then p + 1 else p
  }

  /** `consumir`: steps over the expected token and reports whether it was there;
      on a mismatch the cursor does not move. */
  function Consumir(toks: seq<Simbolo>, p: nat, esperado: Simbolo): (r: (bool, nat))
    requires p <= |toks|
    ensures r.0 <==> p < |toks| && toks[p] == esperado
    ensures r.0 ==> r.1 == p + 1
    ensures !r.0 ==> r.1 == p
  {
    if Ver(toks, p) == Some(esperado) then (true, Avancar(toks, p)) else (false, p)
  }

  // ---------------------------------------------------------------------
  // The precedence ladder
  // ---------------------------------------------------------------------

  /** The grammar level at which a token continues an expression already parsed:
      1 call `(`, 2 attribute `.`, 3 `* /`, 4 `+ -`, 5 comparisons, 6 `and`,
      7 `or`, 8 assignment `=`; 0 for tokens that continue nothing. */
  function OpLevel(t: Simbolo): nat {
    match t
    case AbreParenteses => 1
    case Ponto => 2
    case Multiplicacao => 3
    case Divisao => 3
    case Soma => 4
    case Subtracao => 4
    case Maior => 5
    case MaiorIgual => 5
    case Menor => 5
    case MenorIgual => 5
    case IgualIgual => 5
    case Diferente => 5
    case And => 6
    case Or => 7
    case Igual => 8
    case _ => 0
  }

  /** The tree a binary operator token builds from its two operands. */
  function Combine(op: Simbolo, a: A.Expr, b: A.Expr): A.Expr
    requires 3 <= OpLevel(op) <= 7
  {
    match op
    case Multiplicacao => A.Multiplicacao(a, b)
    case Divisao => A.Divisao(a, b)
    case Soma => A.Soma(a, b)
    case Subtracao => A.Subtracao(a, b)
    case Maior => A.Maior(a, b)
    case MaiorIgual => A.MaiorIgual(a, b)
    case Menor => A.Menor(a, b)
    case MenorIgual => A.MenorIgual(a, b)
    case IgualIgual => A.IgualIgual(a, b)
    case Diferente => A.Diferente(a, b)
    case And => A.And(a, b)
    case Or => A.Or(a, b)
  }

  // ---------------------------------------------------------------------
  // Statements
  // ---------------------------------------------------------------------

  /** `analisar_expressao`: a block, `if`, `while` or `var` by their first
      token, otherwise an assignment expression. Tokens after the statement are
      left unread. */
  function ParseExpressao(toks: seq<Simbolo>, p: nat): (r: Parse<A.Expr>)
    requires p <= |toks|
    ensures Progress(r, p, |toks|)
    decreases |toks| - p, 20
  {
    match Ver(toks, p)
    case Some(AbreChaves) => ParseBloco(toks, p)
    case Some(If) => ParseIf(toks, p)
    case Some(While) => ParseWhile(toks, p)
    case Some(Var) => ParseDeclaracaoVariavel(toks, p)
    case _ => ParseAtribuicao(toks, p)
  }

  /** `analisar_while`: `while ( condition ) declaration`. */
  function ParseWhile(toks: seq<Simbolo>, p: nat): (r: Parse<A.Expr>)
    requires p <= |toks|
    ensures Progress(r, p, |toks|)
    decreases |toks| - p, 19
  {
    var (ok1, p1) := Consumir(toks, p, While);
    if !ok1 then Failed(p1)
    else
      var (ok2, p2) := Consumir(toks, p1, AbreParenteses);
      if !ok2 then Failed(p2)
      else
        match ParseAtribuicao(toks, p2)
        case Failed(q) => Failed(q)
        case Parsed(c, p3) =>
          var (ok3, p4) := Consumir(toks, p3, FechaParenteses);
          if !ok3 then Failed(p4)
          else
            match ParseDeclaracao(toks, p4)
            case Failed(q) => Failed(q)
            case Parsed(body, p5) => Parsed(A.While(c, body), p5)
  }

  /** `analisar_if`: `if ( condition ) declaration [else declaration]`. */
  function ParseIf(toks: seq<Simbolo>, p: nat): (r: Parse<A.Expr>)
    requires p <= |toks|
    ensures Progress(r, p, |toks|)
    decreases |toks| - p, 19
  {
    var (ok1, p1) := Consumir(toks, p, If);
    if !ok1 then Failed(p1)
    else
      var (ok2, p2) := Consumir(toks, p1, AbreParenteses);
      if !ok2 then Failed(p2)
      else
        match ParseAtribuicao(toks, p2)
        case Failed(q) => Failed(q)
        case Parsed(c, p3) =>
          var (ok3, p4) := Consumir(toks, p3, FechaParenteses);
          if !ok3 then Failed(p4)
          else
            match ParseDeclaracao(toks, p4)
            case Failed(q) => Failed(q)
            case Parsed(t, p5) =>
              if Ver(toks, p5) == Some(Else) then
                match ParseDeclaracao(toks, Avancar(toks, p5))
                case Failed(q) => Failed(q)
                case Parsed(el, p6) => Parsed(A.If(c, t, Some(el)), p6)
              else
                Parsed(A.If(c, t, None), p5)
  }

  /** `analisar_bloco`: `{`, then declarations up to `}`. */
  function ParseBloco(toks: seq<Simbolo>, p: nat): (r: Parse<A.Expr>)
    requires p <= |toks|
    ensures Progress(r, p, |toks|)
    decreases |toks| - p, 1
  {
    var (ok, p1) := Consumir(toks, p, AbreChaves);
    if !ok then Failed(p1) else BlockItems(toks, p1, [])
  }

  /** The loop of `analisar_bloco`: `}` ends the block, `;` is skipped and never
      stored, anything else must be a declaration. Running out of tokens also
      ends the loop (a line's tokens always end in `Fim`, which is rejected as a
      declaration first). */
  function BlockItems(toks: seq<Simbolo>, p: nat, acc: seq<A.Expr>): (r: Parse<A.Expr>)
    requires p <= |toks|
    ensures Within(r, p, |toks|)
    decreases |toks| - p, 20
  {
    var t := Ver(toks, p);
    if t == None then Parsed(A.Block(acc), p)
    else if t == Some(FechaChaves) then Parsed(A.Block(acc), Avancar(toks, p))
    else if t == Some(PontoVirgula) then BlockItems(toks, Avancar(toks, p), acc)
    else
      match ParseDeclaracao(toks, p)
      case Failed(q) => Failed(q)
      case Parsed(s, q) => BlockItems(toks, q, acc + [s])
  }

  /** `analisar_declaracao`: `var`, a block, or an assignment expression; `if`
      and `while` are not accepted here. */
  function ParseDeclaracao(toks: seq<Simbolo>, p: nat): (r: Parse<A.Expr>)
    requires p <= |toks|
    ensures Progress(r, p, |toks|)
    decreases |toks| - p, 18
  {
    match Ver(toks, p)
    case Some(Var) => ParseDeclaracaoVariavel(toks, p)
    case Some(AbreChaves) => ParseBloco(toks, p)
    case _ => ParseAtribuicao(toks, p)
  }

  /** `analisar_declaracao_variavel`: `var name [= assignment]`; without an
      initializer the value is the literal 0. */
  function ParseDeclaracaoVariavel(toks: seq<Simbolo>, p: nat): (r: Parse<A.Expr>)
    requires p <= |toks|
    ensures Progress(r, p, |toks|)
    decreases |toks| - p, 1
  {
    var (ok, p1) := Consumir(toks, p, Var);
    if !ok then Failed(p1)
    else
      match Ver(toks, p1)
      case Some(Identificador(nome)) =>
        var p2 := Avancar(toks, p1);
        if Ver(toks, p2) == Some(Igual) then
          match ParseAtribuicao(toks, Avancar(toks, p2))
          case Failed(q) => Failed(q)
          case Parsed(v, q) => Parsed(A.VarDef(nome, v), q)
        else
          Parsed(A.VarDef(nome, A.Numero(0.0)), p2)
      case _ => Failed(p1)
  }

  // ---------------------------------------------------------------------
  // Expressions
  // ---------------------------------------------------------------------

  /** `analisar_atribuicao`: an `or`-level expression, then, on `=`, a
      right-associative assignment whose target must be a bare identifier. */
  function ParseAtribuicao(toks: seq<Simbolo>, p: nat): (r: Parse<A.Expr>)
    requires p <= |toks|
    ensures Progress(r, p, |toks|)
    decreases |toks| - p, 16
  {
    match ParseBinary(7, toks, p)
    case Failed(q) => Failed(q)
    case Parsed(x, q) => AssignTail(toks, x, q)
  }

  /** The part of `analisar_atribuicao` after the `or`-level expression `x`. */
  function AssignTail(toks: seq<Simbolo>, x: A.Expr, q: nat): (r: Parse<A.Expr>)
    requires q <= |toks|
    ensures Within(r, q, |toks|)
    decreases |toks| - q, 17
  {
    if Ver(toks, q) == Some(Igual) then
      if x.Identificador? then
        match ParseAtribuicao(toks, Avancar(toks, q))
        case Failed(q') => Failed(q')
        case Parsed(v, q') => Parsed(A.Assign(x.name, v), q')
      else
        Failed(Avancar(toks, q))
    else
      Parsed(x, q)
  }

  /** The production of grammar level `k`: 0 unary, 1 call, 2 attribute, 3 to 7
      the binary levels, 8 assignment. */
  function ParseLevel(k: nat, toks: seq<Simbolo>, p: nat): (r: Parse<A.Expr>)
    requires k <= 8 && p <= |toks|
    ensures Progress(r, p, |toks|)
    decreases |toks| - p, 2 * k + 1
  {
    if k == 0 then ParseUnario(toks, p)
    else if k == 1 then ParseChamada(toks, p)
    else if k == 2 then ParseAtributo(toks, p)
    else if k == 8 then ParseAtribuicao(toks, p)
    else ParseBinary(k, toks, p)
  }

  /** `analisar_or`, `analisar_and`, `analisar_comparacao`, `analisar_soma` and
      `analisar_produto` (levels 7 down to 3): one operand of the level below,
      then any number of `operator operand` pairs folded to the left. */
  function ParseBinary(k: nat, toks: seq<Simbolo>, p: nat): (r: Parse<A.Expr>)
    requires 3 <= k <= 7 && p <= |toks|
    ensures Progress(r, p, |toks|)
    decreases |toks| - p, 2 * k
  {
    match ParseLevel(k - 1, toks, p)
    case Failed(q) => Failed(q)
    case Parsed(x, q) => BinaryTail(k, toks, x, q)
  }

  /** The loop of a binary level with the tree built so far in `acc`. */
  function BinaryTail(k: nat, toks: seq<Simbolo>, acc: A.Expr, q: nat): (r: Parse<A.Expr>)
    requires 3 <= k <= 7 && q <= |toks|
    ensures Within(r, q, |toks|)
    decreases |toks| - q, 2 * k
  {
    match Ver(toks, q)
    case None => Parsed(acc, q)
    case Some(op) =>
      if OpLevel(op) == k then
        match ParseLevel(k - 1, toks, Avancar(toks, q))
        case Failed(r) => Failed(r)
        case Parsed(y, r) => BinaryTail(k, toks, Combine(op, acc, y), r)
      else
        Parsed(acc, q)
  }

  /** `analisar_atributo`: a call-level expression followed by any number of
      `.name` accesses, folded to the left. */
  function ParseAtributo(toks: seq<Simbolo>, p: nat): (r: Parse<A.Expr>)
    requires p <= |toks|
    ensures Progress(r, p, |toks|)
    decreases |toks| - p, 4
  {
    match ParseChamada(toks, p)
    case Failed(q) => Failed(q)
    case Parsed(x, q) => AttrTail(toks, x, q)
  }

  function AttrTail(toks: seq<Simbolo>, acc: A.Expr, q: nat): (r: Parse<A.Expr>)
    requires q <= |toks|
    ensures Within(r, q, |toks|)
    decreases |toks| - q, 4
  {
    if Ver(toks, q) == Some(Ponto) then
      var q1 := Avancar(toks, q);
      match Ver(toks, q1)
      case Some(Identificador(attr)) => AttrTail(toks, A.GetAttr(acc, attr), Avancar(toks, q1))
      case _ => Failed(q1)
    else
      Parsed(acc, q)
  }

  /** `analisar_chamada`: a unary expression followed by any number of argument
      lists `( ... )`, folded to the left. */
  function ParseChamada(toks: seq<Simbolo>, p: nat): (r: Parse<A.Expr>)
    requires p <= |toks|
    ensures Progress(r, p, |toks|)
    decreases |toks| - p, 2
  {
    match ParseUnario(toks, p)
    case Failed(q) => Failed(q)
    case Parsed(x, q) => CallTail(toks, x, q)
  }

  /** One round of the loop of `analisar_chamada`: an argument list in
      parentheses makes the expression so far the callee of a call. */
  function CallTail(toks: seq<Simbolo>, callee: A.Expr, q: nat): (r: Parse<A.Expr>)
    requires q <= |toks|
    ensures Within(r, q, |toks|)
    decreases |toks| - q, 2
  {
    if Ver(toks, q) == Some(AbreParenteses) then
      match CallArgs(toks, Avancar(toks, q))
      case Failed(q3) => Failed(q3)
      case Parsed(args, q3) =>
        var (ok, q4) := Consumir(toks, q3, FechaParenteses);
        if ok then CallTail(toks, A.Call(callee, args), q4) else Failed(q4)
    else
      Parsed(callee, q)
  }

  /** The arguments after `(`, up to but not including `)`. Unless `)` follows
      at once, a first argument is attempted: when it fails it is dropped and
      the scan goes on from wherever that attempt left the cursor. */
  function CallArgs(toks: seq<Simbolo>, q: nat): (r: Parse<seq<A.Expr>>)
    requires q <= |toks|
    ensures Within(r, q, |toks|)
    decreases |toks| - q, 21
  {
    if q < |toks| && toks[q] != FechaParenteses then
      match ParseExpressao(toks, q)
      case Parsed(a, q2) => ArgsTail(toks, [a], q2)
      case Failed(q2) => ArgsTail(toks, [], q2)
    else
      Parsed([], q)
  }

  /** The argument loop of `analisar_chamada`: `,` must be followed by an
      argument, `)` stops (without being consumed), any other token fails. */
  function ArgsTail(toks: seq<Simbolo>, args: seq<A.Expr>, q: nat): (r: Parse<seq<A.Expr>>)
    requires q <= |toks|
    ensures Within(r, q, |toks|)
    decreases |toks| - q, 2
  {
    match Ver(toks, q)
    case None => Parsed(args, q)
    case Some(Virgula) =>
      (match ParseExpressao(toks, Avancar(toks, q))
       case Failed(r) => Failed(r)
       case Parsed(a, r) => ArgsTail(toks, args + [a], r))
    case Some(FechaParenteses) => Parsed(args, q)
    case Some(_) => Failed(q)
  }

  /** `analisar_unario`: prefix `!` and `-` (right-associative), literals,
      identifiers and parenthesised statements. */
  function ParseUnario(toks: seq<Simbolo>, p: nat): (r: Parse<A.Expr>)
    requires p <= |toks|
    ensures Progress(r, p, |toks|)
    decreases |toks| - p, 0
  {
    match Ver(toks, p)
    case None => Failed(p)
    case Some(Negacao) =>
      (match ParseUnario(toks, Avancar(toks, p))
       case Failed(q) => Failed(q)
       case Parsed(x, q) => Parsed(A.Negacao(x), q))
    case Some(Subtracao) =>
      (match ParseUnario(toks, Avancar(toks, p))
       case Failed(q) => Failed(q)
       case Parsed(x, q) => Parsed(A.NegacaoAritmetica(x), q))
    case Some(Numero(n)) => Parsed(A.Numero(n), Avancar(toks, p))
    case Some(String(s)) => Parsed(A.String(s), Avancar(toks, p))
    case Some(Identificador(id)) => Parsed(A.Identificador(id), Avancar(toks, p))
    case Some(AbreParenteses) =>
      (match ParseExpressao(toks, Avancar(toks, p))
       case Failed(q) => Failed(q)
       case Parsed(x, q) =>
         var (ok, q') := Consumir(toks, q, FechaParenteses);
         if ok then Parsed(x, q') else Failed(q'))
    case Some(_) => Failed(p)
  }

  /** What the driver asks of the parser: one statement from the start of a
      line's tokens, or `None` on a syntax error. */
  function ParseLine(toks: seq<Simbolo>): (r: Option<A.Expr>)
    ensures r.Some? <==> ParseExpressao(toks, 0).Parsed?
  {
    match ParseExpressao(toks, 0)
    case Parsed(e, _) => Some(e)
    case Failed(_) => None
  }
}
