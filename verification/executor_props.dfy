/** Properties of the driver: how source text is cut into lines, how the
    per-line fold treats skipped and failing lines, and the end-to-end
    theorem that a program written one statement per line runs like the
    block of those statements. */
module ExecutorProps {
  import opened Wrappers
  import opened Lexico
  import opened LexicoProps
  import opened Sintatico
  import opened SintaticoProps
  import SintaticoFacts
  import A = Arvore
  import ArvoreProps
  import opened Executor

  // ---------------------------------------------------------------------
  // Lines
  // ---------------------------------------------------------------------

  /** Lines joined back, each followed by a newline. */
  function Unlines(ls: seq<string>): string {
    if ls == [] then [] else ls[0] + "\n" + Unlines(ls[1..])
  }

  /** A piece of text `Lines` can return unchanged: no newline inside and no
      carriage return at the end. */
  predicate IsLine(l: string) {
    && (forall j :: 0 <= j < |l| ==> l[j] != '\n')
    && (l == [] || l[|l| - 1] != '\r')
  }

  /** A line followed by a newline is the first line of the text. */
  lemma LinesCons(l: string, t: string)
    requires IsLine(l)
    ensures Lines(l + "\n" + t) == [l] + Lines(t)
  {
    var s := l + "\n" + t;
    assert s[|l|] == '\n';
    assert forall j :: 0 <= j < |l| ==> s[j] == l[j];
    assert LineEnd(s) == |l|;
    assert s[..|l|] == l && s[|l| + 1..] == t;
  }

  /** Splitting joined lines gives the lines back. */
  lemma {:induction false} LinesOfUnlines(ls: seq<string>)
    requires forall k :: 0 <= k < |ls| ==> IsLine(ls[k])
    ensures Lines(Unlines(ls)) == ls
  {
    if ls != [] {
      LinesCons(ls[0], Unlines(ls[1..]));
      LinesOfUnlines(ls[1..]);
    }
  }

  /** Joining the lines of a text that ends in a newline and holds no carriage
      return gives the text back. */
  lemma {:induction false} UnlinesOfLines(s: string)
    requires forall j :: 0 <= j < |s| ==> s[j] != '\r'
    requires s == [] || s[|s| - 1] == '\n'
    ensures Unlines(Lines(s)) == s
    decreases |s|
  {
    if s != [] {
      var i := LineEnd(s);
      assert s[..i] + "\n" + s[i + 1..] == s;
      UnlinesOfLines(s[i + 1..]);
    }
  }

  /** A final newline is optional: adding one changes no line, as long as the
      text does not end in a carriage return. */
  lemma {:induction false} FinalNewlineOptional(s: string)
    requires s != [] && s[|s| - 1] != '\n' && s[|s| - 1] != '\r'
    ensures Lines(s + "\n") == Lines(s)
    decreases |s|
  {
    var t := s + "\n";
    var i := LineEnd(s);
    assert forall j :: 0 <= j < |s| ==> t[j] == s[j];
    assert t[i] == '\n';
    assert LineEnd(t) == i;
    assert t[..i] == s[..i];
    if i == |s| {
      assert t[i + 1..] == [];
      assert Lines(t) == [DropCr(s)];
    } else {
      var rest := s[i + 1..];
      assert rest != [] && rest[|rest| - 1] == s[|s| - 1];
      assert t[i + 1..] == rest + "\n";
      FinalNewlineOptional(rest);
    }
  }

  /** A carriage return is dropped before a newline ... */
  lemma CarriageReturnBeforeNewline()
    ensures Lines("a\r\nb") == ["a", "b"]
  {
    var s := "a\r\nb";
    assert s[0] != '\n' && s[1] != '\n' && s[2] == '\n';
    assert LineEnd(s) == 2;
    assert s[..2] == "a\r" && s[3..] == "b";
    assert DropCr("a\r") == "a";
    assert Lines("b") == ["b"];
  }

  /** ... and kept at the end of an unterminated last line. */
  lemma CarriageReturnAtEnd()
    ensures Lines("a\r") == ["a\r"]
  {
    assert LineEnd("a\r") == 2;
  }

  // ---------------------------------------------------------------------
  // The fold
  // ---------------------------------------------------------------------

  /** Running `ls + ms` is running `ls` and then `ms` from where it stopped;
      an abort ends the run. */
  lemma {:induction false} RunLinesAppend(h: A.HostArith, st: Run, ls: seq<string>, ms: seq<string>, fuel: nat)
    ensures RunLines(h, st, ls + ms, fuel) ==
      match RunLines(h, st, ls, fuel)
      case Err(a) => Err(a)
      case Ok(st1) => RunLines(h, st1, ms, fuel)
    decreases |ls|
  {
    if ls == [] {
      assert ls + ms == ms;
    } else {
      assert (ls + ms)[0] == ls[0];
      assert (ls + ms)[1..] == ls[1..] + ms;
      match RunLine(h, st, ls[0], fuel)
      case Err(_) =>
      case Ok(st1) => RunLinesAppend(h, st1, ls[1..], ms, fuel);
    }
  }

  /** The state after a run is made by the last line that parsed: its value
      is the result, evaluated in the variables the lines before it left. */
  lemma LastParsedLine(h: A.HostArith, st: Run, pre: seq<string>, line: string, post: seq<string>, fuel: nat)
    requires RunLines(h, st, pre, fuel).Ok?
    requires !IsBlank(line) && Lex(line).Ok? && ParseLine(Lex(line).value).Some?
    requires forall k :: 0 <= k < |post| ==> Skipped(post[k])
    ensures var env := RunLines(h, st, pre, fuel).value.env;
      RunLines(h, st, pre + [line] + post, fuel) ==
        match A.Eval(h, ParseLine(Lex(line).value).value, env, fuel)
        case OutOfFuel => Err(Diverged)
        case Finished(v, env1) => Ok(Run(env1, v))
  {
    RunLinesAppend(h, st, pre + [line], post, fuel);
    RunLinesAppend(h, st, pre, [line], fuel);
    var st1 := RunLines(h, st, pre, fuel).value;
    assert [line][1..] == [];
    assert RunLines(h, st1, [line], fuel) == RunLine(h, st1, line, fuel);
  }

  /** A line the tokenizer rejects aborts the whole run, whatever follows. */
  lemma LexErrorAborts(h: A.HostArith, st: Run, pre: seq<string>, line: string, post: seq<string>, fuel: nat)
    requires RunLines(h, st, pre, fuel).Ok?
    requires !IsBlank(line) && Lex(line).Err?
    ensures RunLines(h, st, pre + [line] + post, fuel) == Err(LexAbort(Lex(line).error))
  {
    RunLinesAppend(h, st, pre + [line], post, fuel);
    RunLinesAppend(h, st, pre, [line], fuel);
  }

  /** Fuel only decides whether a line finishes: a line that does not run out
      of it gives the same result with more. */
  lemma RunLineMore(h: A.HostArith, st: Run, line: string, fuel: nat, more: nat)
    requires fuel <= more
    requires RunLine(h, st, line, fuel) != Err(Diverged)
    ensures RunLine(h, st, line, more) == RunLine(h, st, line, fuel)
  {
    if !IsBlank(line) && Lex(line).Ok? && ParseLine(Lex(line).value).Some? {
      ArvoreProps.EvalMore(h, ParseLine(Lex(line).value).value, st.env, fuel, more);
    }
  }

  /** Lines that do not run out of fuel give the same result with more. */
  lemma {:induction false} RunLinesMore(h: A.HostArith, st: Run, ls: seq<string>, fuel: nat, more: nat)
    requires fuel <= more
    requires RunLines(h, st, ls, fuel) != Err(Diverged)
    ensures RunLines(h, st, ls, more) == RunLines(h, st, ls, fuel)
    decreases |ls|
  {
    if ls != [] {
      RunLineMore(h, st, ls[0], fuel, more);
      if RunLine(h, st, ls[0], fuel).Ok? {
        RunLinesMore(h, RunLine(h, st, ls[0], fuel).value, ls[1..], fuel, more);
      }
    }
  }

  /** A run reported `Diverged` is the only one more fuel can change: any other
      outcome, a result or a tokenizer abort, stays the same with more fuel. */
  lemma ExecutarMore(h: A.HostArith, source: string, fuel: nat, more: nat)
    requires fuel <= more
    requires Executar(h, source, fuel) != Err(Diverged)
    ensures Executar(h, source, more) == Executar(h, source, fuel)
  {
    RunLinesMore(h, Run(map[], 0.0), Lines(source), fuel, more);
  }

  /** Variables set by earlier lines are visible to later ones: a line runs in
      the variables the lines before it left. */
  lemma BindingsCarryOver(h: A.HostArith, st: Run, first: string, second: string, fuel: nat)
    requires RunLine(h, st, first, fuel).Ok?
    ensures RunLines(h, st, [first, second], fuel) == RunLine(h, RunLine(h, st, first, fuel).value, second, fuel)
  {
    var st1 := RunLine(h, st, first, fuel).value;
    assert [first, second][1..] == [second];
    assert [second][1..] == [];
    match RunLine(h, st1, second, fuel)
    case Err(_) =>
    case Ok(_) =>
  }

  // ---------------------------------------------------------------------
  // Programs written one statement per line
  // ---------------------------------------------------------------------

  /** A statement the printer writes with tokens the tokenizer reads back. */
  predicate Writable(s: A.Expr) {
    Printable(s) && forall i :: 0 <= i < |StmtText(s)| ==> Renderable(StmtText(s)[i])
  }

  /** The source line of a statement. */
  function LineOf(s: A.Expr): (l: string)
    requires Writable(s)
  {
    RenderAll(StmtText(s))
  }

  /** The source text of statements, one per line. */
  function Program(ss: seq<A.Expr>): string
    requires forall k :: 0 <= k < |ss| ==> Writable(ss[k])
  {
    if ss == [] then [] else LineOf(ss[0]) + "\n" + Program(ss[1..])
  }

  /** The line of a writable statement is one line, not blank. */
  lemma LineOfShape(s: A.Expr)
    requires Writable(s)
    ensures IsLine(LineOf(s)) && !IsBlank(LineOf(s))
  {
    RenderAllShape(StmtText(s));
    assert !IsWhitespace(LineOf(s)[0]);
  }

  /** The line of a writable statement runs that statement. */
  lemma LineOfRuns(h: A.HostArith, st: Run, s: A.Expr, fuel: nat)
    requires Writable(s)
    ensures RunLine(h, st, LineOf(s), fuel) ==
      match A.Eval(h, s, st.env, fuel)
      case OutOfFuel => Err(Diverged)
      case Finished(v, env1) => Ok(Run(env1, v))
  {
    LineOfShape(s);
    LexRenderAll(StmtText(s));
    LineRoundTrip(s);
  }

  /** The text of a program splits into the lines of its statements. */
  lemma {:induction false} ProgramLines(ss: seq<A.Expr>)
    requires forall k :: 0 <= k < |ss| ==> Writable(ss[k])
    ensures |Lines(Program(ss))| == |ss|
    ensures forall k :: 0 <= k < |ss| ==> Lines(Program(ss))[k] == LineOf(ss[k])
  {
    if ss != [] {
      LineOfShape(ss[0]);
      LinesCons(LineOf(ss[0]), Program(ss[1..]));
      ProgramLines(ss[1..]);
    }
  }

  /** Running the lines of a program is evaluating its statements in order,
      each with the full fuel, in one environment. */
  lemma {:induction false} ProgramRuns(h: A.HostArith, ss: seq<A.Expr>, env: A.Env, fuel: nat, last: real)
    requires forall k :: 0 <= k < |ss| ==> Writable(ss[k])
    ensures RunLines(h, Run(env, last), Lines(Program(ss)), fuel) ==
      match A.EvalSeq(h, ss, env, fuel, last)
      case OutOfFuel => Err(Diverged)
      case Finished(v, env1) => Ok(Run(env1, v))
  {
    if ss != [] {
      LineOfShape(ss[0]);
      LinesCons(LineOf(ss[0]), Program(ss[1..]));
      LineOfRuns(h, Run(env, last), ss[0], fuel);
      match A.Eval(h, ss[0], env, fuel)
      case OutOfFuel =>
      case Finished(v, env1) => ProgramRuns(h, ss[1..], env1, fuel, v);
    }
  }

  /** `executar` on a program written one statement per line gives the value
      of the block of those statements, evaluated in an empty environment. */
  lemma ProgramIsBlock(h: A.HostArith, ss: seq<A.Expr>, fuel: nat)
    requires forall k :: 0 <= k < |ss| ==> Writable(ss[k])
    ensures Executar(h, Program(ss), fuel) ==
      match A.Eval(h, A.Block(ss), map[], fuel + 1)
      case OutOfFuel => Err(Diverged)
      case Finished(v, _) => Ok(v)
  {
    ProgramRuns(h, ss, map[], fuel, 0.0);
  }

  lemma Ten()
    ensures NatToString(10) == "10"
  {
    assert NatToString(1) == "1" && DigitChar(0) == '0';
  }

  lemma DeclareTokens()
    ensures Printable(A.VarDef("a", A.Numero(10.0)))
    ensures StmtText(A.VarDef("a", A.Numero(10.0))) == [Var, Identificador("a"), Igual, Numero(10.0)]
  {
    var d := A.VarDef("a", A.Numero(10.0));
    SintaticoFacts.VarText(d);
    SintaticoFacts.LiteralText(A.Numero(10.0), 8);
    assert !Unbuilt(A.Numero(10.0));
  }

  /** The tokens and the text of `var a = 10`. */
  lemma DeclareLine()
    ensures Writable(A.VarDef("a", A.Numero(10.0)))
    ensures LineOf(A.VarDef("a", A.Numero(10.0))) == "var a = 10 "
  {
    hide StmtText, NatToString;
    DeclareTokens();
    Ten();
    assert !IsKeyword("a") && IsIdentifierWord("a");
    var ts := [Var, Identificador("a"), Igual, Numero(10.0)];
    assert RenderAll(ts[3..]) == "10 " by {
      assert ts[3..][1..] == [];
    }
    assert RenderAll(ts[2..]) == "= 10 " by {
      assert ts[2..][1..] == ts[3..];
    }
    assert RenderAll(ts[1..]) == "a = 10 " by {
      assert ts[1..][1..] == ts[2..];
    }
  }

  /** The tokens and the text of `a`. */
  lemma ReadLine()
    ensures Writable(A.Identificador("a"))
    ensures LineOf(A.Identificador("a")) == "a "
  {
    var x := A.Identificador("a");
    SintaticoFacts.LiteralText(x, 8);
    SintaticoFacts.ExprStmtText(x);
    assert !IsKeyword("a") && IsIdentifierWord("a");
  }

  /** The text of a two-line program. */
  lemma TwoLines(s: A.Expr, t: A.Expr)
    requires Writable(s) && Writable(t)
    ensures Program([s, t]) == LineOf(s) + "\n" + LineOf(t) + "\n"
  {
    assert [s, t][1..] == [t] && [t][1..] == [];
    assert Program([t]) == LineOf(t) + "\n" + [];
    assert Program([s, t]) == LineOf(s) + "\n" + Program([t]);
  }

  lemma DeclareThenReadValue(h: A.HostArith)
    ensures A.Eval(h, A.Block([A.VarDef("a", A.Numero(10.0)), A.Identificador("a")]), map[], 4)
         == A.Finished(10.0, map["a" := 10.0])
  {
    var ss := [A.VarDef("a", A.Numero(10.0)), A.Identificador("a")];
    assert A.Eval(h, ss[0], map[], 3) == A.Finished(10.0, map["a" := 10.0]);
    assert A.EvalSeq(h, ss[1..], map["a" := 10.0], 3, 10.0) == A.Finished(10.0, map["a" := 10.0]);
  }

  /** A declaration on one line and a read of it on the next: the run gives
      the declared value, read back from the variables the first line left. */
  lemma DeclareThenRead(h: A.HostArith)
    ensures Executar(h, "var a = 10 \na \n", 3) == Ok(10.0)
  {
    hide *;
    var d := A.VarDef("a", A.Numero(10.0));
    var x := A.Identificador("a");
    DeclareLine();
    ReadLine();
    TwoLines(d, x);
    assert "var a = 10 " + "\n" + "a " + "\n" == "var a = 10 \na \n";
    ProgramIsBlock(h, [d, x], 3);
    DeclareThenReadValue(h);
  }
}
