/** The driver `executar` of src/lib.rs: the source is cut into lines, and
    every line that is not blank is tokenized, parsed and evaluated in one
    environment shared by the whole run. */
module Executor {
  import opened Wrappers
  import opened Lexico
  import opened Sintatico
  import A = Arvore

  // ---------------------------------------------------------------------
  // Lines
  // ---------------------------------------------------------------------

  /** `char::is_whitespace`: the characters of the Unicode White_Space property. */
  predicate IsWhitespace(c: char) {
    var n := c as int;
    || (9 <= n <= 13) || n == 32 || n == 0x85 || n == 0xA0 || n == 0x1680
    || (0x2000 <= n <= 0x200A) || n == 0x2028 || n == 0x2029 || n == 0x202F
    || n == 0x205F || n == 0x3000
  }

  /** `line.trim().is_empty()`: the line holds whitespace only. */
  predicate IsBlank(line: string) {
    forall i :: 0 <= i < |line| ==> IsWhitespace(line[i])
  }

  /** Position of the first newline of `s`, or `|s|` when there is none. */
  function LineEnd(s: string): (i: nat)
    ensures i <= |s|
    ensures forall j :: 0 <= j < i ==> s[j] != '\n'
    ensures i < |s| ==> s[i] == '\n'
  {
    if s == [] || s[0] == '\n' then 0 else 1 + LineEnd(s[1..])
  }

  /** A line that ended in a newline also loses one carriage return before it. */
  function DropCr(line: string): (r: string)
    ensures r == line || line == r + ['\r']
    ensures r != line <==> line != [] && line[|line| - 1] == '\r'
  {
    if line != [] && line[|line| - 1] == '\r' then line[..|line| - 1] else line
  }

  /** `str::lines`: pieces between newlines; a terminated piece drops one
      trailing carriage return, and no empty piece follows a final newline. */
  function Lines(s: string): (ls: seq<string>)
    ensures forall k, j :: 0 <= k < |ls| && 0 <= j < |ls[k]| ==> ls[k][j] != '\n'
    ensures |ls| <= |s|
    decreases |s|
  {
    if s == [] then []
    else
      var i := LineEnd(s);
      if i == |s| then [s]
      else [DropCr(s[..i])] + Lines(s[i + 1..])
  }

  // ---------------------------------------------------------------------
  // The per-line fold
  // ---------------------------------------------------------------------

  /** The state threaded from line to line: the variables and the value of
      the last line that was evaluated. */
  datatype Run = Run(env: A.Env, result: real)

  /** Why a run stops early: `analisar` panics on a character it does not
      handle (or a numeral it cannot convert), and a line whose evaluation
      does not finish within the fuel, as a loop that never ends never does. */
  datatype Abort = LexAbort(error: LexError) | Diverged

  /** A line that leaves the state alone: blank, or tokenized but not parsed. */
  predicate Skipped(line: string) {
    IsBlank(line) || (Lex(line).Ok? && ParseLine(Lex(line).value).None?)
  }

  /** One turn of the loop body of `executar`. */
  function RunLine(h: A.HostArith, st: Run, line: string, fuel: nat): (r: Result<Run, Abort>)
    ensures Skipped(line) ==> r == Ok(st)
    ensures r.Err? ==> !IsBlank(line)
    ensures r == Err(Diverged) ==> Lex(line).Ok? && ParseLine(Lex(line).value).Some?
    ensures r.Ok? && !IsBlank(line) && Lex(line).Ok? && ParseLine(Lex(line).value).Some? ==>
      A.Frame(st.env, r.value.env, A.Assigned(ParseLine(Lex(line).value).value))
  {
    if IsBlank(line) then Ok(st)
    else
      match Lex(line)
      case Err(e) => Err(LexAbort(e))
      case Ok(toks) =>
        match ParseLine(toks)
        case None => Ok(st)
        case Some(ast) =>
          match A.Eval(h, ast, st.env, fuel)
          case OutOfFuel => Err(Diverged)
          case Finished(v, env1) => Ok(Run(env1, v))
  }

  /** The lines of a run, in order, stopping at the first abort. */
  function RunLines(h: A.HostArith, st: Run, ls: seq<string>, fuel: nat): (r: Result<Run, Abort>)
    ensures r.Ok? ==> st.env.Keys <= r.value.env.Keys
    ensures (forall k :: 0 <= k < |ls| ==> Skipped(ls[k])) ==> r == Ok(st)
    decreases |ls|
  {
    if ls == [] then Ok(st)
    else
      match RunLine(h, st, ls[0], fuel)
      case Err(a) => Err(a)
      case Ok(st1) => RunLines(h, st1, ls[1..], fuel)
  }

  /** `executar`: every run starts with no variables and result 0, so two
      runs share nothing. Each line is evaluated with the same fuel. */
  function Executar(h: A.HostArith, source: string, fuel: nat): (r: Result<real, Abort>)
    ensures (forall k :: 0 <= k < |Lines(source)| ==> Skipped(Lines(source)[k])) ==> r == Ok(0.0)
  {
    match RunLines(h, Run(map[], 0.0), Lines(source), fuel)
    case Ok(st) => Ok(st.result)
    case Err(a) => Err(a)
  }
}
