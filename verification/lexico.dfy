/** The tokenizer of src/analisador_lexico.rs: the `Simbolo` vocabulary and
    `analisar`, which turns one line of text into tokens ending in `Fim`. */
module Lexico {
  import opened Wrappers

  /** One lexical unit. Numerals carry their exact decimal value. */
  datatype Simbolo =
    | Numero(n: real)
    | String(text: string)
    | Identificador(name: string)
    | Ponto
    | AbreParenteses
    | FechaParenteses
    | AbreChaves
    | FechaChaves
    | Virgula
    | PontoVirgula
    | Negacao
    | Soma
    | Subtracao
    | Multiplicacao
    | Divisao
    | And
    | Or
    | Igual
    | Maior
    | Menor
    | MaiorIgual
    | MenorIgual
    | IgualIgual
    | Diferente
    | Var
    | If
    | Else
    | While
    | Fim

  /** The two ways `analisar` aborts: `panic!` on a character it does not
      handle, and `unwrap` on a numeral that does not convert. */
  datatype LexError = CaractereInvalido(c: char) | NumeroMalformado(text: string)

  // ---------------------------------------------------------------------
  // Character classes (ASCII; Unicode `is_alphanumeric` is approximated)
  // ---------------------------------------------------------------------

  /** Characters skipped between tokens: space, newline and tab only. */
  predicate IsSkipped(c: char) {
    c == ' ' || c == '\n' || c == '\t'
  }

  /** Characters that start a word: an ASCII letter or `_`. */
  predicate IsWordStart(c: char) {
    ('a' <= c <= 'z') || ('A' <= c <= 'Z') || c == '_'
  }

  predicate IsDigit(c: char) {
    '0' <= c <= '9'
  }

  /** Characters that continue a word: letters, digits and `_`. */
  predicate IsWordChar(c: char) {
    IsWordStart(c) || IsDigit(c)
  }

  predicate IsDigitOrDot(c: char) {
    IsDigit(c) || c == '.'
  }

  /** Length of the longest prefix of `s` whose characters all satisfy `inRun`. */
  function RunLength(s: string, inRun: char -> bool): (n: nat)
    ensures n <= |s|
    ensures forall i :: 0 <= i < n ==> inRun(s[i])
    ensures n < |s| ==> !inRun(s[n])
  {
    if s == [] || !inRun(s[0]) then 0 else 1 + RunLength(s[1..], inRun)
  }

  // ---------------------------------------------------------------------
  // Words and keywords
  // ---------------------------------------------------------------------

  /** The six words the lexer reserves. */
  predicate IsKeyword(w: string) {
    w == "and" || w == "or" || w == "var" || w == "if" || w == "else" || w == "while"
  }

  /** Keyword lookup for a scanned word: a reserved word becomes its keyword
      token and any other word an identifier carrying exactly that text. */
  function Keyword(w: string): (t: Simbolo)
    ensures IsKeyword(w) <==> !t.Identificador?
    ensures t.Identificador? ==> t.name == w
    ensures t == And <==> w == "and"
    ensures t == Or <==> w == "or"
    ensures t == Var <==> w == "var"
    ensures t == If <==> w == "if"
    ensures t == Else <==> w == "else"
    ensures t == While <==> w == "while"
  {
    if w == "and" then And
    else if w == "or" then Or
    else if w == "var" then Var
    else if w == "if" then If
    else if w == "else" then Else
    else if w == "while" then While
    else Identificador(w)
  }

  // ---------------------------------------------------------------------
  // String literals
  // ---------------------------------------------------------------------

  /** The character an escape sequence `\c` stands for. */
  function Unescape(c: char): char {
    match c
    case '"' => '"'
    case '\\' => '\\'
    case 'n' => '\n'
    case 'r' => '\r'
    case 't' => '\t'
    case _ => c
  }

  /** Scans the body of a string literal, `s` being the text after the opening
      quote. Returns the value and the text after the closing quote; an
      unterminated literal ends at the end of the input. A backslash at the very
      end contributes nothing. */
  function ScanString(s: string): (r: (string, string))
    ensures |r.1| <= |s|
    ensures r.1 == s[|s| - |r.1|..]
    ensures r.1 != [] ==> |r.1| < |s| && s[|s| - |r.1| - 1] == '"'
  {
    if s == [] then ([], [])
    else if s[0] == '"' then ([], s[1..])
    else if s[0] == '\\' then
      if |s| == 1 then ([], [])
      else
        var inner := ScanString(s[2..]);
        ([Unescape(s[1])] + inner.0, inner.1)
    else
      var inner := ScanString(s[1..]);
      ([s[0]] + inner.0, inner.1)
  }

  // ---------------------------------------------------------------------
  // Numerals
  // ---------------------------------------------------------------------

  function DigitValue(c: char): nat
    requires IsDigit(c)
  {
    (c as int) - ('0' as int)
  }

  /** The natural number a digit string denotes (empty string: 0). */
  function DigitsValue(ds: string): nat
    requires forall i :: 0 <= i < |ds| ==> IsDigit(ds[i])
  {
    if ds == [] then 0 else DigitsValue(ds[..|ds| - 1]) * 10 + DigitValue(ds[|ds| - 1])
  }

  function Pow10(n: nat): (p: nat)
    ensures p >= 1
  {
    if n == 0 then 1 else 10 * Pow10(n - 1)
  }

  function CountDots(s: string): (n: nat)
    ensures n <= |s|
  {
    if s == [] then 0 else (if s[0] == '.' then 1 else 0) + CountDots(s[1..])
  }

  /** Conversion of a scanned numeral (digits with dots) to its value, as
      `str::parse::<f64>` does it up to rounding: more than one dot fails. */
  function NumeralValue(text: string): (r: Option<real>)
    requires forall i :: 0 <= i < |text| ==> IsDigitOrDot(text[i])
    ensures r.Some? <==> CountDots(text) <= 1
  {
    if CountDots(text) > 1 then None
    else
      var k := RunLength(text, IsDigit);
      var whole := text[..k];
      var fraction := if k < |text| then text[k + 1..] else [];
      assert forall i :: 0 <= i < |fraction| ==> IsDigit(fraction[i]) by {
        if k < |text| {
          assert IsDigitOrDot(text[k]) && !IsDigit(text[k]);
          DotFreeTail(text, k);
        }
      }
      Some(DigitsValue(whole) as real + DigitsValue(fraction) as real / Pow10(|fraction|) as real)
  }

  /** After the first non-digit of a numeral with at most one dot, only digits follow. */
  lemma DotFreeTail(text: string, k: nat)
    requires forall i :: 0 <= i < |text| ==> IsDigitOrDot(text[i])
    requires CountDots(text) <= 1
    requires k < |text| && text[k] == '.'
    requires forall i :: 0 <= i < k ==> IsDigit(text[i])
    ensures forall i :: k < i < |text| ==> IsDigit(text[i])
  {
    if k > 0 {
      DotFreeTail(text[1..], k - 1);
      assert forall i :: k < i < |text| ==> text[i] == text[1..][i - 1];
    } else {
      forall i | 0 < i < |text|
        ensures IsDigit(text[i])
      {
        if text[i] == '.' {
          DotsAtLeastTwo(text, i);
        }
      }
    }
  }

  lemma DotsAtLeastTwo(s: string, i: nat)
    requires 0 < i < |s| && s[0] == '.' && s[i] == '.'
    ensures CountDots(s) >= 2
  {
    DotCounted(s[1..], i - 1);
  }

  lemma DotCounted(s: string, i: nat)
    requires i < |s| && s[i] == '.'
    ensures CountDots(s) >= 1
  {
    if i > 0 {
      DotCounted(s[1..], i - 1);
    }
  }

  /** Number of characters the numeral starting `s` occupies. A leading `0`
      takes only `0` or `0.` and the digits after it; any other leading digit
      takes the maximal run of digits and dots. */
  function NumeralLength(s: string): (n: nat)
    requires s != [] && IsDigit(s[0])
    ensures 1 <= n <= |s|
    ensures forall i :: 0 <= i < n ==> IsDigitOrDot(s[i])
    ensures s[0] == '0' && (|s| == 1 || s[1] != '.') ==> n == 1
    ensures s[0] == '0' && |s| > 1 && s[1] == '.' ==>
              n >= 2 && (forall i :: 2 <= i < n ==> IsDigit(s[i])) && (n < |s| ==> !IsDigit(s[n]))
    ensures s[0] != '0' ==> n < |s| ==> !IsDigitOrDot(s[n])
  {
    if s[0] == '0' then
      if |s| > 1 && s[1] == '.' then 2 + RunLength(s[2..], IsDigit) else 1
    else
      RunLength(s, IsDigitOrDot)
  }

  // ---------------------------------------------------------------------
  // The scanner
  // ---------------------------------------------------------------------

  /** A character that decides a token of its own, before looking further. */
  function SingleCharToken(c: char): Option<Simbolo> {
    match c
    case '.' => Some(Ponto)
    case '+' => Some(Soma)
    case '-' => Some(Subtracao)
    case '*' => Some(Multiplicacao)
    case '/' => Some(Divisao)
    case '(' => Some(AbreParenteses)
    case ')' => Some(FechaParenteses)
    case '{' => Some(AbreChaves)
    case '}' => Some(FechaChaves)
    case ',' => Some(Virgula)
    case ';' => Some(PontoVirgula)
    case _ => None
  }

  /** `=`, `>`, `<`, `!`: the token each forms alone and followed by `=`. */
  predicate IsRelationalStart(c: char) {
    c == '=' || c == '>' || c == '<' || c == '!'
  }

  function AloneToken(c: char): Simbolo
    requires IsRelationalStart(c)
  {
    match c
    case '=' => Igual
    case '>' => Maior
    case '<' => Menor
    case '!' => Negacao
  }

  function WithEqualsToken(c: char): Simbolo
    requires IsRelationalStart(c)
  {
    match c
    case '=' => IgualIgual
    case '>' => MaiorIgual
    case '<' => MenorIgual
    case '!' => Diferente
  }

  /** A word: the maximal run of word characters, looked up as a keyword. */
  function ScanWord(s: string): (r: (Simbolo, string))
    requires s != [] && IsWordStart(s[0])
    ensures r.0 != Fim
    ensures |r.1| < |s| && r.1 == s[|s| - |r.1|..]
  {
    var n := RunLength(s, IsWordChar);
    (Keyword(s[..n]), s[n..])
  }

  /** A numeral, converted to its value; a numeral that does not convert
      aborts the line. */
  function ScanNumeral(s: string): (r: Result<(Simbolo, string), LexError>)
    requires s != [] && IsDigit(s[0])
    ensures r.Ok? ==> r.value.0.Numero?
    ensures r.Ok? ==> |r.value.1| < |s| && r.value.1 == s[|s| - |r.value.1|..]
  {
    var n := NumeralLength(s);
    match NumeralValue(s[..n])
    case Some(v) => Ok((Numero(v), s[n..]))
    case None => Err(NumeroMalformado(s[..n]))
  }

  /** Punctuation and operators; any character they do not cover aborts the line. */
  function ScanOperator(s: string): (r: Result<(Simbolo, string), LexError>)
    requires s != []
    ensures r.Ok? ==> r.value.0 != Fim
    ensures r.Ok? ==> |r.value.1| < |s| && r.value.1 == s[|s| - |r.value.1|..]
  {
    var c := s[0];
    if SingleCharToken(c).Some? then
      Ok((SingleCharToken(c).value, s[1..]))
    else if IsRelationalStart(c) then
      if |s| > 1 && s[1] == '=' then Ok((WithEqualsToken(c), s[2..]))
      else Ok((AloneToken(c), s[1..]))
    else
      Err(CaractereInvalido(c))
  }

  /** Scans the token at the start of `s` and returns it with the remaining text. */
  function ScanToken(s: string): (r: Result<(Simbolo, string), LexError>)
    requires s != [] && !IsSkipped(s[0])
    ensures r.Ok? ==> r.value.0 != Fim
    ensures r.Ok? ==> |r.value.1| < |s| && r.value.1 == s[|s| - |r.value.1|..]
  {
    var c := s[0];
    if c == '"' then
      var lit := ScanString(s[1..]);
      Ok((String(lit.0), lit.1))
    else if IsWordStart(c) then Ok(ScanWord(s))
    else if IsDigit(c) then ScanNumeral(s)
    else ScanOperator(s)
  }

  /** `analisar`: the token sequence of `s`, always ending in exactly one `Fim`;
      each token takes at least one character, so there are at most |s| + 1. */
  function Lex(s: string): (r: Result<seq<Simbolo>, LexError>)
    ensures r.Ok? ==> 1 <= |r.value| <= |s| + 1
    ensures r.Ok? ==> r.value[|r.value| - 1] == Fim
    ensures r.Ok? ==> forall i :: 0 <= i < |r.value| - 1 ==> r.value[i] != Fim
    decreases |s|
  {
    if s == [] then Ok([Fim])
    else if IsSkipped(s[0]) then Lex(s[1..])
    else
      match ScanToken(s)
      case Err(e) => Err(e)
      case Ok((t, rest)) => Prepend(t, Lex(rest))
  }

  /** Puts `t` in front of a successful token sequence. */
  function Prepend(t: Simbolo, r: Result<seq<Simbolo>, LexError>): (r': Result<seq<Simbolo>, LexError>)
    ensures r'.Ok? <==> r.Ok?
    ensures r.Err? ==> r' == r
    ensures r.Ok? ==> r'.value == [t] + r.value
  {
    match r
    case Ok(ts) => Ok([t] + ts)
    case Err(e) => Err(e)
  }
}
