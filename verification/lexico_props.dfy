/** Properties of the tokenizer of src/analisador_lexico.rs: the token-level
    rules one at a time, and a renderer from tokens back to text that the
    tokenizer inverts. */
module LexicoProps {
  import opened Wrappers
  import opened Lexico

  // ---------------------------------------------------------------------
  // Scanning helpers
  // ---------------------------------------------------------------------

  /** A run stops exactly at the first character outside it. */
  lemma {:induction false} RunLengthOf(run: string, rest: string, inRun: char -> bool)
    requires forall i :: 0 <= i < |run| ==> inRun(run[i])
    requires rest == [] || !inRun(rest[0])
    ensures RunLength(run + rest, inRun) == |run|
  {
    if run != [] {
      assert (run + rest)[1..] == run[1..] + rest;
      RunLengthOf(run[1..], rest, inRun);
    } else {
      assert run + rest == rest;
    }
  }

  /** One scanned token in front of the rest of the line. */
  lemma LexToken(s: string, t: Simbolo, rest: string)
    requires s != [] && !IsSkipped(s[0])
    requires ScanToken(s) == Ok((t, rest))
    ensures Lex(s) == Prepend(t, Lex(rest))
  {
  }

  lemma ScanSingle(c: char, rest: string)
    requires SingleCharToken(c).Some?
    ensures ScanToken([c] + rest) == Ok((SingleCharToken(c).value, rest))
  {
    hide ScanString, ScanWord, ScanNumeral;
    assert ([c] + rest)[1..] == rest;
  }

  lemma ScanAlone(c: char, rest: string)
    requires IsRelationalStart(c)
    requires rest == [] || rest[0] != '='
    ensures ScanToken([c] + rest) == Ok((AloneToken(c), rest))
  {
    assert ([c] + rest)[1..] == rest;
  }

  lemma ScanWithEquals(c: char, rest: string)
    requires IsRelationalStart(c)
    ensures ScanToken([c, '='] + rest) == Ok((WithEqualsToken(c), rest))
  {
    assert ([c, '='] + rest)[2..] == rest;
  }

  lemma ScanWordOf(w: string, rest: string)
    requires |w| > 0 && IsWordStart(w[0])
    requires forall i :: 0 <= i < |w| ==> IsWordChar(w[i])
    requires rest == [] || !IsWordChar(rest[0])
    ensures ScanToken(w + rest) == Ok((Keyword(w), rest))
  {
    var s := w + rest;
    RunLengthOf(w, rest, IsWordChar);
    assert s[..|w|] == w && s[|w|..] == rest;
  }

  // ---------------------------------------------------------------------
  // The rules one at a time
  // ---------------------------------------------------------------------

  /** Space, newline and tab produce no tokens: blank input is just `[Fim]`. */
  lemma {:induction false} LexBlank(s: string)
    requires forall i :: 0 <= i < |s| ==> IsSkipped(s[i])
    ensures Lex(s) == Ok([Fim])
  {
    if s != [] {
      LexBlank(s[1..]);
    }
  }

  /** Skipped characters in front of the text change nothing. */
  lemma LexSkipsLeading(c: char, s: string)
    requires IsSkipped(c)
    ensures Lex([c] + s) == Lex(s)
  {
    assert ([c] + s)[1..] == s;
  }

  /** `=`, `>`, `<`, `!` directly followed by `=` form one two-character token. */
  lemma LexWithEquals(c: char, rest: string)
    requires IsRelationalStart(c)
    ensures Lex([c, '='] + rest) == Prepend(WithEqualsToken(c), Lex(rest))
  {
    ScanWithEquals(c, rest);
    LexToken([c, '='] + rest, WithEqualsToken(c), rest);
  }

  /** Not followed by `=`, each of them is a one-character token. */
  lemma LexAlone(c: char, rest: string)
    requires IsRelationalStart(c)
    requires rest == [] || rest[0] != '='
    ensures Lex([c] + rest) == Prepend(AloneToken(c), Lex(rest))
  {
    ScanAlone(c, rest);
    LexToken([c] + rest, AloneToken(c), rest);
  }

  /** A maximal word is looked up as a keyword; any other word, `true`,
      `false` and `print` included, is an identifier with exactly that text. */
  lemma LexWord(w: string, rest: string)
    requires |w| > 0 && IsWordStart(w[0])
    requires forall i :: 0 <= i < |w| ==> IsWordChar(w[i])
    requires rest == [] || !IsWordChar(rest[0])
    ensures Lex(w + rest) == Prepend(Keyword(w), Lex(rest))
    ensures !IsKeyword(w) ==> Lex(w + rest) == Prepend(Identificador(w), Lex(rest))
  {
    ScanWordOf(w, rest);
    LexToken(w + rest, Keyword(w), rest);
  }

  /** A reserved word standing alone. */
  lemma LexWhileExample()
    ensures Lex("while") == Ok([While, Fim])
  {
    var w := "while";
    LexWord(w, []);
    assert w + [] == w;
    assert Keyword(w) == While;
    assert Lex([]) == Ok([Fim]);
    assert [While] + [Fim] == [While, Fim];
  }

  /** `print` is not reserved: it lexes as an ordinary identifier. */
  lemma LexPrintExample()
    ensures Lex("print") == Ok([Identificador("print"), Fim])
  {
    var w := "print";
    LexWord(w, []);
    assert w + [] == w;
    assert Keyword(w) == Identificador(w);
    assert Lex([]) == Ok([Fim]);
    assert [Identificador(w)] + [Fim] == [Identificador(w), Fim];
  }

  /** A string literal with no closing quote runs to the end of the input
      without an error. */
  lemma {:induction false} ScanUnterminated(s: string)
    requires forall i :: 0 <= i < |s| ==> s[i] != '"'
    ensures ScanString(s).1 == []
  {
    if s != [] && s[0] == '\\' && |s| > 1 {
      ScanUnterminated(s[2..]);
    } else if s != [] && s[0] != '\\' {
      ScanUnterminated(s[1..]);
    }
  }

  lemma {:induction false} LexUnterminatedString(s: string)
    requires forall i :: 0 <= i < |s| ==> s[i] != '"'
    ensures Lex(['"'] + s) == Ok([String(ScanString(s).0), Fim])
  {
    hide Lex, ScanString;
    ScanUnterminated(s);
    ScanQuote(s);
    LexToken(['"'] + s, String(ScanString(s).0), []);
    LexEmpty();
    assert [String(ScanString(s).0)] + [Fim] == [String(ScanString(s).0), Fim];
  }

  /** A quote starts a string literal. */
  lemma ScanQuote(s: string)
    ensures ScanToken(['"'] + s) == Ok((String(ScanString(s).0), ScanString(s).1))
  {
    hide ScanString, ScanWord, ScanNumeral, ScanOperator;
    assert (['"'] + s)[1..] == s;
  }

  /** A numeral starting with `0` ends right after it unless a `.` follows, so
      `0` followed by digits is two numerals. */
  lemma LexLeadingZero(rest: string)
    requires rest == [] || rest[0] != '.'
    ensures Lex(['0'] + rest) == Prepend(Numero(0.0), Lex(rest))
  {
    ScanLeadingZero(rest);
    LexToken(['0'] + rest, Numero(0.0), rest);
  }

  lemma ScanLeadingZero(rest: string)
    requires rest == [] || rest[0] != '.'
    ensures ScanToken(['0'] + rest) == Ok((Numero(0.0), rest))
  {
    var s := ['0'] + rest;
    assert NumeralLength(s) == 1;
    assert s[..1] == "0" && s[1..] == rest;
    assert NumeralValue("0") == Some(0.0);
  }

  lemma Twelve()
    ensures NatToString(12) == "12"
  {
    assert NatToString(1) == ['1'];
    assert DigitChar(2) == '2';
  }

  /** An empty line is the end marker alone. */
  lemma LexEmpty()
    ensures Lex([]) == Ok([Fim])
  {
  }

  lemma LexLeadingZeroExample()
    ensures Lex("012") == Ok([Numero(0.0), Numero(12.0), Fim])
  {
    hide Lex, ScanToken;
    var twelve := "12";
    LexLeadingZero(twelve);
    assert ['0'] + twelve == "012";
    Twelve();
    ScanNatural(12, []);
    assert twelve + [] == twelve;
    LexToken(twelve, Numero(12.0), []);
    LexEmpty();
    assert [Numero(0.0)] + ([Numero(12.0)] + [Fim]) == [Numero(0.0), Numero(12.0), Fim];
  }

  /** `0.` takes the digits right after it and stops at the first non-digit,
      dots included. */
  lemma {:induction false} ScanZeroPoint(ds: string, rest: string)
    requires forall i :: 0 <= i < |ds| ==> IsDigit(ds[i])
    requires rest == [] || !IsDigit(rest[0])
    ensures ScanToken("0." + ds + rest) == Ok((Numero(DigitsValue(ds) as real / Pow10(|ds|) as real), rest))
  {
    var s := "0." + ds + rest;
    assert s[2..] == ds + rest;
    RunLengthOf(ds, rest, IsDigit);
    assert NumeralLength(s) == 2 + |ds|;
    assert s[..2 + |ds|] == "0" + "." + ds && s[2 + |ds|..] == rest;
    NumeralFraction("0", ds);
    assert DigitsValue("0") == 0 by {
      assert "0"[..0] == [];
    }
  }

  /** A numeral starting with `0.` is the fraction its digits spell, and the
      text after those digits, even a further dot, starts new tokens. */
  lemma {:induction false} LexZeroPoint(ds: string, rest: string)
    requires forall i :: 0 <= i < |ds| ==> IsDigit(ds[i])
    requires rest == [] || !IsDigit(rest[0])
    ensures Lex("0." + ds + rest) == Prepend(Numero(DigitsValue(ds) as real / Pow10(|ds|) as real), Lex(rest))
  {
    hide Lex, ScanToken;
    ScanZeroPoint(ds, rest);
    LexToken("0." + ds + rest, Numero(DigitsValue(ds) as real / Pow10(|ds|) as real), rest);
  }

  lemma LexZeroPointExample()
    ensures Lex("0.5.3") == Ok([Numero(0.5), Ponto, Numero(3.0), Fim])
  {
    hide Lex, ScanToken;
    assert DigitsValue("5") == 5 by {
      assert "5"[..0] == [];
    }
    LexZeroPoint("5", ".3");
    assert "0." + "5" + ".3" == "0.5.3";
    ScanSingle('.', "3");
    assert ['.'] + "3" == ".3";
    LexToken(".3", Ponto, "3");
    assert NatToString(3) == "3";
    ScanNatural(3, []);
    assert "3" + [] == "3";
    LexToken("3", Numero(3.0), []);
    LexEmpty();
    assert [Numero(0.5)] + ([Ponto] + ([Numero(3.0)] + [Fim])) == [Numero(0.5), Ponto, Numero(3.0), Fim];
  }

  /** `0.` with no digits after it is the numeral 0. */
  lemma LexZeroPointAlone()
    ensures Lex("0.") == Ok([Numero(0.0), Fim])
  {
    hide Lex, ScanToken;
    LexZeroPoint([], []);
    assert "0." + [] + [] == "0.";
    LexEmpty();
    assert [Numero(0.0)] + [Fim] == [Numero(0.0), Fim];
  }

  /** A numeral of 1-9 followed by digits, a dot and digits converts to its
      whole part plus its fraction, and ends at the first character that is
      neither a digit nor a dot. */
  lemma {:induction false} ScanDecimal(ws: string, ds: string, rest: string)
    requires ws != [] && '1' <= ws[0] <= '9'
    requires forall i :: 0 <= i < |ws| ==> IsDigit(ws[i])
    requires forall i :: 0 <= i < |ds| ==> IsDigit(ds[i])
    requires rest == [] || !IsDigitOrDot(rest[0])
    ensures ScanToken(ws + "." + ds + rest)
         == Ok((Numero(DigitsValue(ws) as real + DigitsValue(ds) as real / Pow10(|ds|) as real), rest))
  {
    var n := ws + "." + ds;
    var s := n + rest;
    assert s[0] == ws[0];
    DecimalChars(ws, ds);
    RunLengthOf(n, rest, IsDigitOrDot);
    assert NumeralLength(s) == |n|;
    NumeralFraction(ws, ds);
    ScanDigitStart(s);
    hide ScanToken, NumeralLength, NumeralValue, RunLength, DigitsValue, Pow10;
    assert s[..|n|] == n && s[|n|..] == rest;
  }

  /** Every character of a numeral with one dot is a digit or a dot. */
  lemma DecimalChars(ws: string, ds: string)
    requires forall i :: 0 <= i < |ws| ==> IsDigit(ws[i])
    requires forall i :: 0 <= i < |ds| ==> IsDigit(ds[i])
    ensures forall i :: 0 <= i < |ws + "." + ds| ==> IsDigitOrDot((ws + "." + ds)[i])
  {
    var n := ws + "." + ds;
    forall i | 0 <= i < |n|
      ensures IsDigitOrDot(n[i])
    {
      if i < |ws| {
        assert n[i] == ws[i];
      } else if i > |ws| {
        assert n[i] == ds[i - |ws| - 1];
      }
    }
  }

  /** A token that starts with a digit is a numeral. */
  lemma ScanDigitStart(s: string)
    requires s != [] && IsDigit(s[0])
    ensures ScanToken(s) == ScanNumeral(s)
  {
    hide ScanString, ScanWord, ScanNumeral, ScanOperator;
  }

  /** `2.72` is one numeral with a fractional part. */
  lemma LexDecimalExample()
    ensures Lex("2.72") == Ok([Numero(2.72), Fim])
  {
    hide Lex, ScanToken;
    assert DigitsValue("2") == 2 by {
      assert "2"[..0] == [];
    }
    assert DigitsValue("72") == 72 by {
      assert "72"[..1] == "7" && "7"[..0] == [];
    }
    ScanDecimal("2", "72", []);
    assert "2" + "." + "72" + [] == "2.72";
    LexToken("2.72", Numero(2.72), []);
    LexEmpty();
    assert [Numero(2.72)] + [Fim] == [Numero(2.72), Fim];
  }

  /** Dots in a concatenation add up. */
  lemma {:induction false} CountDotsAppend(a: string, b: string)
    ensures CountDots(a + b) == CountDots(a) + CountDots(b)
  {
    if a == [] {
      assert a + b == b;
    } else {
      assert (a + b)[1..] == a[1..] + b;
      CountDotsAppend(a[1..], b);
    }
  }

  /** A numeral of digits alone converts to the number they spell. */
  lemma {:induction false} NumeralDigits(ws: string)
    requires forall i :: 0 <= i < |ws| ==> IsDigit(ws[i])
    ensures NumeralValue(ws) == Some(DigitsValue(ws) as real)
  {
    NoDots(ws);
    RunLengthOf(ws, [], IsDigit);
    assert ws + [] == ws;
    assert ws[..|ws|] == ws;
  }

  /** A numeral with one dot converts to the number its digits before the dot
      spell plus the digits after it divided by 10 to the number of them;
      with `NumeralDigits` this covers every numeral that converts. */
  lemma {:induction false} NumeralFraction(ws: string, ds: string)
    requires forall i :: 0 <= i < |ws| ==> IsDigit(ws[i])
    requires forall i :: 0 <= i < |ds| ==> IsDigit(ds[i])
    ensures NumeralValue(ws + "." + ds)
         == Some(DigitsValue(ws) as real + DigitsValue(ds) as real / Pow10(|ds|) as real)
  {
    var text := ws + "." + ds;
    NoDots(ws);
    NoDots(ds);
    assert text == ws + ("." + ds);
    assert CountDots("." + ds) == 1 + CountDots(ds) by {
      assert ("." + ds)[1..] == ds;
    }
    CountDotsAppend(ws, "." + ds);
    RunLengthOf(ws, "." + ds, IsDigit);
    assert text[..|ws|] == ws;
    assert text[|ws| + 1..] == ds;
  }

  /** A numeral starting with 1-9 takes every following digit and dot; with two
      or more dots it does not convert and the whole input is rejected. */
  lemma LexManyDots(s: string)
    requires s != [] && '1' <= s[0] <= '9'
    requires CountDots(s[..RunLength(s, IsDigitOrDot)]) >= 2
    ensures Lex(s) == Err(NumeroMalformado(s[..RunLength(s, IsDigitOrDot)]))
  {
    assert ScanNumeral(s) == Err(NumeroMalformado(s[..RunLength(s, IsDigitOrDot)]));
  }

  lemma LexManyDotsExample()
    ensures Lex("1.2.3").Err?
  {
    var s := "1.2.3";
    RunLengthOf(s, "", IsDigitOrDot);
    assert s + "" == s;
    assert s[..5] == s;
    assert CountDots(s) == 2 by {
      assert s[1..] == ".2.3" && s[1..][1..] == "2.3";
      assert "2.3"[1..] == ".3" && ".3"[1..] == "3" && "3"[1..] == "";
    }
    LexManyDots(s);
  }

  /** A character no rule handles (`%`, `#`, a carriage return, ...) at the
      start of a token rejects the whole input. */
  lemma LexInvalidChar(s: string)
    requires s != [] && !IsSkipped(s[0])
    requires s[0] != '"' && !IsWordStart(s[0]) && !IsDigit(s[0])
    requires SingleCharToken(s[0]).None? && !IsRelationalStart(s[0])
    ensures Lex(s) == Err(CaractereInvalido(s[0]))
  {
    assert ScanOperator(s) == Err(CaractereInvalido(s[0]));
  }

  /** `%` is no operator of the language: `1 % 2` is rejected as a whole. */
  lemma LexInvalidExample()
    ensures Lex("1 % 2") == Err(CaractereInvalido('%'))
  {
    ScanOneThenSpace();
    LexToken("1 % 2", Numero(1.0), " % 2");
    LexPercentAfterSpace();
  }

  lemma ScanOneThenSpace()
    ensures ScanToken("1 % 2") == Ok((Numero(1.0), " % 2"))
  {
    var tail := " % 2";
    assert NatToString(1) == "1";
    ScanNatural(1, tail);
    assert "1" + tail == "1 % 2";
  }

  lemma LexPercentAfterSpace()
    ensures Lex(" % 2") == Err(CaractereInvalido('%'))
  {
    hide Lex, ScanToken;
    var bad := "% 2";
    assert [' '] + bad == " % 2";
    LexSkipsLeading(' ', bad);
    LexInvalidChar(bad);
  }

  // ---------------------------------------------------------------------
  // Escaping: the inverse of string-literal scanning
  // ---------------------------------------------------------------------

  /** The text that stands for one character inside a literal. */
  function EscapeChar(c: char): (t: string)
    ensures 1 <= |t| <= 2
  {
    match c
    case '"' => "\\\""
    case '\\' => "\\\\"
    case '\n' => "\\n"
    case '\r' => "\\r"
    case '\t' => "\\t"
    case _ => [c]
  }

  /** The body of a literal whose value is `v`. */
  function Escape(v: string): string {
    if v == [] then [] else EscapeChar(v[0]) + Escape(v[1..])
  }

  lemma ScanEscapedChar(c: char, tail: string)
    ensures ScanString(EscapeChar(c) + tail) == ([c] + ScanString(tail).0, ScanString(tail).1)
  {
    var e := EscapeChar(c);
    var s := e + tail;
    if |e| == 2 {
      assert s[0] == '\\' && s[1] == e[1];
      assert s[2..] == tail;
      assert Unescape(e[1]) == c;
    } else {
      assert e == [c];
      assert s[0] == c && c != '"' && c != '\\';
      assert s[1..] == tail;
    }
  }

  /** Scanning the escaped body of `v` and a closing quote gives back `v` and
      leaves the text after the quote. */
  lemma {:induction false} ScanEscaped(v: string, rest: string)
    ensures ScanString(Escape(v) + ['"'] + rest) == (v, rest)
  {
    if v == [] {
      assert Escape(v) + ['"'] + rest == ['"'] + rest;
      assert (['"'] + rest)[1..] == rest;
    } else {
      var tail := Escape(v[1..]) + ['"'] + rest;
      ScanEscaped(v[1..], rest);
      assert Escape(v) + ['"'] + rest == EscapeChar(v[0]) + tail;
      ScanEscapedChar(v[0], tail);
      assert v == [v[0]] + v[1..];
    }
  }

  /** A backslash before any character other than `"`, `\`, `n`, `r`, `t`
      stands for that character itself. */
  lemma {:induction false} ScanOtherEscape(c: char, tail: string)
    requires c != '"' && c != '\\' && c != 'n' && c != 'r' && c != 't'
    ensures ScanString(['\\', c] + tail) == ([c] + ScanString(tail).0, ScanString(tail).1)
  {
    var s := ['\\', c] + tail;
    assert s[0] == '\\' && s[1] == c && s[2..] == tail;
  }

  /** A backslash at the very end of an unterminated literal adds nothing to
      its value. */
  lemma {:induction false} ScanTrailingBackslash(v: string)
    ensures ScanString(Escape(v) + ['\\']) == (v, [])
  {
    if v == [] {
      assert Escape(v) + ['\\'] == ['\\'];
    } else {
      var tail := Escape(v[1..]) + ['\\'];
      ScanTrailingBackslash(v[1..]);
      assert Escape(v) + ['\\'] == EscapeChar(v[0]) + tail;
      ScanEscapedChar(v[0], tail);
      assert v == [v[0]] + v[1..];
    }
  }

  /** A line ending in an unterminated literal whose last character is a
      backslash lexes as that literal without the backslash. */
  lemma {:induction false} LexTrailingBackslash(v: string)
    ensures Lex(['"'] + Escape(v) + ['\\']) == Ok([String(v), Fim])
  {
    hide Lex, ScanString;
    var body := Escape(v) + ['\\'];
    ScanTrailingBackslash(v);
    ScanQuote(body);
    assert ['"'] + Escape(v) + ['\\'] == ['"'] + body;
    LexToken(['"'] + body, String(v), []);
    LexEmpty();
    assert [String(v)] + [Fim] == [String(v), Fim];
  }

  /** An escaped body never holds a raw quote, newline or carriage return. */
  lemma {:induction false} EscapeHasNoBreaks(v: string)
    ensures forall i :: 0 <= i < |Escape(v)| ==> Escape(v)[i] != '\n' && Escape(v)[i] != '\r'
  {
    if v != [] {
      EscapeHasNoBreaks(v[1..]);
    }
  }

  // ---------------------------------------------------------------------
  // Decimal numerals
  // ---------------------------------------------------------------------

  function DigitChar(d: nat): (c: char)
    requires d < 10
    ensures IsDigit(c) && DigitValue(c) == d
  {
    ('0' as int + d) as char
  }

  /** Decimal notation of `n`, without leading zeros. */
  function NatToString(n: nat): (s: string)
    ensures |s| >= 1
    ensures forall i :: 0 <= i < |s| ==> IsDigit(s[i])
    ensures n > 0 ==> s[0] != '0'
  {
    if n < 10 then [DigitChar(n)] else NatToString(n / 10) + [DigitChar(n % 10)]
  }

  /** Reading the decimal notation of `n` gives back `n`. */
  lemma {:induction false} NatToStringValue(n: nat)
    ensures DigitsValue(NatToString(n)) == n
  {
    var s := NatToString(n);
    if n < 10 {
      assert s[..0] == [];
    } else {
      NatToStringValue(n / 10);
      assert s[..|s| - 1] == NatToString(n / 10);
    }
  }

  /** A numeral printed by `NatToString` and followed by a non-numeral
      character scans as that number. */
  lemma ScanNatural(n: nat, rest: string)
    requires rest == [] || !IsDigitOrDot(rest[0])
    ensures ScanToken(NatToString(n) + rest) == Ok((Numero(n as real), rest))
  {
    var ds := NatToString(n);
    var s := ds + rest;
    assert NumeralLength(s) == |ds| by {
      if n == 0 {
        assert ds == ['0'];
      } else {
        RunLengthOf(ds, rest, IsDigitOrDot);
      }
    }
    assert s[..|ds|] == ds && s[|ds|..] == rest;
    NatToStringNumeral(n);
    assert ScanNumeral(s) == Ok((Numero(n as real), rest));
  }

  /** The decimal notation of `n` converts back to `n`. */
  lemma NatToStringNumeral(n: nat)
    ensures NumeralValue(NatToString(n)) == Some(n as real)
  {
    var ds := NatToString(n);
    NoDots(ds);
    RunLengthOf(ds, [], IsDigit);
    assert ds + [] == ds;
    assert ds[..|ds|] == ds;
    NatToStringValue(n);
  }

  lemma {:induction false} NoDots(ds: string)
    requires forall i :: 0 <= i < |ds| ==> IsDigit(ds[i])
    ensures CountDots(ds) == 0
  {
    if ds != [] {
      NoDots(ds[1..]);
    }
  }

  // ---------------------------------------------------------------------
  // Rendering tokens back to text
  // ---------------------------------------------------------------------

  /** A word the tokenizer reads back as an identifier. */
  predicate IsIdentifierWord(w: string) {
    && |w| > 0
    && IsWordStart(w[0])
    && (forall i :: 0 <= i < |w| ==> IsWordChar(w[i]))
    && !IsKeyword(w)
  }

  /** Tokens with a textual form the tokenizer reads back: numbers must be
      naturals and identifiers proper words; `Fim` has no text. */
  predicate Renderable(t: Simbolo) {
    match t
    case Numero(v) => v >= 0.0 && v.Floor as real == v
    case Identificador(w) => IsIdentifierWord(w)
    case Fim => false
    case _ => true
  }

  /** The source text of one token. */
  function Render(t: Simbolo): (s: string)
    requires Renderable(t)
    ensures s != [] && !IsSkipped(s[0])
    ensures '!' <= s[0] <= '~'
  {
    match t
    case Numero(v) => NatToString(v.Floor)
    case String(v) => ['"'] + Escape(v) + ['"']
    case Identificador(w) => w
    case Ponto => "."
    case AbreParenteses => "("
    case FechaParenteses => ")"
    case AbreChaves => "{"
    case FechaChaves => "}"
    case Virgula => ","
    case PontoVirgula => ";"
    case Negacao => "!"
    case Soma => "+"
    case Subtracao => "-"
    case Multiplicacao => "*"
    case Divisao => "/"
    case And => "and"
    case Or => "or"
    case Igual => "="
    case Maior => ">"
    case Menor => "<"
    case MaiorIgual => ">="
    case MenorIgual => "<="
    case IgualIgual => "=="
    case Diferente => "!="
    case Var => "var"
    case If => "if"
    case Else => "else"
    case While => "while"
  }

  /** The source text of a token sequence, one space after each token. */
  function RenderAll(ts: seq<Simbolo>): string
    requires forall i :: 0 <= i < |ts| ==> Renderable(ts[i])
  {
    if ts == [] then [] else Render(ts[0]) + " " + RenderAll(ts[1..])
  }

  /** No token's text holds a line break or a carriage return. */
  lemma RenderHasNoBreaks(t: Simbolo)
    requires Renderable(t)
    ensures forall i :: 0 <= i < |Render(t)| ==> Render(t)[i] != '\n' && Render(t)[i] != '\r'
  {
    match t
    case String(v) =>
      EscapeHasNoBreaks(v);
      assert forall i :: 0 <= i < |Escape(v)| ==> Render(t)[i + 1] == Escape(v)[i];
    case _ =>
  }

  /** The text of a non-empty token sequence starts with a visible ASCII
      character, ends with a space and stays on one line. */
  lemma {:induction false} RenderAllShape(ts: seq<Simbolo>)
    requires forall i :: 0 <= i < |ts| ==> Renderable(ts[i])
    ensures ts != [] ==> |RenderAll(ts)| > 0 && '!' <= RenderAll(ts)[0] <= '~'
    ensures ts != [] ==> RenderAll(ts)[|RenderAll(ts)| - 1] == ' '
    ensures forall i :: 0 <= i < |RenderAll(ts)| ==> RenderAll(ts)[i] != '\n' && RenderAll(ts)[i] != '\r'
  {
    if ts != [] {
      var head, tail := Render(ts[0]), RenderAll(ts[1..]);
      RenderHasNoBreaks(ts[0]);
      RenderAllShape(ts[1..]);
      assert RenderAll(ts) == head + [' '] + tail;
      if tail != [] {
        assert RenderAll(ts)[|RenderAll(ts)| - 1] == tail[|tail| - 1];
      }
      forall i | 0 <= i < |RenderAll(ts)|
        ensures RenderAll(ts)[i] != '\n' && RenderAll(ts)[i] != '\r'
      {
        if i < |head| {
          assert RenderAll(ts)[i] == head[i];
        } else if i > |head| {
          assert RenderAll(ts)[i] == tail[i - |head| - 1];
        }
      }
    }
  }

  /** Each rendered token followed by a space scans back as itself. */
  lemma ScanRendered(t: Simbolo, rest: string)
    requires Renderable(t)
    requires rest != [] && rest[0] == ' '
    ensures ScanToken(Render(t) + rest) == Ok((t, rest))
  {
    var s := Render(t) + rest;
    match t
    case Numero(v) =>
      ScanNatural(v.Floor, rest);
    case String(v) =>
      assert s[1..] == Escape(v) + ['"'] + rest;
      ScanEscaped(v, rest);
    case Identificador(w) =>
      ScanWordOf(w, rest);
    case And => ScanWordOf("and", rest);
    case Or => ScanWordOf("or", rest);
    case Var => ScanWordOf("var", rest);
    case If => ScanWordOf("if", rest);
    case Else => ScanWordOf("else", rest);
    case While => ScanWordOf("while", rest);
    case MaiorIgual => ScanWithEquals('>', rest);
    case MenorIgual => ScanWithEquals('<', rest);
    case IgualIgual => ScanWithEquals('=', rest);
    case Diferente => ScanWithEquals('!', rest);
    case Igual => ScanAlone('=', rest);
    case Maior => ScanAlone('>', rest);
    case Menor => ScanAlone('<', rest);
    case Negacao => ScanAlone('!', rest);
    case Ponto => ScanSingle('.', rest);
    case AbreParenteses => ScanSingle('(', rest);
    case FechaParenteses => ScanSingle(')', rest);
    case AbreChaves => ScanSingle('{', rest);
    case FechaChaves => ScanSingle('}', rest);
    case Virgula => ScanSingle(',', rest);
    case PontoVirgula => ScanSingle(';', rest);
    case Soma => ScanSingle('+', rest);
    case Subtracao => ScanSingle('-', rest);
    case Multiplicacao => ScanSingle('*', rest);
    case Divisao => ScanSingle('/', rest);
  }

  /** A rendered token and its separating space lex as that token. */
  lemma LexRendered(t: Simbolo, tail: string)
    requires Renderable(t)
    ensures Lex(Render(t) + " " + tail) == Prepend(t, Lex(tail))
  {
    var s := Render(t) + " " + tail;
    assert s == Render(t) + ([' '] + tail);
    ScanRendered(t, [' '] + tail);
    LexToken(s, t, [' '] + tail);
    LexSkipsLeading(' ', tail);
  }

  /** Rendering inverts tokenizing: the text of any renderable token sequence
      lexes to exactly that sequence followed by `Fim`. */
  lemma {:induction false} LexRenderAll(ts: seq<Simbolo>)
    requires forall i :: 0 <= i < |ts| ==> Renderable(ts[i])
    ensures Lex(RenderAll(ts)) == Ok(ts + [Fim])
  {
    if ts == [] {
      assert RenderAll(ts) == [] && ts + [Fim] == [Fim];
      assert Lex([]) == Ok([Fim]);
    } else {
      LexRendered(ts[0], RenderAll(ts[1..]));
      LexRenderAll(ts[1..]);
      assert [ts[0]] + (ts[1..] + [Fim]) == ts + [Fim];
    }
  }
}
