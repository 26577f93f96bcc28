/** What the lexer does with each kind of input: digit runs, words, quoted
    strings, raw blocks and the bytes it skips. The positional lemmas (`…At`)
    say what `LexFrom` yields at an index where a given text starts, whatever
    follows it; the text-level lemmas apply them to whole inputs. */
module LexerProps {
  import opened Bytes
  import opened Seqs
  import opened Tokens
  import opened Results
  import opened Lexer

  // ---------------------------------------------------------------------------
  // Unfolding the loop

  /** Past the last byte only the end-of-stream token is left. */
  lemma LexFromEnd(s: bytes)
    ensures LexFrom(s, |s|) == Ok([EndOfStreamTok])
  {
  }

  /** A single token before the end of the input. */
  lemma OneToken(t: Token)
    ensures Prepend([t], Ok([EndOfStreamTok])) == Ok([t, EndOfStreamTok])
  {
    assert [t] + [EndOfStreamTok] == [t, EndOfStreamTok];
  }

  /** A run of skipped bytes adds no token. */
  lemma {:induction false} LexIgnoredRun(s: bytes, i: nat, j: nat)
    requires i <= j <= |s|
    requires forall k :: i <= k < j ==> Ignored(s[k])
    ensures LexFrom(s, i) == LexFrom(s, j)
    decreases j - i
  {
    if i < j {
      assert Step(s, i) == Ok(([], i + 1));
      LexFromStep(s, i);
      PrependEmpty(LexFrom(s, i + 1));
      LexIgnoredRun(s, i + 1, j);
    }
  }

  /** A run of bytes of one class that ends at j is found to end at j. */
  lemma {:induction false} RunEndAt(s: bytes, i: nat, j: nat, inClass: byte -> bool)
    requires i <= j <= |s|
    requires forall k :: i <= k < j ==> inClass(s[k])
    requires j == |s| || !inClass(s[j])
    ensures RunEnd(s, i, inClass) == j
    decreases j - i
  {
    if i < j {
      RunEndAt(s, i + 1, j, inClass);
    }
  }

  /** The bytes that are a token by themselves: brackets, braces, colon,
      comma and line breaks. */
  predicate IsPunct(b: byte) {
    b in {LBRACKET, RBRACKET, LBRACE, RBRACE, COLON, COMMA, LF, CR}
  }

  /** The token a structural byte or line break stands for. */
  function PunctToken(b: byte): Token
    requires IsPunct(b)
  {
    if b == LBRACKET then LsbTok
    else if b == RBRACKET then RsbTok
    else if b == LBRACE then BeginTok
    else if b == RBRACE then EndTok
    else if b == COLON then ColonTok
    else if b == COMMA then CommaTok
    else EndLineTok
  }

  /** A single structural byte or line break. */
  lemma LexPunctAt(s: bytes, i: nat)
    requires i < |s| && IsPunct(s[i])
    ensures LexFrom(s, i) == Prepend([PunctToken(s[i])], LexFrom(s, i + 1))
  {
    LexFromStep(s, i);
  }

  // ---------------------------------------------------------------------------
  // Integers and words

  /** A run of digits, not followed by another digit, is one INTEGER token
      holding the run's decimal value; leading zeros add nothing. */
  lemma LexDigitsAt(s: bytes, i: nat, ds: bytes)
    requires |ds| > 0 && AllDigits(ds) && At(s, i, ds)
    requires i + |ds| == |s| || !IsDigit(s[i + |ds|])
    ensures LexFrom(s, i) == Prepend([IntegerTok(DecimalValue(ds))], LexFrom(s, i + |ds|))
  {
    var j := i + |ds|;
    forall k | i <= k < j
      ensures IsDigit(s[k])
    {
      AtElement(s, i, ds, k - i);
    }
    RunEndAt(s, i, j, IsDigit);
    AtElement(s, i, ds, 0);
    AtSlice(s, i, ds);
    assert NumberToken(s, i) == (IntegerTok(DecimalValue(ds)), j);
    LexFromStep(s, i);
  }

  /** The decimal text of n, not followed by another digit, is one INTEGER token holding n. */
  lemma LexDecimalAt(s: bytes, i: nat, n: nat)
    requires At(s, i, Decimal(n))
    requires i + |Decimal(n)| == |s| || !IsDigit(s[i + |Decimal(n)|])
    ensures LexFrom(s, i) == Prepend([IntegerTok(n)], LexFrom(s, i + |Decimal(n)|))
  {
    LexDigitsAt(s, i, Decimal(n));
    DecimalRoundTrip(n);
  }

  /** A digit run lexes to one INTEGER token holding its decimal value. */
  lemma LexDigits(ds: bytes)
    requires |ds| > 0 && AllDigits(ds)
    ensures Lex(ds) == Ok([IntegerTok(DecimalValue(ds)), EndOfStreamTok])
  {
    AtWhole(ds);
    LexDigitsAt(ds, 0, ds);
    LexFromEnd(ds);
    OneToken(IntegerTok(DecimalValue(ds)));
  }

  /** The text `std::to_string` writes for n lexes back to n. */
  lemma LexDecimal(n: nat)
    ensures Lex(Decimal(n)) == Ok([IntegerTok(n), EndOfStreamTok])
  {
    LexDigits(Decimal(n));
    DecimalRoundTrip(n);
  }

  /** Leading zeros are read through: `007` is the INTEGER 7. */
  lemma LexLeadingZeros()
    ensures Lex(['0' as int, '0' as int, '7' as int]) == Ok([IntegerTok(7), EndOfStreamTok])
  {
    var ds := ['0' as int, '0' as int, '7' as int];
    assert DecimalValue(ds[..2]) == 0 by {
      assert DecimalValue(ds[..2][..1]) == 0;
    }
    LexDigits(ds);
  }

  /** A minus sign is skipped: the text of -n lexes as the INTEGER n. */
  lemma LexMinusDropped(n: nat)
    ensures Lex([MINUS] + Decimal(n)) == Ok([IntegerTok(n), EndOfStreamTok])
  {
    var s := [MINUS] + Decimal(n);
    assert s[1..1 + |Decimal(n)|] == Decimal(n);
    LexFromStep(s, 0);
    LexDecimalAt(s, 1, n);
    LexFromEnd(s);
    OneToken(IntegerTok(n));
    PrependEmpty(LexFrom(s, 1));
  }

  /** `true` lexes to INTEGER 1, `false` and `null` to INTEGER 0, each when the
      word stands alone; every other run of letters is an error naming it. */
  lemma LexWord(w: bytes)
    requires |w| > 0 && AllAlpha(w)
    ensures w == TRUE_WORD ==> Lex(w) == Ok([IntegerTok(1), EndOfStreamTok])
    ensures w == FALSE_WORD || w == NULL_WORD ==> Lex(w) == Ok([IntegerTok(0), EndOfStreamTok])
    ensures w !in {TRUE_WORD, FALSE_WORD, NULL_WORD} ==> Lex(w) == Err(UnknownWord(w))
  {
    RunEndAt(w, 0, |w|, IsAlpha);
    assert w[0..|w|] == w;
    LexFromStep(w, 0);
    LexFromEnd(w);
    OneToken(IntegerTok(0));
    OneToken(IntegerTok(1));
  }

  // ---------------------------------------------------------------------------
  // Strings

  /** Text with no quote, no backslash and no multi-byte lead is read verbatim. */
  predicate Verbatim(x: bytes) {
    IsAscii(x) && QUOTE !in x && BACKSLASH !in x
  }

  /** One plain byte of a string body. */
  lemma StringBodyPlainStep(s: bytes, i: nat)
    requires i < |s| && s[i] < 0x80 && s[i] != QUOTE && s[i] != BACKSLASH
    requires StringBody(s, i + 1).Ok?
    ensures StringBody(s, i) == Ok(([s[i]] + StringBody(s, i + 1).value.0, StringBody(s, i + 1).value.1))
  {
  }

  /** One escape of a string body. */
  lemma StringBodyEscapeStep(s: bytes, i: nat)
    requires i + 1 < |s| && s[i] == BACKSLASH && Unescape(s[i + 1]).Ok?
    requires StringBody(s, i + 2).Ok?
    ensures StringBody(s, i) == Ok(([Unescape(s[i + 1]).value] + StringBody(s, i + 2).value.0, StringBody(s, i + 2).value.1))
  {
  }

  /** The end of a string body at a quote. */
  lemma StringBodyQuote(s: bytes, i: nat)
    requires i < |s| && s[i] == QUOTE
    ensures StringBody(s, i) == Ok(([], i))
  {
  }

  /** A string body that stops at the end of the input or at a quote. */
  predicate BodyEnds(s: bytes, j: nat) {
    j == |s| || (j < |s| && s[j] == QUOTE)
  }

  /** The end of a string body: a quote or the end of the input. */
  lemma StringBodyEnd(s: bytes, i: nat)
    requires BodyEnds(s, i)
    ensures StringBody(s, i) == Ok(([], i))
  {
  }

  /** A verbatim body followed by a quote is read as itself. */
  lemma {:induction false} StringBodyVerbatim(s: bytes, i: nat, x: bytes)
    requires Verbatim(x) && At(s, i, x)
    requires i + |x| < |s| && s[i + |x|] == QUOTE
    ensures StringBody(s, i) == Ok((x, i + |x|))
    decreases |x|
  {
    if |x| == 0 {
      StringBodyQuote(s, i);
    } else {
      AtElement(s, i, x, 0);
      assert x == [x[0]] + x[1..];
      AtSplit(s, i, [x[0]], x[1..]);
      StringBodyVerbatim(s, i + 1, x[1..]);
      StringBodyPlainStep(s, i);
    }
  }

  /** The way `conv_str` writes an ASCII byte reads back as that byte. */
  lemma StringBodyEscaped(s: bytes, i: nat, b: byte)
    requires b < 0x80 && At(s, i, Escape(b))
    requires StringBody(s, i + |Escape(b)|).Ok?
    ensures StringBody(s, i) == Ok(([b] + StringBody(s, i + |Escape(b)|).value.0, StringBody(s, i + |Escape(b)|).value.1))
  {
    var e := Escape(b);
    AtElement(s, i, e, 0);
    if NeedsEscape(b) {
      AtElement(s, i, e, 1);
      EscapeTable(b, s[i + 1]);
      StringBodyEscapeStep(s, i);
    } else {
      StringBodyPlainStep(s, i);
    }
  }

  /** `conv_str` of an ASCII text, followed by a quote or by the end of the
      input, is read back as the text. */
  lemma StringBodyConvStr(s: bytes, i: nat, x: bytes)
    requires IsAscii(x) && At(s, i, ConvStr(x))
    requires BodyEnds(s, i + |ConvStr(x)|)
    ensures StringBody(s, i) == Ok((x, i + |ConvStr(x)|))
  {
    StringBodyConvStrTo(s, i, x, i + |ConvStr(x)|);
  }

  lemma {:induction false} StringBodyConvStrTo(s: bytes, i: nat, x: bytes, end: nat)
    requires IsAscii(x) && At(s, i, ConvStr(x))
    requires end == i + |ConvStr(x)| && BodyEnds(s, end)
    ensures StringBody(s, i) == Ok((x, end))
    decreases |x|
  {
    if |x| == 0 {
      assert ConvStr(x) == [] && end == i && x == [];
      StringBodyEnd(s, i);
    } else {
      var e := Escape(x[0]);
      var c' := ConvStr(x[1..]);
      assert ConvStr(x) == e + c';
      AtSplit(s, i, e, c');
      assert IsAscii(x[1..]);
      StringBodyConvStrTo(s, i + |e|, x[1..], end);
      StringBodyConvStrStep(s, i, x, end);
    }
  }

  /** The first byte of the text, written by `conv_str`, and the rest read
      back. */
  lemma StringBodyConvStrStep(s: bytes, i: nat, x: bytes, end: nat)
    requires |x| > 0 && x[0] < 0x80 && At(s, i, Escape(x[0]))
    requires i + |Escape(x[0])| <= |s| && StringBody(s, i + |Escape(x[0])|) == Ok((x[1..], end))
    ensures StringBody(s, i) == Ok((x, end))
  {
    StringBodyEscaped(s, i, x[0]);
    assert [x[0]] + x[1..] == x;
  }

  /** The way `escape_tab` writes an ASCII byte reads back as that byte. */
  lemma StringBodyTabEscaped(s: bytes, i: nat, b: byte)
    requires b < 0x80 && At(s, i, TabEscape(b))
    requires StringBody(s, i + |TabEscape(b)|).Ok?
    ensures StringBody(s, i) == Ok(([b] + StringBody(s, i + |TabEscape(b)|).value.0, StringBody(s, i + |TabEscape(b)|).value.1))
  {
    var e := TabEscape(b);
    AtElement(s, i, e, 0);
    if b == QUOTE || b == BACKSLASH {
      AtElement(s, i, e, 1);
      assert |e| == 2 && Unescape(s[i + 1]) == Ok(b);
      StringBodyEscapeStep(s, i);
    } else {
      assert |e| == 1 && s[i] == b;
      StringBodyPlainStep(s, i);
    }
  }

  /** `escape_tab` applied to an ASCII text, followed by a quote, is read back
      as the text. */
  lemma {:induction false} StringBodyValEscape(s: bytes, i: nat, x: bytes)
    requires IsAscii(x) && At(s, i, ValEscape(x))
    requires i + |ValEscape(x)| < |s| && s[i + |ValEscape(x)|] == QUOTE
    ensures StringBody(s, i) == Ok((x, i + |ValEscape(x)|))
    decreases |x|
  {
    if |x| == 0 {
      StringBodyQuote(s, i);
    } else {
      var e := TabEscape(x[0]);
      var c' := ValEscape(x[1..]);
      assert ValEscape(x) == e + c';
      AtSplit(s, i, e, c');
      assert IsAscii(x[1..]);
      StringBodyValEscape(s, i + |e|, x[1..]);
      StringBodyTabEscaped(s, i, x[0]);
      assert [x[0]] + x[1..] == x;
    }
  }

  /** A quoted string whose body reads as x up to the quote at j is one STRING token. */
  lemma LexStringAt(s: bytes, i: nat, x: bytes, j: nat)
    requires i < j < |s| && s[i] == QUOTE && StringBody(s, i + 1) == Ok((x, j))
    ensures LexFrom(s, i) == Prepend([StringTok(x)], LexFrom(s, j + 1))
  {
    assert StringToken(s, i) == Ok((StringTok(x), j + 1));
    assert Step(s, i) == Ok(([StringTok(x)], j + 1));
    LexFromStep(s, i);
  }

  /** The parts of a quoted text: the quotes at both ends and the body
      between them. */
  lemma QuotedAt(s: bytes, i: nat, c: bytes)
    requires At(s, i, [QUOTE] + c + [QUOTE])
    ensures i + 1 + |c| < |s| && s[i] == QUOTE && s[i + 1 + |c|] == QUOTE && At(s, i + 1, c)
  {
    AtSplit(s, i, [QUOTE] + c, [QUOTE]);
    AtSplit(s, i, [QUOTE], c);
    AtElement(s, i + 1 + |c|, [QUOTE], 0);
    AtElement(s, i, [QUOTE], 0);
  }

  /** A quoted string written by `conv_str` is one STRING token holding the text. */
  lemma LexQuotedAt(s: bytes, i: nat, x: bytes)
    requires IsAscii(x) && At(s, i, [QUOTE] + ConvStr(x) + [QUOTE])
    ensures LexFrom(s, i) == Prepend([StringTok(x)], LexFrom(s, i + |ConvStr(x)| + 2))
  {
    var c := ConvStr(x);
    var j := i + 1 + |c|;
    QuotedAt(s, i, c);
    assert BodyEnds(s, j);
    StringBodyConvStr(s, i + 1, x);
    assert StringBody(s, i + 1) == Ok((x, j));
    LexStringAt(s, i, x, j);
  }

  /** A quoted verbatim text is one STRING token holding the text. */
  lemma LexVerbatimAt(s: bytes, i: nat, x: bytes)
    requires Verbatim(x) && At(s, i, [QUOTE] + x + [QUOTE])
    ensures LexFrom(s, i) == Prepend([StringTok(x)], LexFrom(s, i + |x| + 2))
  {
    QuotedAt(s, i, x);
    StringBodyVerbatim(s, i + 1, x);
    LexStringAt(s, i, x, i + 1 + |x|);
  }

  /** For every ASCII text x, lexing `"` + conv_str(x) + `"` yields exactly STRING(x). */
  lemma LexQuoted(x: bytes)
    requires IsAscii(x)
    ensures Lex([QUOTE] + ConvStr(x) + [QUOTE]) == Ok([StringTok(x), EndOfStreamTok])
  {
    var s := [QUOTE] + ConvStr(x) + [QUOTE];
    assert s[0..|s|] == s;
    LexQuotedAt(s, 0, x);
    LexFromEnd(s);
    OneToken(StringTok(x));
  }

  /** A quoted string written with `escape_tab` is one STRING token holding
      the text. */
  lemma LexValEscapedAt(s: bytes, i: nat, x: bytes)
    requires IsAscii(x) && At(s, i, [QUOTE] + ValEscape(x) + [QUOTE])
    ensures LexFrom(s, i) == Prepend([StringTok(x)], LexFrom(s, i + |ValEscape(x)| + 2))
  {
    var c := ValEscape(x);
    QuotedAt(s, i, c);
    StringBodyValEscape(s, i + 1, x);
    LexStringAt(s, i, x, i + 1 + |c|);
  }

  /** For every ASCII text x, lexing `"` + the `escape_tab` form of x + `"`
      yields exactly STRING(x). */
  lemma LexValEscaped(x: bytes)
    requires IsAscii(x)
    ensures Lex([QUOTE] + ValEscape(x) + [QUOTE]) == Ok([StringTok(x), EndOfStreamTok])
  {
    var s := [QUOTE] + ValEscape(x) + [QUOTE];
    assert s[0..|s|] == s;
    LexValEscapedAt(s, 0, x);
    LexFromEnd(s);
    OneToken(StringTok(x));
  }

  /** `{}` lexes to BEGIN, END. */
  lemma LexBraces()
    ensures Lex([LBRACE, RBRACE]) == Ok([BeginTok, EndTok, EndOfStreamTok])
  {
    var s := [LBRACE, RBRACE];
    LexPunctAt(s, 0);
    LexPunctAt(s, 1);
    LexFromEnd(s);
    OneToken(EndTok);
    assert [BeginTok] + [EndTok, EndOfStreamTok] == [BeginTok, EndTok, EndOfStreamTok];
  }

  /** A string the input ends inside is accepted up to the end of the input:
      any ASCII text, written with its escapes. */
  lemma LexUnterminatedEscaped(x: bytes)
    requires IsAscii(x)
    ensures Lex([QUOTE] + ConvStr(x)) == Ok([StringTok(x), EndOfStreamTok])
  {
    var c := ConvStr(x);
    var s := [QUOTE] + c;
    AtConcat([QUOTE], c);
    StringBodyConvStr(s, 1, x);
    assert Step(s, 0) == Ok(([StringTok(x)], |s|));
    LexFromStep(s, 0);
    LexFromEnd(s);
    OneToken(StringTok(x));
  }

  /** A string the input ends inside is accepted up to the end of the input:
      any verbatim text, which may hold bytes such as a line break that an
      escaped text would not. */
  lemma {:induction false} LexUnterminated(x: bytes)
    requires Verbatim(x)
    ensures Lex([QUOTE] + x) == Ok([StringTok(x), EndOfStreamTok])
  {
    var s := [QUOTE] + x;
    StringBodyToEnd(s, 1, x);
    LexFromStep(s, 0);
    LexFromEnd(s);
    OneToken(StringTok(x));
  }

  /** A quote followed by verbatim text up to the end of the input, wherever
      it stands: one STRING token and the end of the stream. */
  lemma LexUnterminatedAt(s: bytes, i: nat, x: bytes)
    requires Verbatim(x) && At(s, i, [QUOTE] + x) && i + 1 + |x| == |s|
    ensures LexFrom(s, i) == Ok([StringTok(x), EndOfStreamTok])
  {
    AtSplit(s, i, [QUOTE], x);
    AtElement(s, i, [QUOTE], 0);
    AtSlice(s, i + 1, x);
    assert s[i + 1..] == x;
    StringBodyToEnd(s, i + 1, x);
    assert Step(s, i) == Ok(([StringTok(x)], |s|));
    LexFromStep(s, i);
    LexFromEnd(s);
    OneToken(StringTok(x));
  }

  lemma {:induction false} StringBodyToEnd(s: bytes, i: nat, x: bytes)
    requires Verbatim(x) && i + |x| == |s| && s[i..] == x
    ensures StringBody(s, i) == Ok((x, |s|))
    decreases |x|
  {
    if |x| > 0 {
      assert s[i] == x[0];
      assert s[i + 1..] == x[1..];
      StringBodyToEnd(s, i + 1, x[1..]);
      assert x == [x[0]] + x[1..];
    }
  }

  /** Any other byte after a backslash is an error, `u` included. */
  lemma LexBadEscape(c: byte)
    requires c !in {'r' as int, 'n' as int, 't' as int, BACKSLASH, QUOTE, APOSTROPHE}
    ensures Lex([QUOTE, BACKSLASH, c, QUOTE]) == Err(BadEscape(c))
  {
    var s := [QUOTE, BACKSLASH, c, QUOTE];
    LexFromStep(s, 0);
  }

  /** A three-byte UTF-8 character inside a string is kept byte for byte. */
  lemma LexThreeByteCharacter(a: byte, b: byte, c: byte)
    requires 0xE0 <= a < 0xF0 && 0x80 <= b < 0xC0 && 0x80 <= c < 0xC0
    ensures Lex([QUOTE, a, b, c, QUOTE]) == Ok([StringTok([a, b, c]), EndOfStreamTok])
  {
    var s := [QUOTE, a, b, c, QUOTE];
    assert StringBody(s, 4) == Ok(([], 4));
    assert CharSize(a) == 3;
    assert s[1..4] + [] == [a, b, c];
    assert StringBody(s, 1) == Ok(([a, b, c], 4));
    LexStringAt(s, 0, [a, b, c], 4);
    LexFromEnd(s);
    OneToken(StringTok([a, b, c]));
  }

  /** `get_char_size` reads the lead of a four-byte character as three bytes
      long, so the fourth byte is read on its own. When it is in 0x80..0x9F,
      `get_char_size` gives it size 1 and it is copied: the character is kept
      whole and the quote closes the string. */
  lemma LexFourByteCharacterKept(a: byte, b: byte, c: byte, d: byte)
    requires 0xF0 <= a < 0xF8 && 0x80 <= b < 0xC0 && 0x80 <= c < 0xC0 && 0x80 <= d < 0xA0
    ensures Lex([QUOTE, a, b, c, d, QUOTE]) == Ok([StringTok([a, b, c, d]), EndOfStreamTok])
  {
    var s := [QUOTE, a, b, c, d, QUOTE];
    assert StringBody(s, 5) == Ok(([], 5));
    assert CharSize(d) == 1 && CharSize(a) == 3;
    assert s[4] == d && d != BACKSLASH;
    assert [d] + [] == [d];
    assert StringBody(s, 4) == Ok(([d], 5));
    assert s[1..4] + [d] == [a, b, c, d];
    assert StringBody(s, 1) == Ok(([a, b, c, d], 5));
    LexStringAt(s, 0, [a, b, c, d], 5);
    LexFromEnd(s);
    OneToken(StringTok([a, b, c, d]));
  }

  /** `get_char_size` reads the lead of a four-byte character as three bytes
      long, so when the fourth byte is in 0xA0..0xBF it is taken as a two-byte
      lead and swallows the closing quote: the string runs to the end of the
      input. */
  lemma LexFourByteCharacter(a: byte, b: byte, c: byte, d: byte)
    requires 0xF0 <= a < 0xF8 && 0x80 <= b < 0xC0 && 0x80 <= c < 0xC0 && 0xA0 <= d < 0xC0
    ensures Lex([QUOTE, a, b, c, d, QUOTE]) == Ok([StringTok([a, b, c, d, QUOTE]), EndOfStreamTok])
  {
    var s := [QUOTE, a, b, c, d, QUOTE];
    assert StringBody(s, 6) == Ok(([], 6));
    assert CharSize(d) == 2 && CharSize(a) == 3;
    assert s[4..6] + [] == [d, QUOTE];
    assert StringBody(s, 4) == Ok(([d, QUOTE], 6));
    assert s[1..4] + [d, QUOTE] == [a, b, c, d, QUOTE];
    assert StringBody(s, 1) == Ok(([a, b, c, d, QUOTE], 6));
    assert Step(s, 0) == Ok(([StringTok([a, b, c, d, QUOTE])], 6));
    LexFromStep(s, 0);
    LexFromEnd(s);
    OneToken(StringTok([a, b, c, d, QUOTE]));
  }

  // ---------------------------------------------------------------------------
  // Raw blocks

  /** Once `(` and a decimal length n are followed by `)`, the length field
      reads as n and only the dollar signs and the input length decide the
      outcome of `get_raw_data`. */
  lemma RawBlockAt(s: bytes, i: nat, n: nat)
    requires i < |s| && s[i] == LPAREN && At(s, i + 1, Decimal(n))
    requires i + 1 + |Decimal(n)| < |s| && s[i + 1 + |Decimal(n)|] == RPAREN
    ensures var open := i + 2 + |Decimal(n)|;
      RawBlock(s, i) ==
        if open >= |s| || s[open] != DOLLAR then Err(RawMissingOpenDollar)
        else if open + 1 + n >= |s| then Err(RawTruncated)
        else if s[open + 1 + n] != DOLLAR then Err(RawMissingCloseDollar)
        else Ok((s[open + 1..open + 1 + n], open + 1 + n))
  {
    RawFieldAt(s, i, n);
    var close := Find(s, i + 1, RPAREN);
    assert close + 1 == i + 2 + |Decimal(n)|;
    assert DecimalValue(s[i + 1..close]) == n;
  }

  /** The length field of that block is found and reads as n. */
  lemma RawFieldAt(s: bytes, i: nat, n: nat)
    requires i < |s| && At(s, i + 1, Decimal(n))
    requires i + 1 + |Decimal(n)| < |s| && s[i + 1 + |Decimal(n)|] == RPAREN
    ensures var close := Find(s, i + 1, RPAREN);
      close == i + 1 + |Decimal(n)| && |s[i + 1..close]| > 0 && AllDigits(s[i + 1..close])
      && DecimalValue(s[i + 1..close]) == n
  {
    var d := Decimal(n);
    AtSlice(s, i + 1, d);
    DecimalHasNoRightParen(n);
    FindAt(s, i + 1, i + 1 + |d|, RPAREN);
    DecimalRoundTrip(n);
  }

  /** A byte run without b ending at an occurrence of b is found there. */
  lemma {:induction false} FindAt(s: bytes, i: nat, j: nat, b: byte)
    requires i <= j < |s| && s[j] == b && b !in s[i..j]
    ensures Find(s, i, b) == j
    decreases j - i
  {
    if i < j {
      assert s[i] in s[i..j];
      assert s[i + 1..j] == s[i..j][1..];
      FindAt(s, i + 1, j, b);
    }
  }

  /** What a raw header at i tells about the bytes there. */
  lemma RawHeaderAt(s: bytes, i: nat, n: nat)
    requires At(s, i, RawHeader(n))
    ensures s[i] == LPAREN && At(s, i + 1, Decimal(n))
    ensures s[i + 1 + |Decimal(n)|] == RPAREN && s[i + 2 + |Decimal(n)|] == DOLLAR
  {
    var d := Decimal(n);
    AtSplit(s, i, [LPAREN] + d, [RPAREN, DOLLAR]);
    AtSplit(s, i, [LPAREN], d);
    AtElement(s, i, [LPAREN], 0);
    AtElement(s, i + 1 + |d|, [RPAREN, DOLLAR], 0);
    AtElement(s, i + 1 + |d|, [RPAREN, DOLLAR], 1);
  }

  /** A raw block that reads as data up to the closing `$` at j is one
      RAW_DATA token. */
  lemma LexRawBlockAt(s: bytes, i: nat, data: bytes, j: nat)
    requires i < j < |s| && s[i] == LPAREN && RawBlock(s, i) == Ok((data, j))
    ensures LexFrom(s, i) == Prepend([RawDataTok(data)], LexFrom(s, j + 1))
  {
    assert RawToken(s, i) == Ok((RawDataTok(data), j + 1));
    assert Step(s, i) == Ok(([RawDataTok(data)], j + 1));
    LexFromStep(s, i);
  }

  /** `get_raw_data` reads a framed raw block back as its payload. */
  lemma RawBlockOfFrame(s: bytes, i: nat, data: bytes)
    requires At(s, i, RawFrame(data))
    ensures s[i] == LPAREN
    ensures RawBlock(s, i) == Ok((data, i + |RawHeader(|data|)| + |data|))
  {
    var h := RawHeader(|data|);
    AtSplit(s, i, h + data, [DOLLAR]);
    AtSplit(s, i, h, data);
    RawHeaderAt(s, i, |data|);
    AtElement(s, i + |h| + |data|, [DOLLAR], 0);
    AtSlice(s, i + |h|, data);
    RawBlockAt(s, i, |data|);
  }

  /** A framed raw block is one RAW_DATA token holding exactly its payload,
      whatever bytes the payload holds. */
  lemma LexRawAt(s: bytes, i: nat, data: bytes)
    requires At(s, i, RawFrame(data))
    ensures LexFrom(s, i) == Prepend([RawDataTok(data)], LexFrom(s, i + |RawFrame(data)|))
  {
    RawBlockOfFrame(s, i, data);
    LexRawBlockAt(s, i, data, i + |RawHeader(|data|)| + |data|);
  }

  /** Lexing `(` + decimal(n) + `)$` + b + `$` with |b| = n yields one RAW_DATA(b) token. */
  lemma LexRawFrame(data: bytes)
    ensures Lex(RawFrame(data)) == Ok([RawDataTok(data), EndOfStreamTok])
  {
    var s := RawFrame(data);
    AtConcat(s, []);
    assert s + [] == s;
    LexRawAt(s, 0, data);
    LexFromEnd(s);
    OneToken(RawDataTok(data));
  }

  /** A '(' with no ')' after it is an error. */
  lemma LexRawWithoutRightParen(s: bytes, i: nat)
    requires i < |s| && s[i] == LPAREN && RPAREN !in s[i + 1..]
    ensures Step(s, i) == Err(RawMissingRightParen)
  {
  }

  /** A '(' followed by a byte that is not a digit never opens a raw block. */
  lemma RawNeedsDigitFirst(s: bytes, i: nat)
    requires i + 1 < |s| && s[i] == LPAREN && !IsDigit(s[i + 1])
    ensures Step(s, i).Err?
  {
    var close := Find(s, i + 1, RPAREN);
    if close < |s| && close > i + 1 {
      assert s[i + 1..close][0] == s[i + 1];
    }
  }

  /** A length field followed by something other than `$` is an error. */
  lemma LexRawWithoutOpenDollar(n: nat, b: byte)
    requires b != DOLLAR
    ensures Lex([LPAREN] + Decimal(n) + [RPAREN, b]) == Err(RawMissingOpenDollar)
  {
    var d := Decimal(n);
    var s := [LPAREN] + d + [RPAREN, b];
    AtConcat([LPAREN] + d, [RPAREN, b]);
    AtSplit(s, 0, [LPAREN], d);
    AtElement(s, 0, [LPAREN], 0);
    AtElement(s, 1 + |d|, [RPAREN, b], 0);
    AtElement(s, 1 + |d|, [RPAREN, b], 1);
    RawBlockAt(s, 0, n);
    LexFromStep(s, 0);
  }

  /** Fewer than n + 1 bytes after the opening `$` is an error. */
  lemma LexRawTruncated(data: bytes, rest: bytes)
    requires |rest| <= |data|
    ensures Lex(RawHeader(|data|) + rest) == Err(RawTruncated)
  {
    var s := RawHeader(|data|) + rest;
    AtConcat(RawHeader(|data|), rest);
    RawHeaderAt(s, 0, |data|);
    RawBlockAt(s, 0, |data|);
    LexFromStep(s, 0);
  }

  /** A payload followed by a byte other than `$` is an error. */
  lemma LexRawWithoutCloseDollar(data: bytes, b: byte)
    requires b != DOLLAR
    ensures Lex(RawHeader(|data|) + data + [b]) == Err(RawMissingCloseDollar)
  {
    var h := RawHeader(|data|);
    var s := h + data + [b];
    AtConcat(h + data, [b]);
    AtSplit(s, 0, h, data);
    RawHeaderAt(s, 0, |data|);
    AtElement(s, |h| + |data|, [b], 0);
    RawBlockAt(s, 0, |data|);
    LexFromStep(s, 0);
  }
}
