/** The lexer of src/json_parser.cpp: `conv_str`, `get_char_size`,
    `get_number`, `get_word`, `get_raw_data` and `build_token_stream`.

    `build_token_stream` walks the input with one index `i`; each helper
    leaves `i` on the last byte it consumed and the loop's `i++` moves past
    it. Here one loop iteration is `Step(s, i)`, which returns the token it
    pushes (if any) and the index the next iteration starts at. */
module Lexer {
  import opened Bytes
  import opened Seqs
  import opened Tokens
  import opened Results

  // ---------------------------------------------------------------------------
  // Escapes

  /** The bytes `conv_str` escapes. */
  predicate NeedsEscape(b: byte) {
    b == QUOTE || b == APOSTROPHE || b == CR || b == LF || b == TAB || b == BACKSLASH
  }

  /** The escape table of the string lexer: the byte a backslash followed by
      `c` stands for. `EscapeTable` shows it is the inverse of `Escape`. */
  function Unescape(c: byte): (r: Result<byte>)
    ensures r.Ok? <==> c in {'r' as int, 'n' as int, 't' as int, BACKSLASH, QUOTE, APOSTROPHE}
    ensures r.Ok? ==> NeedsEscape(r.value)
    ensures r.Err? ==> r.error == BadEscape(c)
  {
    if c == 'r' as int then Ok(CR)
    else if c == 'n' as int then Ok(LF)
    else if c == 't' as int then Ok(TAB)
    else if c == BACKSLASH || c == QUOTE || c == APOSTROPHE then Ok(c)
    else Err(BadEscape(c))
  }

  /** How `conv_str` writes one byte: an escaped byte is a backslash and the
      letter the string lexer maps back to it. */
  function Escape(b: byte): (r: bytes)
    ensures NeedsEscape(b) ==> |r| == 2 && r[0] == BACKSLASH
    ensures !NeedsEscape(b) ==> r == [b]
  {
    if b == CR then [BACKSLASH, 'r' as int]
    else if b == LF then [BACKSLASH, 'n' as int]
    else if b == TAB then [BACKSLASH, 't' as int]
    else if NeedsEscape(b) then [BACKSLASH, b]
    else [b]
  }

  /** The escapes `conv_str` writes are exactly the ones the string lexer
      reads, and each reads back as the byte it was written for. */
  lemma EscapeTable(b: byte, c: byte)
    ensures NeedsEscape(b) ==> Unescape(Escape(b)[1]) == Ok(b)
    ensures Unescape(c).Ok? ==> Escape(Unescape(c).value) == [BACKSLASH, c]
  {
  }

  /** `conv_str`: the text of a string literal whose content is `s`. */
  function ConvStr(s: bytes): (r: bytes)
    ensures |s| <= |r| <= 2 * |s|
    ensures QUOTE in r ==> BACKSLASH in r
  {
    if |s| == 0 then [] else Escape(s[0]) + ConvStr(s[1..])
  }

  /** `escape_tab`: a quote or a backslash is written with a backslash
      before it; every other byte as it is. */
  function TabEscape(b: byte): (r: bytes)
    ensures b == QUOTE || b == BACKSLASH ==> r == [BACKSLASH, b]
    ensures b != QUOTE && b != BACKSLASH ==> r == [b]
  {
    if b == QUOTE || b == BACKSLASH then [BACKSLASH, b] else [b]
  }

  /** The text `JSON::val(string)` puts between quotes: `escape_tab` applied
      to each byte. */
  function ValEscape(s: bytes): (r: bytes)
    ensures |s| <= |r| <= 2 * |s|
  {
    if |s| == 0 then [] else TabEscape(s[0]) + ValEscape(s[1..])
  }

  // ---------------------------------------------------------------------------
  // UTF-8

  /** `get_char_size`: 1 below 0x80, otherwise the number of set bits among
      bits 7, 6 and 5 of the byte. */
  function CharSize(b: byte): (n: nat)
    ensures 1 <= n <= 3
    ensures n == 1 <==> b < 0xA0
    ensures n == 3 <==> 0xE0 <= b
  {
    if b < 0x80 then 1 else (b / 0x80) % 2 + (b / 0x40) % 2 + (b / 0x20) % 2
  }

  /** The length of the UTF-8 sequence a byte starts, per section 3 of
      RFC 3629 (0 for a byte that starts none). */
  function Utf8Length(b: byte): nat {
    if b < 0x80 then 1
    else if b < 0xC0 then 0
    else if b < 0xE0 then 2
    else if b < 0xF0 then 3
    else if b < 0xF8 then 4
    else 0
  }

  /** `get_char_size` agrees with RFC 3629 on one-, two- and three-byte leads,
      and reads a four-byte lead as three bytes long. */
  lemma CharSizeAgainstUtf8(b: byte)
    ensures b < 0x80 || 0xC0 <= b < 0xF0 ==> CharSize(b) == Utf8Length(b)
    ensures 0xF0 <= b < 0xF8 ==> CharSize(b) == 3 && Utf8Length(b) == 4
    ensures 0x80 <= b < 0xC0 ==> Utf8Length(b) == 0 && CharSize(b) == (if b < 0xA0 then 1 else 2)
  {
  }

  // ---------------------------------------------------------------------------
  // Scanners

  /** The end of the maximal run of bytes of one class starting at i
      (the `while` loops of `get_number` and `get_word`). */
  function RunEnd(s: bytes, i: nat, inClass: byte -> bool): (j: nat)
    requires i <= |s|
    ensures i <= j <= |s|
    ensures forall k :: i <= k < j ==> inClass(s[k])
    ensures j == |s| || !inClass(s[j])
    decreases |s| - i
  {
    if i < |s| && inClass(s[i]) then RunEnd(s, i + 1, inClass) else i
  }

  /** The first index at or after i that holds b, or |s| if there is none. */
  function Find(s: bytes, i: nat, b: byte): (j: nat)
    requires i <= |s|
    ensures i <= j <= |s|
    ensures b !in s[i..j]
    ensures j < |s| ==> s[j] == b
    decreases |s| - i
  {
    if i == |s| || s[i] == b then i else Find(s, i + 1, b)
  }

  /** The body of a quoted string starting at i (just after the opening
      quote): the unescaped text, and the index of the closing quote, or |s|
      when the input ends first (an unterminated string is accepted). */
  function StringBody(s: bytes, i: nat): (r: Result<(bytes, nat)>)
    requires i <= |s|
    ensures r.Ok? ==> i <= r.value.1 <= |s|
    ensures r.Ok? ==> r.value.1 == |s| || s[r.value.1] == QUOTE
    ensures r.Ok? ==> |r.value.0| <= r.value.1 - i
    decreases |s| - i
  {
    if i == |s| || s[i] == QUOTE then Ok(([], i))
    else
      var n := CharSize(s[i]);
      if n == 1 then
        if s[i] == BACKSLASH then
          if i + 1 >= |s| then Err(DanglingEscape)
          else
            var c :- Unescape(s[i + 1]);
            var rest :- StringBody(s, i + 2);
            Ok(([c] + rest.0, rest.1))
        else
          var rest :- StringBody(s, i + 1);
          Ok(([s[i]] + rest.0, rest.1))
      else if i + n > |s| then Err(TruncatedUtf8)
      else
        var rest :- StringBody(s, i + n);
        Ok((s[i..i + n] + rest.0, rest.1))
  }

  /** `get_raw_data` at the '(' at index i: the payload and the index of the
      closing '$'. The length field must be a non-empty digit run. */
  function RawBlock(s: bytes, i: nat): (r: Result<(bytes, nat)>)
    requires i < |s| && s[i] == LPAREN
    ensures RPAREN !in s[i + 1..] ==> r == Err(RawMissingRightParen)
    ensures r.Ok? ==> var (data, j) := r.value;
      && i + 3 + |data| <= j < |s|
      && s[j] == DOLLAR && s[j - |data| - 1] == DOLLAR && s[j - |data| - 2] == RPAREN
      && s[j - |data|..j] == data
      && AllDigits(s[i + 1..j - |data| - 2])
      && DecimalValue(s[i + 1..j - |data| - 2]) == |data|
  {
    var close := Find(s, i + 1, RPAREN);
    if close == |s| then Err(RawMissingRightParen)
    else
      var field := s[i + 1..close];
      if |field| == 0 || !AllDigits(field) then Err(RawBadLength(field))
      else
        var size := DecimalValue(field);
        var open := close + 1;
        if open >= |s| || s[open] != DOLLAR then Err(RawMissingOpenDollar)
        else if open + 1 + size >= |s| then Err(RawTruncated)
        else if s[open + 1 + size] != DOLLAR then Err(RawMissingCloseDollar)
        else Ok((s[open + 1..open + 1 + size], open + 1 + size))
  }

  /** The header `(` length `)$` of a raw block of n bytes. */
  function RawHeader(n: nat): (r: bytes)
    ensures |r| == |Decimal(n)| + 3
  {
    [LPAREN] + Decimal(n) + [RPAREN, DOLLAR]
  }

  /** The wire form of a raw block, as `stringify_unit` writes it: the
      header, the payload and a closing `$`. */
  function RawFrame(data: bytes): (r: bytes)
    ensures |r| == |Decimal(|data|)| + |data| + 4
  {
    RawHeader(|data|) + data + [DOLLAR]
  }

  const TRUE_WORD: bytes := ['t' as int, 'r' as int, 'u' as int, 'e' as int]
  const FALSE_WORD: bytes := ['f' as int, 'a' as int, 'l' as int, 's' as int, 'e' as int]
  const NULL_WORD: bytes := ['n' as int, 'u' as int, 'l' as int, 'l' as int]

  /** The only words the lexer accepts. */
  function Keyword(w: bytes): (r: Result<nat>)
    ensures r.Ok? <==> w in {TRUE_WORD, FALSE_WORD, NULL_WORD}
    ensures r.Ok? ==> r.value == (if w == TRUE_WORD then 1 else 0)
    ensures r.Err? ==> r.error == UnknownWord(w)
  {
    if w == NULL_WORD || w == FALSE_WORD then Ok(0)
    else if w == TRUE_WORD then Ok(1)
    else Err(UnknownWord(w))
  }

  /** The bytes `build_token_stream` passes over without pushing a token. */
  predicate Ignored(b: byte) {
    && !IsDigit(b) && !IsAlpha(b) && b != LPAREN && b != QUOTE
    && b != LBRACKET && b != RBRACKET && b != LBRACE && b != RBRACE
    && b != COLON && b != COMMA && b != CR && b != LF
  }

  // ---------------------------------------------------------------------------
  // The token stream

  /** `get_number` at a digit: the INTEGER token of the maximal digit run,
      and the index after the run. */
  function NumberToken(s: bytes, i: nat): (r: (Token, nat))
    requires i < |s| && IsDigit(s[i])
    ensures i < r.1 <= |s|
  {
    var j := RunEnd(s, i, IsDigit);
    assert AllDigits(s[i..j]);
    (IntegerTok(DecimalValue(s[i..j])), j)
  }

  /** `get_word` at a letter, and the keyword check on the word. */
  function WordToken(s: bytes, i: nat): (r: Result<(Token, nat)>)
    requires i < |s| && IsAlpha(s[i])
    ensures r.Ok? ==> i < r.value.1 <= |s|
  {
    var j := RunEnd(s, i, IsAlpha);
    var v :- Keyword(s[i..j]);
    Ok((IntegerTok(v), j))
  }

  /** The string branch of `build_token_stream` at an opening quote: the
      STRING token and the index after the closing quote (|s| when the
      input ends first). */
  function StringToken(s: bytes, i: nat): (r: Result<(Token, nat)>)
    requires i < |s| && s[i] == QUOTE
    ensures r.Ok? ==> i < r.value.1 <= |s|
  {
    var body :- StringBody(s, i + 1);
    Ok((StringTok(body.0), if body.1 < |s| then body.1 + 1 else body.1))
  }

  /** `get_raw_data` at a '(': the RAW_DATA token and the index after the
      closing '$'. */
  function RawToken(s: bytes, i: nat): (r: Result<(Token, nat)>)
    requires i < |s| && s[i] == LPAREN
    ensures r.Ok? ==> i < r.value.1 <= |s|
  {
    var raw :- RawBlock(s, i);
    Ok((RawDataTok(raw.0), raw.1 + 1))
  }

  /** A scanner's single token as the loop pushes it. */
  function Pushed(r: Result<(Token, nat)>): Result<(seq<Token>, nat)> {
    match r
    case Ok((t, j)) => Ok(([t], j))
    case Err(e) => Err(e)
  }

  /** One iteration of the loop of `build_token_stream` at index i: the token
      it pushes, if any, and the index the next iteration starts at. */
  function Step(s: bytes, i: nat): (r: Result<(seq<Token>, nat)>)
    requires i < |s|
    ensures r.Ok? ==> i < r.value.1 <= |s| && |r.value.0| <= 1
    ensures r.Ok? ==> EndOfStreamTok !in r.value.0
    ensures Ignored(s[i]) <==> r == Ok(([], i + 1))
  {
    var b := s[i];
    if IsDigit(b) then Pushed(Ok(NumberToken(s, i)))
    else if b == LPAREN then Pushed(RawToken(s, i))
    else if b == QUOTE then Pushed(StringToken(s, i))
    else if b == LBRACKET then Ok(([LsbTok], i + 1))
    else if b == RBRACKET then Ok(([RsbTok], i + 1))
    else if b == LBRACE then Ok(([BeginTok], i + 1))
    else if b == RBRACE then Ok(([EndTok], i + 1))
    else if b == COLON then Ok(([ColonTok], i + 1))
    else if b == COMMA then Ok(([CommaTok], i + 1))
    else if b == CR || b == LF then Ok(([EndLineTok], i + 1))
    else if IsAlpha(b) then Pushed(WordToken(s, i))
    else Ok(([], i + 1))
  }

  /** The tokens of s[i..], closed by the end-of-stream token: the loop of
      `build_token_stream` from index i on. */
  function LexFrom(s: bytes, i: nat): Result<seq<Token>>
    requires i <= |s|
    decreases |s| - i, 2
  {
    if i == |s| then Ok([EndOfStreamTok]) else LexOn(s, i)
  }

  /** The loop from an index inside the input. `LexFrom`, `LexOn` and
      `LexIteration` are layers of one definition, so that a proof meets the
      body of an iteration (`Step`) only where it asks for it through
      `LexFromStep`. */
  function LexOn(s: bytes, i: nat): Result<seq<Token>>
    requires i < |s|
    decreases |s| - i, 1
  {
    LexIteration(s, i)
  }

  /** One iteration at i, then the loop from where it leaves the index. */
  function LexIteration(s: bytes, i: nat): Result<seq<Token>>
    requires i < |s|
    decreases |s| - i, 0
  {
    match Step(s, i)
    case Err(e) => Err(e)
    case Ok((toks, j)) => Prepend(toks, LexFrom(s, j))
  }

  /** One loop iteration, then the rest of the input. */
  lemma LexFromStep(s: bytes, i: nat)
    requires i < |s|
    ensures Step(s, i).Ok? ==> LexFrom(s, i) == Prepend(Step(s, i).value.0, LexFrom(s, Step(s, i).value.1))
    ensures Step(s, i).Err? ==> LexFrom(s, i) == Err(Step(s, i).error)
  {
    assert LexFrom(s, i) == LexOn(s, i);
    assert LexOn(s, i) == LexIteration(s, i);
  }

  /** A successful lexing ends with the one end-of-stream token. */
  lemma {:induction false} LexFromEndsOnce(s: bytes, i: nat)
    requires i <= |s|
    ensures LexFrom(s, i).Ok? ==> var t := LexFrom(s, i).value;
      |t| >= 1 && t[|t| - 1] == EndOfStreamTok && EndOfStreamTok !in t[..|t| - 1]
    decreases |s| - i
  {
    if i < |s| {
      LexFromStep(s, i);
      if Step(s, i).Ok? {
        var (toks, j) := Step(s, i).value;
        LexFromEndsOnce(s, j);
        if LexFrom(s, j).Ok? {
          var rest := LexFrom(s, j).value;
          assert (toks + rest)[..|toks + rest| - 1] == toks + rest[..|rest| - 1];
        }
      }
    }
  }

  /** `build_token_stream`: the token sequence of the whole input. */
  function Lex(s: bytes): (r: Result<seq<Token>>)
    ensures r.Ok? ==> |r.value| >= 1 && r.value[|r.value| - 1] == EndOfStreamTok
    ensures r.Ok? ==> EndOfStreamTok !in r.value[..|r.value| - 1]
  {
    LexFromEndsOnce(s, 0);
    LexFrom(s, 0)
  }
}
