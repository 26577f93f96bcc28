/** The text `stringify_unit` writes lexes to the token stream of the tree.

    The indentation the serializer puts before each line is made of bytes
    `build_token_stream` passes over, each line break becomes an END_LINE
    token, and every value becomes the tokens `TokensOf` gives. Together
    with the parser's side this proves that parsing the text of a tree gives
    the tree back. */
module TextRoundTrip {
  import opened Bytes
  import opened Seqs
  import opened Tables
  import opened Tokens
  import opened Results
  import opened Lexer
  import opened LexerProps
  import opened Parser
  import opened ParserProps
  import opened TokenRoundTrip
  import opened Json

  /** An indent unit made only of bytes the lexer skips, such as spaces and
      tabs. */
  predicate Skipped(indent: bytes) {
    forall b :: b in indent ==> Ignored(b)
  }

  /** The byte at j, if any, does not continue a digit run. */
  predicate ValueEnds(s: bytes, j: nat) {
    j == |s| || (j < |s| && !IsDigit(s[j]))
  }

  // ---------------------------------------------------------------------------
  // Layout bytes

  /** Indentation adds no token. */
  lemma LexIndentAt(s: bytes, i: nat, indent: bytes, n: nat)
    requires Skipped(indent) && At(s, i, Repeat(indent, n))
    ensures LexFrom(s, i) == LexFrom(s, i + |Repeat(indent, n)|)
  {
    var pad := Repeat(indent, n);
    forall k | i <= k < i + |pad|
      ensures Ignored(s[k])
    {
      AtElement(s, i, pad, k - i);
      RepeatElements(indent, n, k - i);
    }
    LexIgnoredRun(s, i, i + |pad|);
  }

  /** What ends a line: a comma and a line break when more lines follow,
      otherwise a line break alone. */
  function Separator(more: bool): (r: bytes)
    ensures |r| >= 1 && r[|r| - 1] == LF && !IsDigit(r[0])
  {
    if more then [COMMA, LF] else [LF]
  }

  function SeparatorTokens(more: bool): seq<Token> {
    if more then [CommaTok, EndLineTok] else [EndLineTok]
  }

  /** The end of a line lexes to its COMMA and END_LINE tokens. */
  lemma LexSeparatorAt(s: bytes, i: nat, more: bool)
    requires At(s, i, Separator(more))
    ensures LexFrom(s, i) == Prepend(SeparatorTokens(more), LexFrom(s, i + |Separator(more)|))
  {
    var sep := Separator(more);
    AtElement(s, i, sep, |sep| - 1);
    LexPunctAt(s, i + |sep| - 1);
    if more {
      AtElement(s, i, sep, 0);
      LexPunctAt(s, i);
      PrependPrepend([CommaTok], [EndLineTok], LexFrom(s, i + 2));
      assert [CommaTok] + [EndLineTok] == SeparatorTokens(more);
    }
  }

  /** `[` or `{` and the line break after it. */
  lemma LexOpenAt(s: bytes, i: nat, b: byte)
    requires b == LBRACKET || b == LBRACE
    requires At(s, i, [b, LF])
    ensures LexFrom(s, i) == Prepend([PunctToken(b), EndLineTok], LexFrom(s, i + 2))
  {
    AtElement(s, i, [b, LF], 0);
    AtElement(s, i, [b, LF], 1);
    LexPunctAt(s, i);
    LexPunctAt(s, i + 1);
    PrependPrepend([PunctToken(b)], [EndLineTok], LexFrom(s, i + 2));
    assert [PunctToken(b)] + [EndLineTok] == [PunctToken(b), EndLineTok];
  }

  /** The indentation before `]` or `}`, and the bracket. */
  lemma LexCloseAt(s: bytes, i: nat, indent: bytes, depth: nat, b: byte)
    requires b == RBRACKET || b == RBRACE
    requires Skipped(indent) && At(s, i, Repeat(indent, depth)) && At(s, i + |Repeat(indent, depth)|, [b])
    ensures LexFrom(s, i) == Prepend([PunctToken(b)], LexFrom(s, i + |Repeat(indent, depth)| + 1))
  {
    var pad := Repeat(indent, depth);
    AtElement(s, i + |pad|, [b], 0);
    LexIndentAt(s, i, indent, depth);
    LexPunctAt(s, i + |pad|);
  }

  /** Two pieces of a token stream in a row. */
  lemma PrependTwo(r0: Result<seq<Token>>, r1: Result<seq<Token>>, r2: Result<seq<Token>>, x: seq<Token>, y: seq<Token>)
    requires r0 == Prepend(x, r1) && r1 == Prepend(y, r2)
    ensures r0 == Prepend(x + y, r2)
  {
    PrependPrepend(x, y, r2);
  }

  /** Tokens in front of an error: the error. */
  lemma PrependErr(r0: Result<seq<Token>>, r1: Result<seq<Token>>, x: seq<Token>)
    requires r0 == Prepend(x, r1) && r1.Err?
    ensures r0 == r1
  {
  }

  /** Three pieces of a token stream in a row. */
  lemma PrependThree(r0: Result<seq<Token>>, r1: Result<seq<Token>>, r2: Result<seq<Token>>, r3: Result<seq<Token>>,
                     x: seq<Token>, y: seq<Token>, z: seq<Token>)
    requires r0 == Prepend(x, r1) && r1 == Prepend(y, r2) && r2 == Prepend(z, r3)
    ensures r0 == Prepend(x + y + z, r3)
  {
    PrependPrepend(y, z, r3);
    PrependPrepend(x, y + z, r3);
    assert x + (y + z) == x + y + z;
  }

  /** A head, then a body of two parts. */
  lemma PrependHead(r0: Result<seq<Token>>, r1: Result<seq<Token>>, r2: Result<seq<Token>>,
                    x: seq<Token>, y: seq<Token>, z: seq<Token>)
    requires r0 == Prepend(x, r1) && r1 == Prepend(y + z, r2)
    ensures r0 == Prepend(x + y + z, r2)
  {
    PrependPrepend(x, y + z, r2);
    assert x + (y + z) == x + y + z;
  }

  // ---------------------------------------------------------------------------
  // Values

  /** The text of a reparseable tree, wherever it stands and whatever follows
      it (short of another digit), lexes to the tree's tokens. */
  lemma {:induction false} LexNodeAt(s: bytes, i: nat, t: Node, indent: bytes, depth: nat)
    requires Reparseable(t) && Skipped(indent)
    requires At(s, i, Stringify(t, indent, depth, false))
    requires ValueEnds(s, i + |Stringify(t, indent, depth, false)|)
    ensures LexFrom(s, i) == Prepend(TokensOf(t), LexFrom(s, i + |Stringify(t, indent, depth, false)|))
    decreases t, 2
  {
    match t
    case Int(v) =>
      LexDecimalAt(s, i, v);
    case Str(x) =>
      LexQuotedAt(s, i, x);
    case Raw(data) =>
      LexRawAt(s, i, data);
    case Array(_) =>
      LexArrayAt(s, i, t, indent, depth);
    case Group(_) =>
      LexGroupAt(s, i, t, indent, depth);
  }

  /** Where the parts of a bracketed block stand: the opening bracket and
      line break, the lines, the indent and the closing bracket. */
  lemma BlockAt(s: bytes, i: nat, b: byte, lines: bytes, pad: bytes, c: byte)
    requires At(s, i, [b, LF] + lines + pad + [c])
    ensures At(s, i, [b, LF]) && At(s, i + 2, lines) && At(s, i + 2 + |lines|, pad)
    ensures At(s, i + 2 + |lines| + |pad|, [c])
  {
    AtSplit(s, i, [b, LF] + lines + pad, [c]);
    AtSplit(s, i, [b, LF] + lines, pad);
    AtSplit(s, i, [b, LF], lines);
  }

  /** A bracketed block lexes to its bracket, an END_LINE, the tokens of
      its lines and the closing bracket. */
  lemma LexBlockAt(s: bytes, i: nat, b: byte, lines: bytes, indent: bytes, depth: nat, c: byte,
                   open: Token, inner: seq<Token>, close: Token)
    requires (b == LBRACKET && c == RBRACKET) || (b == LBRACE && c == RBRACE)
    requires open == PunctToken(b) && close == PunctToken(c)
    requires Skipped(indent) && At(s, i, [b, LF] + lines + Repeat(indent, depth) + [c])
    requires LexFrom(s, i + 2) == Prepend(inner, LexFrom(s, i + 2 + |lines|))
    ensures LexFrom(s, i)
         == Prepend([open, EndLineTok] + inner + [close], LexFrom(s, i + |[b, LF] + lines + Repeat(indent, depth) + [c]|))
  {
    var pad := Repeat(indent, depth);
    BlockAt(s, i, b, lines, pad, c);
    LexOpenAt(s, i, b);
    LexCloseAt(s, i + 2 + |lines|, indent, depth, c);
    PrependThree(LexFrom(s, i), LexFrom(s, i + 2), LexFrom(s, i + 2 + |lines|), LexFrom(s, i + 2 + |lines| + |pad| + 1),
      [open, EndLineTok], inner, [close]);
  }

  lemma {:induction false} LexArrayAt(s: bytes, i: nat, a: Node, indent: bytes, depth: nat)
    requires a.Array? && Reparseable(a) && Skipped(indent)
    requires At(s, i, Stringify(a, indent, depth, false))
    ensures LexFrom(s, i) == Prepend(TokensOf(a), LexFrom(s, i + |Stringify(a, indent, depth, false)|))
    decreases a, 1
  {
    var items := ArrayItems(a, indent, depth, false, 0);
    BlockAt(s, i, LBRACKET, items, Repeat(indent, depth), RBRACKET);
    LexItemsAt(s, i + 2, a, indent, depth, 0);
    LexBlockAt(s, i, LBRACKET, items, indent, depth, RBRACKET, LsbTok, ItemTokens(a, 0), RsbTok);
  }

  lemma {:induction false} LexGroupAt(s: bytes, i: nat, g: Node, indent: bytes, depth: nat)
    requires g.Group? && Reparseable(g) && Skipped(indent)
    requires At(s, i, Stringify(g, indent, depth, false))
    ensures LexFrom(s, i) == Prepend(TokensOf(g), LexFrom(s, i + |Stringify(g, indent, depth, false)|))
    decreases g, 1
  {
    var items := GroupItems(g, indent, depth, false, 0);
    BlockAt(s, i, LBRACE, items, Repeat(indent, depth), RBRACE);
    LexMembersAt(s, i + 2, g, indent, depth, 0);
    LexBlockAt(s, i, LBRACE, items, indent, depth, RBRACE, BeginTok, MemberTokens(g, 0), EndTok);
  }

  /** The element lines of an ARRAY from element k on. */
  lemma {:induction false} LexItemsAt(s: bytes, i: nat, a: Node, indent: bytes, depth: nat, k: nat)
    requires a.Array? && Reparseable(a) && Skipped(indent) && k <= |a.elements|
    requires At(s, i, ArrayItems(a, indent, depth, false, k))
    ensures LexFrom(s, i) == Prepend(ItemTokens(a, k), LexFrom(s, i + |ArrayItems(a, indent, depth, false, k)|))
    decreases a, 0, |a.elements| - k, 1
  {
    if k == |a.elements| {
      PrependEmpty(LexFrom(s, i));
    } else {
      var j := LexItemLine(s, i, a, indent, depth, k);
      LexItemsAt(s, j, a, indent, depth, k + 1);
      var e := a.elements[k];
      PrependTwo(LexFrom(s, i), LexFrom(s, j), LexFrom(s, j + |ArrayItems(a, indent, depth, false, k + 1)|),
        TokensOf(e) + SeparatorTokens(k + 1 < |a.elements|), ItemTokens(a, k + 1));
    }
  }

  /** Element line k: the indent, the element and the end of the line. */
  lemma {:induction false} LexItemLine(s: bytes, i: nat, a: Node, indent: bytes, depth: nat, k: nat) returns (j: nat)
    requires a.Array? && Reparseable(a) && Skipped(indent) && k < |a.elements|
    requires At(s, i, ArrayItems(a, indent, depth, false, k))
    ensures At(s, j, ArrayItems(a, indent, depth, false, k + 1))
    ensures i + |ArrayItems(a, indent, depth, false, k)| == j + |ArrayItems(a, indent, depth, false, k + 1)|
    ensures LexFrom(s, i) == Prepend(TokensOf(a.elements[k]) + SeparatorTokens(k + 1 < |a.elements|), LexFrom(s, j))
    decreases a, 0, |a.elements| - k, 0
  {
    var e := a.elements[k];
    var more := k + 1 < |a.elements|;
    var rest := ArrayItems(a, indent, depth, false, k + 1);
    assert Reparseable(e);
    ItemLineText(a, indent, depth, false, k);
    j := LexItemText(s, i, e, indent, depth + 1, more, rest);
  }

  /** An element line with its indent, value and end, followed by `rest`. */
  lemma {:induction false} LexItemText(s: bytes, i: nat, e: Node, indent: bytes, depth: nat, more: bool, rest: bytes)
    returns (j: nat)
    requires Reparseable(e) && Skipped(indent)
    requires At(s, i, Repeat(indent, depth) + (Stringify(e, indent, depth, false) + Separator(more) + rest))
    ensures j == i + |Repeat(indent, depth)| + |Stringify(e, indent, depth, false)| + |Separator(more)|
    ensures At(s, j, rest)
    ensures LexFrom(s, i) == Prepend(TokensOf(e) + SeparatorTokens(more), LexFrom(s, j))
    decreases e, 4
  {
    var pad := Repeat(indent, depth);
    AtSplit(s, i, pad, Stringify(e, indent, depth, false) + Separator(more) + rest);
    LexIndentAt(s, i, indent, depth);
    j := LexValueLine(s, i + |pad|, e, indent, depth, more, rest);
  }

  /** The parts of element line k, with the indent first. */
  lemma ItemLineText(a: Node, indent: bytes, depth: nat, hideRaw: bool, k: nat)
    requires a.Array? && k < |a.elements|
    ensures ArrayItems(a, indent, depth, hideRaw, k)
         == Repeat(indent, depth + 1)
            + (Stringify(a.elements[k], indent, depth + 1, hideRaw) + Separator(k + 1 < |a.elements|)
               + ArrayItems(a, indent, depth, hideRaw, k + 1))
  {
  }

  /** A value, the end of its line and what follows. */
  lemma {:induction false} LexValueLine(s: bytes, p: nat, v: Node, indent: bytes, depth: nat, more: bool, rest: bytes)
    returns (j: nat)
    requires Reparseable(v) && Skipped(indent)
    requires At(s, p, Stringify(v, indent, depth, false) + Separator(more) + rest)
    ensures j == p + |Stringify(v, indent, depth, false)| + |Separator(more)|
    ensures At(s, j, rest)
    ensures LexFrom(s, p) == Prepend(TokensOf(v) + SeparatorTokens(more), LexFrom(s, j))
    decreases v, 3
  {
    var text := Stringify(v, indent, depth, false);
    var sep := Separator(more);
    AtSplit(s, p, text + sep, rest);
    AtSplit(s, p, text, sep);
    AtElement(s, p + |text|, sep, 0);
    LexNodeAt(s, p, v, indent, depth);
    LexSeparatorAt(s, p + |text|, more);
    j := p + |text| + |sep|;
    PrependTwo(LexFrom(s, p), LexFrom(s, p + |text|), LexFrom(s, j), TokensOf(v), SeparatorTokens(more));
  }

  /** The member lines of a GROUP from member k on. */
  lemma {:induction false} LexMembersAt(s: bytes, i: nat, g: Node, indent: bytes, depth: nat, k: nat)
    requires g.Group? && Reparseable(g) && Skipped(indent) && k <= |g.members|
    requires At(s, i, GroupItems(g, indent, depth, false, k))
    ensures LexFrom(s, i) == Prepend(MemberTokens(g, k), LexFrom(s, i + |GroupItems(g, indent, depth, false, k)|))
    decreases g, 0, |g.members| - k, 1
  {
    if k == |g.members| {
      PrependEmpty(LexFrom(s, i));
    } else {
      var j := LexMemberLine(s, i, g, indent, depth, k);
      LexMembersAt(s, j, g, indent, depth, k + 1);
      var line := [StringTok(g.members[k].0), ColonTok] + TokensOf(g.members[k].1) + SeparatorTokens(k + 1 < |g.members|);
      MemberTokensStep(g, k, line);
      var end := j + |GroupItems(g, indent, depth, false, k + 1)|;
      PrependTwo(LexFrom(s, i), LexFrom(s, j), LexFrom(s, end), line, MemberTokens(g, k + 1));
    }
  }

  /** The tokens of member lines k on: line k, then the rest. */
  lemma MemberTokensStep(g: Node, k: nat, line: seq<Token>)
    requires g.Group? && k < |g.members|
    requires line == [StringTok(g.members[k].0), ColonTok] + TokensOf(g.members[k].1) + SeparatorTokens(k + 1 < |g.members|)
    ensures MemberTokens(g, k) == line + MemberTokens(g, k + 1)
  {
  }

  /** Member line k: the indent, the key, the value and the end of the
      line. */
  lemma {:induction false} LexMemberLine(s: bytes, i: nat, g: Node, indent: bytes, depth: nat, k: nat) returns (j: nat)
    requires g.Group? && Reparseable(g) && Skipped(indent) && k < |g.members|
    requires At(s, i, GroupItems(g, indent, depth, false, k))
    ensures At(s, j, GroupItems(g, indent, depth, false, k + 1))
    ensures i + |GroupItems(g, indent, depth, false, k)| == j + |GroupItems(g, indent, depth, false, k + 1)|
    ensures LexFrom(s, i)
         == Prepend([StringTok(g.members[k].0), ColonTok] + TokensOf(g.members[k].1) + SeparatorTokens(k + 1 < |g.members|),
                    LexFrom(s, j))
    decreases g, 0, |g.members| - k, 0
  {
    var (key, v) := g.members[k];
    var more := k + 1 < |g.members|;
    var rest := GroupItems(g, indent, depth, false, k + 1);
    assert Verbatim(key) && Reparseable(v);
    MemberLineText(g, indent, depth, false, k);
    j := LexMemberText(s, i, key, v, indent, depth + 1, more, rest);
  }

  /** A member line with its indent, key, value and end, followed by
      `rest`. */
  lemma {:induction false} LexMemberText(s: bytes, i: nat, key: bytes, v: Node, indent: bytes, depth: nat, more: bool,
                                         rest: bytes) returns (j: nat)
    requires Verbatim(key) && Reparseable(v) && Skipped(indent)
    requires At(s, i, (Repeat(indent, depth) + KeyText(key)) + (Stringify(v, indent, depth, false) + Separator(more) + rest))
    ensures j == i + |Repeat(indent, depth)| + |KeyText(key)| + |Stringify(v, indent, depth, false)| + |Separator(more)|
    ensures At(s, j, rest)
    ensures LexFrom(s, i) == Prepend([StringTok(key), ColonTok] + TokensOf(v) + SeparatorTokens(more), LexFrom(s, j))
    decreases v, 4
  {
    var head := Repeat(indent, depth) + KeyText(key);
    AtSplit(s, i, head, Stringify(v, indent, depth, false) + Separator(more) + rest);
    LexMemberHead(s, i, key, indent, depth);
    j := LexValueLine(s, i + |head|, v, indent, depth, more, rest);
    PrependHead(LexFrom(s, i), LexFrom(s, i + |head|), LexFrom(s, j),
      [StringTok(key), ColonTok], TokensOf(v), SeparatorTokens(more));
  }

  /** The parts of member line k, with the indent and the key first. */
  lemma MemberLineText(g: Node, indent: bytes, depth: nat, hideRaw: bool, k: nat)
    requires g.Group? && k < |g.members|
    ensures GroupItems(g, indent, depth, hideRaw, k)
         == (Repeat(indent, depth + 1) + KeyText(g.members[k].0))
            + (Stringify(g.members[k].1, indent, depth + 1, hideRaw) + Separator(k + 1 < |g.members|)
               + GroupItems(g, indent, depth, hideRaw, k + 1))
  {
  }

  /** The indent and the key of a member line. */
  lemma LexMemberHead(s: bytes, i: nat, key: bytes, indent: bytes, depth: nat)
    requires Verbatim(key) && Skipped(indent) && At(s, i, Repeat(indent, depth) + KeyText(key))
    ensures LexFrom(s, i) == Prepend([StringTok(key), ColonTok], LexFrom(s, i + |Repeat(indent, depth)| + |key| + 4))
  {
    AtSplit(s, i, Repeat(indent, depth), KeyText(key));
    LexIndentAt(s, i, indent, depth);
    LexKeyAt(s, i + |Repeat(indent, depth)|, key);
  }

  /** The start of a member line after the indent: the key in quotes, a
      colon and a space. */
  function KeyText(key: bytes): (r: bytes)
    ensures |r| == |key| + 4
  {
    [QUOTE] + key + [QUOTE, COLON, SPACE]
  }

  /** A verbatim key in quotes, the colon and the space lex to the key's
      STRING token and a COLON token. */
  lemma LexKeyAt(s: bytes, i: nat, key: bytes)
    requires Verbatim(key) && At(s, i, KeyText(key))
    ensures LexFrom(s, i) == Prepend([StringTok(key), ColonTok], LexFrom(s, i + |key| + 4))
  {
    var quoted := [QUOTE] + key + [QUOTE];
    assert KeyText(key) == quoted + [COLON, SPACE];
    AtSplit(s, i, quoted, [COLON, SPACE]);
    AtElement(s, i + |quoted|, [COLON, SPACE], 0);
    AtElement(s, i + |quoted|, [COLON, SPACE], 1);
    LexVerbatimAt(s, i, key);
    LexPunctAt(s, i + |quoted|);
    LexIgnoredRun(s, i + |quoted| + 1, i + |quoted| + 2);
    PrependPrepend([StringTok(key)], [ColonTok], LexFrom(s, i + |key| + 4));
    assert [StringTok(key)] + [ColonTok] == [StringTok(key), ColonTok];
  }

  // ---------------------------------------------------------------------------
  // The whole text

  /** The text of a reparseable tree lexes to the tree's tokens and the end
      of the stream. */
  lemma LexStringify(t: Node, indent: bytes)
    requires Reparseable(t) && Skipped(indent)
    ensures Lex(Stringify(t, indent, 0, false)) == Ok(TokensOf(t) + [EndOfStreamTok])
  {
    var s := Stringify(t, indent, 0, false);
    AtWhole(s);
    LexNodeAt(s, 0, t, indent, 0);
    LexFromEnd(s);
  }

  /** Parsing the text `stringify_unit` writes for a reparseable tree gives
      the tree back. */
  lemma StringifyRoundTrip(t: Node, indent: bytes)
    requires Reparseable(t) && Skipped(indent)
    ensures ParseText(Stringify(t, indent, 0, false)) == Ok(t)
  {
    LexStringify(t, indent);
    ParseTokensOf(t);
  }

  /** The default indent is four spaces, which the lexer skips. */
  lemma DefaultIndentSkipped()
    ensures Skipped(DEFAULT_INDENT)
  {
    assert forall b :: b in DEFAULT_INDENT ==> b == SPACE;
  }

  /** `clone` of a tree without RAW nodes whose text reads back gives an
      equal tree. */
  lemma CloneRoundTrip(t: Node)
    requires Reparseable(t) && !HasRaw(t)
    ensures Clone(t) == Ok(t)
  {
    DefaultIndentSkipped();
    StringifyRoundTrip(t, DEFAULT_INDENT);
  }

  /** `to_string` of a reparseable tree without RAW nodes parses back to the
      tree. */
  lemma ToStringRoundTrip(t: Node, indent: bytes)
    requires Reparseable(t) && !HasRaw(t) && Skipped(indent)
    ensures ParseText(ToString(t, indent)) == Ok(t)
  {
    StringifyRoundTrip(t, indent);
  }

  // ---------------------------------------------------------------------------
  // Summarised raw payloads

  /** The summary `to_string` writes for a RAW node, wherever it stands, is a
      lexing error: after the '(' the lexer expects a digit run up to the
      summary's ')', and finds the letters of the summary. */
  lemma LexRawSummaryAt(s: bytes, i: nat, n: nat)
    requires At(s, i, RawSummary(n))
    ensures LexFrom(s, i).Err? && LexFrom(s, i).error.RawBadLength?
  {
    var r := RawSummary(n);
    assert r[1] == 'r' as int && r[|r| - 1] == RPAREN;
    AtElement(s, i, r, 0);
    AtElement(s, i, r, 1);
    AtElement(s, i, r, |r| - 1);
    assert s[i + 1..][|r| - 2] == RPAREN;
    var close := Find(s, i + 1, RPAREN);
    assert close < |s|;
    assert s[i + 1..close][0] == s[i + 1];
    LexFromStep(s, i);
  }

  /** The text `to_string` writes for a reparseable tree that holds a RAW
      node does not lex: the first RAW node's summary stops the lexer, and
      everything before it is plain text. */
  lemma {:induction false} LexHiddenAt(s: bytes, i: nat, t: Node, indent: bytes, depth: nat)
    requires Reparseable(t) && HasRaw(t) && Skipped(indent)
    requires At(s, i, Stringify(t, indent, depth, true))
    ensures LexFrom(s, i).Err? && LexFrom(s, i).error.RawBadLength?
    decreases t, 2
  {
    if t.Raw? {
      LexRawSummaryAt(s, i, |t.data|);
    } else if t.Array? {
      var items := ArrayItems(t, indent, depth, true, 0);
      BlockAt(s, i, LBRACKET, items, Repeat(indent, depth), RBRACKET);
      LexOpenAt(s, i, LBRACKET);
      LexHiddenItemsAt(s, i + 2, t, indent, depth, 0);
      PrependErr(LexFrom(s, i), LexFrom(s, i + 2), [LsbTok, EndLineTok]);
    } else {
      var items := GroupItems(t, indent, depth, true, 0);
      BlockAt(s, i, LBRACE, items, Repeat(indent, depth), RBRACE);
      LexOpenAt(s, i, LBRACE);
      LexHiddenMembersAt(s, i + 2, t, indent, depth, 0);
      PrependErr(LexFrom(s, i), LexFrom(s, i + 2), [BeginTok, EndLineTok]);
    }
  }

  /** The element lines of an ARRAY from element k on, when one of them holds
      a RAW node. */
  lemma {:induction false} LexHiddenItemsAt(s: bytes, i: nat, a: Node, indent: bytes, depth: nat, k: nat)
    requires a.Array? && Reparseable(a) && Skipped(indent) && k <= |a.elements|
    requires exists j :: k <= j < |a.elements| && HasRaw(a.elements[j])
    requires At(s, i, ArrayItems(a, indent, depth, true, k))
    ensures LexFrom(s, i).Err? && LexFrom(s, i).error.RawBadLength?
    decreases a, 0, |a.elements| - k
  {
    var w :| k <= w < |a.elements| && HasRaw(a.elements[w]);
    var e := a.elements[k];
    var more := k + 1 < |a.elements|;
    var rest := ArrayItems(a, indent, depth, true, k + 1);
    assert Reparseable(e);
    ItemLineText(a, indent, depth, true, k);
    if HasRaw(e) {
      LexHiddenLine(s, i, e, indent, depth + 1, more, rest);
    } else {
      assert k + 1 <= w;
      var j := LexPlainLine(s, i, e, indent, depth + 1, more, rest);
      LexHiddenItemsAt(s, j, a, indent, depth, k + 1);
      PrependErr(LexFrom(s, i), LexFrom(s, j), TokensOf(e) + SeparatorTokens(more));
    }
  }

  /** A line whose value holds a RAW node: the indent, then the summary
      text of the value, which does not lex. */
  lemma {:induction false} LexHiddenLine(s: bytes, i: nat, e: Node, indent: bytes, depth: nat, more: bool, rest: bytes)
    requires Reparseable(e) && HasRaw(e) && Skipped(indent)
    requires At(s, i, Repeat(indent, depth) + (Stringify(e, indent, depth, true) + Separator(more) + rest))
    ensures LexFrom(s, i).Err? && LexFrom(s, i).error.RawBadLength?
    decreases e, 3
  {
    var pad := Repeat(indent, depth);
    var text := Stringify(e, indent, depth, true);
    AtSplit(s, i, pad, text + Separator(more) + rest);
    AtSplit(s, i + |pad|, text + Separator(more), rest);
    AtSplit(s, i + |pad|, text, Separator(more));
    LexIndentAt(s, i, indent, depth);
    LexHiddenAt(s, i + |pad|, e, indent, depth);
  }

  /** A line whose value holds no RAW node: its summary text is its plain
      text, which lexes to the value's tokens. */
  lemma LexPlainLine(s: bytes, i: nat, e: Node, indent: bytes, depth: nat, more: bool, rest: bytes) returns (j: nat)
    requires Reparseable(e) && !HasRaw(e) && Skipped(indent)
    requires At(s, i, Repeat(indent, depth) + (Stringify(e, indent, depth, true) + Separator(more) + rest))
    ensures At(s, j, rest)
    ensures LexFrom(s, i) == Prepend(TokensOf(e) + SeparatorTokens(more), LexFrom(s, j))
  {
    HiddenIsPlain(e, indent, depth);
    j := LexItemText(s, i, e, indent, depth, more, rest);
  }

  /** The member lines of a GROUP from member k on, when one of them holds a
      RAW node. */
  lemma {:induction false} LexHiddenMembersAt(s: bytes, i: nat, g: Node, indent: bytes, depth: nat, k: nat)
    requires g.Group? && Reparseable(g) && Skipped(indent) && k <= |g.members|
    requires exists j :: k <= j < |g.members| && HasRaw(g.members[j].1)
    requires At(s, i, GroupItems(g, indent, depth, true, k))
    ensures LexFrom(s, i).Err? && LexFrom(s, i).error.RawBadLength?
    decreases g, 0, |g.members| - k
  {
    var w :| k <= w < |g.members| && HasRaw(g.members[w].1);
    var key := g.members[k].0;
    var v := g.members[k].1;
    var more := k + 1 < |g.members|;
    var rest := GroupItems(g, indent, depth, true, k + 1);
    MemberParts(g, k);
    MemberLineText(g, indent, depth, true, k);
    if HasRaw(v) {
      LexHiddenMember(s, i, key, v, indent, depth + 1, more, rest);
    } else {
      assert k + 1 <= w;
      var j := LexPlainMember(s, i, key, v, indent, depth + 1, more, rest);
      LexHiddenMembersAt(s, j, g, indent, depth, k + 1);
      PrependErr(LexFrom(s, i), LexFrom(s, j), [StringTok(key), ColonTok] + TokensOf(v) + SeparatorTokens(more));
    }
  }

  /** Member k of a reparseable GROUP: a verbatim key and a reparseable
      value. */
  lemma MemberParts(g: Node, k: nat)
    requires g.Group? && Reparseable(g) && k < |g.members|
    ensures Verbatim(g.members[k].0) && Reparseable(g.members[k].1)
  {
  }

  /** A member line whose value holds a RAW node: the indent and the key,
      then the summary text of the value, which does not lex. */
  lemma {:induction false} LexHiddenMember(s: bytes, i: nat, key: bytes, v: Node, indent: bytes, depth: nat, more: bool,
                                           rest: bytes)
    requires Verbatim(key) && Reparseable(v) && HasRaw(v) && Skipped(indent)
    requires At(s, i, (Repeat(indent, depth) + KeyText(key)) + (Stringify(v, indent, depth, true) + Separator(more) + rest))
    ensures LexFrom(s, i).Err? && LexFrom(s, i).error.RawBadLength?
    decreases v, 3
  {
    var head := Repeat(indent, depth) + KeyText(key);
    var text := Stringify(v, indent, depth, true);
    AtSplit(s, i, head, text + Separator(more) + rest);
    AtSplit(s, i + |head|, text + Separator(more), rest);
    AtSplit(s, i + |head|, text, Separator(more));
    LexMemberHead(s, i, key, indent, depth);
    LexHiddenAt(s, i + |head|, v, indent, depth);
    PrependErr(LexFrom(s, i), LexFrom(s, i + |head|), [StringTok(key), ColonTok]);
  }

  /** A member line whose value holds no RAW node lexes to the key, the
      colon and the value's tokens. */
  lemma LexPlainMember(s: bytes, i: nat, key: bytes, v: Node, indent: bytes, depth: nat, more: bool, rest: bytes)
    returns (j: nat)
    requires Verbatim(key) && Reparseable(v) && !HasRaw(v) && Skipped(indent)
    requires At(s, i, (Repeat(indent, depth) + KeyText(key)) + (Stringify(v, indent, depth, true) + Separator(more) + rest))
    ensures At(s, j, rest)
    ensures LexFrom(s, i) == Prepend([StringTok(key), ColonTok] + TokensOf(v) + SeparatorTokens(more), LexFrom(s, j))
  {
    HiddenIsPlain(v, indent, depth);
    j := LexMemberText(s, i, key, v, indent, depth, more, rest);
  }

  /** `clone` of a reparseable tree that holds a RAW node anywhere fails:
      `to_string` summarises the payload and the summary does not lex. */
  lemma CloneFailsOnNestedRaw(t: Node)
    requires Reparseable(t) && HasRaw(t)
    ensures Clone(t).Err? && Clone(t).error.RawBadLength?
  {
    var s := ToString(t, DEFAULT_INDENT);
    AtWhole(s);
    DefaultIndentSkipped();
    LexHiddenAt(s, 0, t, DEFAULT_INDENT, 0);
  }

  /** The summary `to_string` writes for a RAW node does not lex: after the
      '(' the lexer expects a digit run, and finds the letters of the
      summary. */
  lemma LexRawSummary(n: nat)
    ensures Lex(RawSummary(n)).Err? && Lex(RawSummary(n)).error.RawBadLength?
  {
    var s := RawSummary(n);
    assert s[|s| - 1] == RPAREN;
    assert s[1] == 'r' as int;
    assert s[1..][|s| - 2] == RPAREN;
    var close := Find(s, 1, RPAREN);
    assert close < |s|;
    LexFromStep(s, 0);
  }

  /** `clone` of a RAW node fails: it parses the summary text, not the
      payload. */
  lemma CloneFailsOnRaw(data: bytes)
    ensures Clone(Raw(data)).Err? && Clone(Raw(data)).error.RawBadLength?
  {
    LexRawSummary(|data|);
  }

  // ---------------------------------------------------------------------------
  // Keys are written without escapes

  /** The key `a": 1}`, which holds a quote. */
  const QUOTED_KEY: bytes := ['a' as int, QUOTE, COLON, SPACE, '1' as int, RBRACE]

  /** What follows the quote inside that key, up to the end of the text. */
  const QUOTED_KEY_TAIL: bytes := [COLON, SPACE] + RawSummary(0) + [LF, RBRACE]

  /** The digit `1`. */
  const ONE: bytes := ['1' as int]

  /** The text `to_string` writes for the GROUP with the key `a": 1}` and an
      empty RAW value, cut where the lexer sees it: a brace, the indent, the
      key string `"a"` with a colon, the digit `1`, a brace, and a quote that
      opens a string running to the end. */
  function QuotedKeyText(): bytes {
    [LBRACE, LF] + Repeat(DEFAULT_INDENT, 1) + KeyText(KEY_A) + (ONE + [RBRACE]) + ([QUOTE] + QUOTED_KEY_TAIL)
  }

  /** The tokens of that text. */
  const QUOTED_KEY_TOKENS: seq<Token> :=
    [BeginTok, EndLineTok, StringTok(KEY_A), ColonTok, IntegerTok(1), EndTok, StringTok(QUOTED_KEY_TAIL),
     EndOfStreamTok]

  lemma QuotedKeyToString()
    ensures ToString(Group([(QUOTED_KEY, Raw([]))]), DEFAULT_INDENT) == QuotedKeyText()
  {
    var g := Group([(QUOTED_KEY, Raw([]))]);
    var pad := Repeat(DEFAULT_INDENT, 1);
    assert GroupItems(g, DEFAULT_INDENT, 0, true, 1) == [];
    assert Stringify(Raw([]), DEFAULT_INDENT, 1, true) == RawSummary(0);
    var items := pad + [QUOTE] + QUOTED_KEY + [QUOTE, COLON, SPACE] + RawSummary(0) + [LF];
    assert GroupItems(g, DEFAULT_INDENT, 0, true, 0) == items;
    assert ToString(g, DEFAULT_INDENT) == [LBRACE, LF] + items + [RBRACE];
    assert [QUOTE] + QUOTED_KEY + [QUOTE, COLON, SPACE] == KeyText(KEY_A) + ['1' as int, RBRACE] + [QUOTE, COLON, SPACE];
  }

  lemma LexQuotedKeyText()
    ensures Lex(QuotedKeyText()) == Ok(QUOTED_KEY_TOKENS)
  {
    var s := QuotedKeyText();
    var a := [LBRACE, LF];
    var b := Repeat(DEFAULT_INDENT, 1);
    var c := KeyText(KEY_A);
    var d := ONE + [RBRACE];
    var e := [QUOTE] + QUOTED_KEY_TAIL;
    AtWhole(s);
    AtSplit(s, 0, a + b + c + d, e);
    AtSplit(s, 0, a + b + c, d);
    AtSplit(s, 0, a + b, c);
    AtSplit(s, 0, a, b);
    QuotedKeyTailVerbatim();
    LexQuotedKeyPieces(s, QUOTED_KEY_TAIL);
  }

  /** The lexing of that text, from where its pieces stand, for any verbatim
      tail after the stray quote. */
  lemma LexQuotedKeyPieces(s: bytes, tail: bytes)
    requires Verbatim(tail)
    requires At(s, 0, [LBRACE, LF]) && At(s, 2, Repeat(DEFAULT_INDENT, 1)) && At(s, 6, KeyText(KEY_A))
    requires At(s, 11, ONE + [RBRACE]) && At(s, 13, [QUOTE] + tail) && |s| == 14 + |tail|
    ensures LexFrom(s, 0) == Ok([BeginTok, EndLineTok, StringTok(KEY_A), ColonTok, IntegerTok(1), EndTok, StringTok(tail), EndOfStreamTok])
  {
    LexQuotedKeyMember(s, tail);
    var r6 := [StringTok(KEY_A), ColonTok, IntegerTok(1), EndTok, StringTok(tail), EndOfStreamTok];
    DefaultIndentSkipped();
    assert |Repeat(DEFAULT_INDENT, 1)| == 4;
    LexIndentAt(s, 2, DEFAULT_INDENT, 1);
    assert LexFrom(s, 2) == Ok(r6);
    LexOpenAt(s, 0, LBRACE);
    assert PunctToken(LBRACE) == BeginTok;
    assert LexFrom(s, 0) == Ok([BeginTok, EndLineTok] + r6);
    assert [BeginTok, EndLineTok] + r6 == [BeginTok, EndLineTok, StringTok(KEY_A), ColonTok, IntegerTok(1), EndTok, StringTok(tail), EndOfStreamTok];
  }

  /** From the key on: the key string, the colon, `1`, the brace, and the
      string the stray quote opens. */
  lemma LexQuotedKeyMember(s: bytes, tail: bytes)
    requires Verbatim(tail)
    requires At(s, 6, KeyText(KEY_A)) && At(s, 11, ONE + [RBRACE]) && At(s, 13, [QUOTE] + tail) && |s| == 14 + |tail|
    ensures LexFrom(s, 6) == Ok([StringTok(KEY_A), ColonTok, IntegerTok(1), EndTok, StringTok(tail), EndOfStreamTok])
  {
    assert Verbatim(KEY_A);
    assert |KEY_A| == 1 && DecimalValue(ONE) == 1;
    LexUnterminatedAt(s, 13, tail);
    var r13 := [StringTok(tail), EndOfStreamTok];
    AtSplit(s, 11, ONE, [RBRACE]);
    AtElement(s, 12, [RBRACE], 0);
    LexPunctAt(s, 12);
    assert LexFrom(s, 12) == Ok([EndTok] + r13);
    LexDigitsAt(s, 11, ONE);
    assert LexFrom(s, 11) == Ok([IntegerTok(1)] + ([EndTok] + r13));
    LexKeyAt(s, 6, KEY_A);
    assert LexFrom(s, 6) == Ok([StringTok(KEY_A), ColonTok] + ([IntegerTok(1)] + ([EndTok] + r13)));
    assert [StringTok(KEY_A), ColonTok] + ([IntegerTok(1)] + ([EndTok] + r13)) == [StringTok(KEY_A), ColonTok, IntegerTok(1), EndTok, StringTok(tail), EndOfStreamTok];
  }

  lemma QuotedKeyTailVerbatim()
    ensures Verbatim(QUOTED_KEY_TAIL)
  {
    var t := QUOTED_KEY_TAIL;
    assert RawSummary(0) == RAW_SUMMARY_OPEN + ['0' as int] + RAW_SUMMARY_CLOSE;
    assert t == [COLON, SPACE] + RAW_SUMMARY_OPEN + ['0' as int] + RAW_SUMMARY_CLOSE + [LF, RBRACE];
  }

  lemma ParseQuotedKeyTokens()
    ensures ParseUnit(QUOTED_KEY_TOKENS, 0) == Ok((Group([(KEY_A, Int(1))]), 6))
  {
    var toks := QUOTED_KEY_TOKENS;
    UnitAt(toks, 4, 4);
    MemberLine(toks, 2, KEY_A, Int(1), 5);
    MembersEnd(toks, 2, [], KEY_A, Int(1), 5, 5);
    assert Insert([], KEY_A, Int(1)) == [(KEY_A, Int(1))];
    GroupAt(toks, 0, 2);
    UnitAt(toks, 0, 0);
  }

  /** `clone` of a GROUP whose key holds a quote and whose value is RAW
      succeeds, with a different tree: keys are written without escapes, so
      the key string closes at the quote, `1` and `}` end the group, and the
      summary that would have failed sits in a string after the value, which
      `parse_unit` never reads. */
  lemma CloneMisreadsQuotedKey()
    ensures Clone(Group([(QUOTED_KEY, Raw([]))])) == Ok(Group([(KEY_A, Int(1))]))
  {
    QuotedKeyToString();
    LexQuotedKeyText();
    ParseQuotedKeyTokens();
  }
}
