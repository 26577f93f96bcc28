/** The parser reads back the token stream of a serialized tree.

    `TokensOf(t)` is the token stream the lexer makes of the text
    `stringify_unit` writes for `t` (with raw payloads written out): the line
    breaks of the multi-line layout become END_LINE tokens, the indentation
    makes none. This module proves that `parse_unit` turns that stream back
    into `t`, whatever tokens follow it. */
module TokenRoundTrip {
  import opened Bytes
  import opened Seqs
  import opened Tables
  import opened Tokens
  import opened Results
  import opened Lexer
  import opened LexerProps
  import opened Parser
  import opened ParserProps

  /** The trees whose text reads back as themselves: integers are not
      negative (the lexer has no minus sign), strings are ASCII, and keys,
      which the serializer does not escape, are ASCII without a quote or a
      backslash. A GROUP's members ascend by key, as a `std::map` keeps them. */
  predicate Reparseable(t: Node)
    decreases t, 1
  {
    match t
    case Int(v) => v >= 0
    case Str(x) => IsAscii(x)
    case Raw(_) => true
    case Array(es) => forall i :: 0 <= i < |es| ==> Reparseable(es[i])
    case Group(m) => Ascending(m) && forall i :: 0 <= i < |m| ==> Verbatim(m[i].0) && Reparseable(m[i].1)
  }

  /** A token `parse_unit` accepts as the start of a value. */
  predicate StartsValue(t: Token) {
    t.IntegerTok? || t.StringTok? || t.RawDataTok? || t == LsbTok || t == BeginTok
  }

  /** The token stream of the text of `t`. */
  function TokensOf(t: Node): (r: seq<Token>)
    ensures |r| >= 1 && StartsValue(r[0])
    decreases t, 2
  {
    match t
    case Int(v) => [IntegerTok(if v < 0 then -v else v)]
    case Str(x) => [StringTok(x)]
    case Raw(data) => [RawDataTok(data)]
    case Array(es) => [LsbTok, EndLineTok] + ItemTokens(t, 0) + [RsbTok]
    case Group(_) => [BeginTok, EndLineTok] + MemberTokens(t, 0) + [EndTok]
  }

  /** The tokens of the element lines of an ARRAY from element k on. */
  function ItemTokens(a: Node, k: nat): (r: seq<Token>)
    requires a.Array? && k <= |a.elements|
    ensures k < |a.elements| ==> |r| >= 2 && StartsValue(r[0])
    decreases a, 0, |a.elements| - k
  {
    if k == |a.elements| then []
    else
      TokensOf(a.elements[k])
      + (if k + 1 < |a.elements| then [CommaTok, EndLineTok] else [EndLineTok])
      + ItemTokens(a, k + 1)
  }

  /** The tokens of the member lines of a GROUP from member k on. */
  function MemberTokens(g: Node, k: nat): (r: seq<Token>)
    requires g.Group? && k <= |g.members|
    ensures k < |g.members| ==> |r| >= 3 && r[0] == StringTok(g.members[k].0)
    decreases g, 0, |g.members| - k
  {
    if k == |g.members| then []
    else
      [StringTok(g.members[k].0), ColonTok]
      + TokensOf(g.members[k].1)
      + (if k + 1 < |g.members| then [CommaTok, EndLineTok] else [EndLineTok])
      + MemberTokens(g, k + 1)
  }

  // ---------------------------------------------------------------------------
  // The token stream of a tree, node by node

  /** The number of tokens of `t`, counted along the tree. */
  ghost function Width(t: Node): nat
    decreases t, 2, 2
  {
    WidthOn(t)
  }

  /** `Width`, `WidthOn` and `WidthOf` are layers of one definition, so that
      a proof meets the count of a node's parts only where it asks for it
      through `WidthStep`. */
  ghost function WidthOn(t: Node): nat
    decreases t, 2, 1
  {
    WidthOf(t)
  }

  ghost function WidthOf(t: Node): nat
    decreases t, 2, 0
  {
    match t
    case Array(_) => 3 + ItemsWidth(t, 0)
    case Group(_) => 3 + MembersWidth(t, 0)
    case _ => 1
  }

  lemma WidthStep(t: Node)
    ensures Width(t) == WidthOf(t)
  {
    assert Width(t) == WidthOn(t);
  }

  ghost function ItemsWidth(a: Node, k: nat): nat
    requires a.Array? && k <= |a.elements|
    decreases a, 1, |a.elements| - k
  {
    if k == |a.elements| then 0
    else Width(a.elements[k]) + (if k + 1 < |a.elements| then 2 else 1) + ItemsWidth(a, k + 1)
  }

  ghost function MembersWidth(g: Node, k: nat): nat
    requires g.Group? && k <= |g.members|
    decreases g, 1, |g.members| - k
  {
    if k == |g.members| then 0
    else 2 + Width(g.members[k].1) + (if k + 1 < |g.members| then 2 else 1) + MembersWidth(g, k + 1)
  }

  lemma {:induction false} WidthIsLength(t: Node)
    ensures Width(t) == |TokensOf(t)|
    decreases t, 2
  {
    WidthStep(t);
    match t
    case Array(_) => ItemsWidthIsLength(t, 0);
    case Group(_) => MembersWidthIsLength(t, 0);
    case _ =>
  }

  lemma {:induction false} ItemsWidthIsLength(a: Node, k: nat)
    requires a.Array? && k <= |a.elements|
    ensures ItemsWidth(a, k) == |ItemTokens(a, k)|
    decreases a, 1, |a.elements| - k
  {
    if k < |a.elements| {
      WidthIsLength(a.elements[k]);
      ItemsWidthIsLength(a, k + 1);
    }
  }

  lemma {:induction false} MembersWidthIsLength(g: Node, k: nat)
    requires g.Group? && k <= |g.members|
    ensures MembersWidth(g, k) == |MemberTokens(g, k)|
    decreases g, 1, |g.members| - k
  {
    if k < |g.members| {
      WidthIsLength(g.members[k].1);
      MembersWidthIsLength(g, k + 1);
    }
  }

  /** The tokens of `t` stand in `toks` from p on, described along the
      tree; integers are not negative and members ascend by key. */
  ghost predicate NodeAt(toks: seq<Token>, p: nat, t: Node)
    decreases t, 2, 2
  {
    p < |toks| && NodeAtOn(toks, p, t)
  }

  /** `NodeAt`, `NodeAtOn` and `NodeLayout` are layers of one definition, so
      that a proof meets the layout of a node's tokens only where it asks for
      it through `NodeAtStep`. */
  ghost predicate NodeAtOn(toks: seq<Token>, p: nat, t: Node)
    decreases t, 2, 1
  {
    NodeLayout(toks, p, t)
  }

  ghost predicate NodeLayout(toks: seq<Token>, p: nat, t: Node)
    decreases t, 2, 0
  {
    p < |toks| &&
    match t
    case Int(v) => v >= 0 && toks[p] == IntegerTok(v)
    case Str(x) => toks[p] == StringTok(x)
    case Raw(data) => toks[p] == RawDataTok(data)
    case Array(_) => p + 1 < |toks| && toks[p] == LsbTok && toks[p + 1] == EndLineTok && ItemsAt(toks, p + 2, t, 0)
    case Group(m) => Ascending(m) && p + 1 < |toks| && toks[p] == BeginTok && toks[p + 1] == EndLineTok && MembersAt(toks, p + 2, t, 0)
  }

  lemma NodeAtStep(toks: seq<Token>, p: nat, t: Node)
    ensures NodeAt(toks, p, t) <==> NodeLayout(toks, p, t)
  {
    assert NodeAt(toks, p, t) <==> NodeAtOn(toks, p, t);
  }

  /** The element lines of an ARRAY from element k on, the last one
      followed by `]`. */
  ghost predicate ItemsAt(toks: seq<Token>, p: nat, a: Node, k: nat)
    requires a.Array? && k <= |a.elements|
    decreases a, 1, |a.elements| - k
  {
    if k == |a.elements| then p < |toks| && toks[p] == RsbTok
    else if k + 1 < |a.elements| then
      NextItemAt(toks, p, a.elements[k]) && ItemsAt(toks, p + Width(a.elements[k]) + 2, a, k + 1)
    else LastItemAt(toks, p, a.elements[k])
  }

  /** The last line of an ARRAY: an element, a line break, then `]`. */
  ghost predicate LastItemAt(toks: seq<Token>, p: nat, e: Node)
    decreases e, 3
  {
    var q := p + Width(e);
    NodeAt(toks, p, e) && q + 1 < |toks| && toks[q] == EndLineTok && toks[q + 1] == RsbTok
  }

  /** An element line with more after it: an element, a comma and a line
      break. */
  ghost predicate NextItemAt(toks: seq<Token>, p: nat, e: Node)
    decreases e, 3
  {
    var q := p + Width(e);
    NodeAt(toks, p, e) && q + 1 < |toks| && toks[q] == CommaTok && toks[q + 1] == EndLineTok
  }

  /** The member lines of a GROUP from member k on, the last one followed by
      `}`. */
  ghost predicate MembersAt(toks: seq<Token>, p: nat, g: Node, k: nat)
    requires g.Group? && k <= |g.members|
    decreases g, 1, |g.members| - k
  {
    if k == |g.members| then p < |toks| && toks[p] == EndTok
    else if k + 1 < |g.members| then
      NextMemberAt(toks, p, g.members[k].0, g.members[k].1)
      && MembersAt(toks, p + Width(g.members[k].1) + 4, g, k + 1)
    else LastMemberAt(toks, p, g.members[k].0, g.members[k].1)
  }

  /** A key, `:` and a value. */
  ghost predicate PairAt(toks: seq<Token>, p: nat, key: bytes, v: Node)
    decreases v, 3
  {
    p + 1 < |toks| && toks[p] == StringTok(key) && toks[p + 1] == ColonTok && NodeAt(toks, p + 2, v)
  }

  /** The last line of a GROUP: a member, a line break, then `}`. */
  ghost predicate LastMemberAt(toks: seq<Token>, p: nat, key: bytes, v: Node)
    decreases v, 4
  {
    var q := p + 2 + Width(v);
    PairAt(toks, p, key, v) && q + 1 < |toks| && toks[q] == EndLineTok && toks[q + 1] == EndTok
  }

  /** A member line with more after it: a member, a comma and a line
      break. */
  ghost predicate NextMemberAt(toks: seq<Token>, p: nat, key: bytes, v: Node)
    decreases v, 4
  {
    var q := p + 2 + Width(v);
    PairAt(toks, p, key, v) && q + 1 < |toks| && toks[q] == CommaTok && toks[q + 1] == EndLineTok
  }

  /** The first token of a node starts a value. */
  lemma NodeStarts(toks: seq<Token>, p: nat, t: Node)
    requires NodeAt(toks, p, t)
    ensures p < |toks| && StartsValue(toks[p])
  {
    NodeAtStep(toks, p, t);
  }

  // ---------------------------------------------------------------------------
  // From the token sequence to the description along the tree

  /** A bracketed block: the opening token, a line break, the body and the
      closing token. */
  lemma BracketLayout(toks: seq<Token>, p: nat, open: Token, body: seq<Token>, close: Token)
    requires At(toks, p, [open, EndLineTok] + body + [close])
    ensures p + 2 + |body| < |toks| && toks[p] == open && toks[p + 1] == EndLineTok
    ensures toks[p + 2 + |body|] == close && At(toks, p + 2, body)
  {
    AtSplit(toks, p, [open, EndLineTok] + body, [close]);
    AtSplit(toks, p, [open, EndLineTok], body);
    AtElement(toks, p, [open, EndLineTok], 0);
    AtElement(toks, p, [open, EndLineTok], 1);
    AtElement(toks, p + 2 + |body|, [close], 0);
  }

  /** A line: a value, its separator, and the lines after it. */
  lemma LineLayout(toks: seq<Token>, p: nat, value: seq<Token>, sep: seq<Token>, rest: seq<Token>)
    requires |sep| >= 1 && At(toks, p, value + sep + rest)
    ensures At(toks, p, value) && At(toks, p + |value| + |sep|, rest)
    ensures toks[p + |value|] == sep[0] && toks[p + |value| + |sep| - 1] == sep[|sep| - 1]
  {
    AtSplit(toks, p, value + sep, rest);
    AtSplit(toks, p, value, sep);
    AtElement(toks, p + |value|, sep, 0);
    AtElement(toks, p + |value|, sep, |sep| - 1);
  }

  /** A member line: the key, `:`, the value, its separator, and the lines
      after it. */
  lemma MemberLayout(toks: seq<Token>, p: nat, key: bytes, value: seq<Token>, sep: seq<Token>, rest: seq<Token>)
    requires |sep| >= 1 && At(toks, p, [StringTok(key), ColonTok] + value + sep + rest)
    ensures p + 1 < |toks| && toks[p] == StringTok(key) && toks[p + 1] == ColonTok
    ensures At(toks, p + 2, value) && At(toks, p + 2 + |value| + |sep|, rest)
    ensures toks[p + 2 + |value|] == sep[0] && toks[p + 2 + |value| + |sep| - 1] == sep[|sep| - 1]
  {
    var head: seq<Token> := [StringTok(key), ColonTok];
    assert head + value + sep + rest == head + (value + sep + rest);
    AtSplit(toks, p, head, value + sep + rest);
    AtElement(toks, p, head, 0);
    AtElement(toks, p, head, 1);
    LineLayout(toks, p + 2, value, sep, rest);
  }

  lemma {:induction false} NodeAtOf(toks: seq<Token>, p: nat, t: Node)
    requires Reparseable(t) && At(toks, p, TokensOf(t))
    ensures NodeAt(toks, p, t)
    decreases t, 3
  {
    match t
    case Int(_) => AtElement(toks, p, TokensOf(t), 0);
    case Str(_) => AtElement(toks, p, TokensOf(t), 0);
    case Raw(_) => AtElement(toks, p, TokensOf(t), 0);
    case Array(_) => ArrayAtOf(toks, p, t);
    case Group(_) => GroupAtOf(toks, p, t);
  }

  lemma {:induction false} ArrayAtOf(toks: seq<Token>, p: nat, a: Node)
    requires a.Array? && Reparseable(a) && At(toks, p, TokensOf(a))
    ensures NodeAt(toks, p, a)
    decreases a, 2
  {
    BracketLayout(toks, p, LsbTok, ItemTokens(a, 0), RsbTok);
    ItemsAtOf(toks, p + 2, a, 0);
  }

  lemma {:induction false} GroupAtOf(toks: seq<Token>, p: nat, g: Node)
    requires g.Group? && Reparseable(g) && At(toks, p, TokensOf(g))
    ensures NodeAt(toks, p, g)
    decreases g, 2
  {
    BracketLayout(toks, p, BeginTok, MemberTokens(g, 0), EndTok);
    MembersAtOf(toks, p + 2, g, 0);
  }

  lemma {:induction false} ItemsAtOf(toks: seq<Token>, p: nat, a: Node, k: nat)
    requires a.Array? && Reparseable(a) && k <= |a.elements|
    requires At(toks, p, ItemTokens(a, k))
    requires p + |ItemTokens(a, k)| < |toks| && toks[p + |ItemTokens(a, k)|] == RsbTok
    ensures ItemsAt(toks, p, a, k)
    decreases a, 1, |a.elements| - k
  {
    if k < |a.elements| {
      var e := a.elements[k];
      var sep: seq<Token> := if k + 1 < |a.elements| then [CommaTok, EndLineTok] else [EndLineTok];
      LineLayout(toks, p, TokensOf(e), sep, ItemTokens(a, k + 1));
      WidthIsLength(e);
      NodeAtOf(toks, p, e);
      ItemsAtOf(toks, p + |TokensOf(e)| + |sep|, a, k + 1);
    }
  }

  lemma {:induction false} MembersAtOf(toks: seq<Token>, p: nat, g: Node, k: nat)
    requires g.Group? && Reparseable(g) && k <= |g.members|
    requires At(toks, p, MemberTokens(g, k))
    requires p + |MemberTokens(g, k)| < |toks| && toks[p + |MemberTokens(g, k)|] == EndTok
    ensures MembersAt(toks, p, g, k)
    decreases g, 1, |g.members| - k, 1
  {
    if k < |g.members| {
      var q := MemberLineOf(toks, p, g, k);
      if k + 1 < |g.members| {
        MembersAtOf(toks, q + 2, g, k + 1);
      }
    }
  }

  /** Member line k of the tokens of a GROUP, and where the next one
      starts. */
  lemma {:induction false} MemberLineOf(toks: seq<Token>, p: nat, g: Node, k: nat) returns (q: nat)
    requires g.Group? && Reparseable(g) && k < |g.members|
    requires At(toks, p, MemberTokens(g, k))
    ensures q == p + 2 + Width(g.members[k].1) && PairAt(toks, p, g.members[k].0, g.members[k].1)
    ensures k + 1 < |g.members| ==>
      && q + 1 < |toks| && toks[q] == CommaTok && toks[q + 1] == EndLineTok
      && At(toks, q + 2, MemberTokens(g, k + 1)) && p + |MemberTokens(g, k)| == q + 2 + |MemberTokens(g, k + 1)|
    ensures k + 1 == |g.members| ==>
      q < |toks| && toks[q] == EndLineTok && p + |MemberTokens(g, k)| == q + 1
    decreases g, 1, |g.members| - k, 0
  {
    var (key, v) := g.members[k];
    assert Verbatim(key) && Reparseable(v);
    var sep: seq<Token> := if k + 1 < |g.members| then [CommaTok, EndLineTok] else [EndLineTok];
    MemberLayout(toks, p, key, TokensOf(v), sep, MemberTokens(g, k + 1));
    WidthIsLength(v);
    NodeAtOf(toks, p + 2, v);
    q := p + 2 + Width(v);
  }


  // ---------------------------------------------------------------------------
  // The parser reads the description back

  /** `parse_unit` reads the tokens of a tree back as the tree. */
  lemma {:induction false} ParseNode(toks: seq<Token>, p: nat, t: Node)
    requires NodeAt(toks, p, t)
    ensures ParseUnit(toks, p) == Ok((t, p + Width(t)))
    decreases t, 2, 1
  {
    WidthStep(t);
    NodeAtStep(toks, p, t);
    NodeStarts(toks, p, t);
    UnitAt(toks, p, p);
    match t
    case Int(_) =>
    case Str(_) =>
    case Raw(_) =>
    case Array(_) => ParseArrayNode(toks, p, t);
    case Group(_) => ParseGroupNode(toks, p, t);
  }

  lemma {:induction false} ParseArrayNode(toks: seq<Token>, p: nat, a: Node)
    requires a.Array? && NodeAt(toks, p, a)
    ensures ParseArray(toks, p) == Ok((a, p + Width(a)))
    decreases a, 1
  {
    ArrayLayout(toks, p, a);
    if |a.elements| == 0 {
      EmptyArrayNode(toks, p, a);
    } else {
      ParseItemsNode(toks, p, a);
    }
  }

  /** The tokens of an ARRAY: `[`, a line break, then the element lines. */
  lemma ArrayLayout(toks: seq<Token>, p: nat, a: Node)
    requires a.Array? && NodeAt(toks, p, a)
    ensures p + 1 < |toks| && toks[p] == LsbTok && toks[p + 1] == EndLineTok && ItemsAt(toks, p + 2, a, 0)
    ensures Width(a) == 3 + ItemsWidth(a, 0)
  {
    WidthStep(a);
    NodeAtStep(toks, p, a);
  }

  /** The tokens of a GROUP: `{`, a line break, then the member lines. */
  lemma GroupLayout(toks: seq<Token>, p: nat, g: Node)
    requires g.Group? && NodeAt(toks, p, g)
    ensures Ascending(g.members)
    ensures p + 1 < |toks| && toks[p] == BeginTok && toks[p + 1] == EndLineTok && MembersAt(toks, p + 2, g, 0)
    ensures Width(g) == 3 + MembersWidth(g, 0)
  {
    WidthStep(g);
    NodeAtStep(toks, p, g);
  }

  /** An empty ARRAY: `[`, a line break and `]`. */
  lemma EmptyArrayNode(toks: seq<Token>, p: nat, a: Node)
    requires a.Array? && |a.elements| == 0
    requires p + 1 < |toks| && toks[p] == LsbTok && toks[p + 1] == EndLineTok && ItemsAt(toks, p + 2, a, 0)
    ensures ParseArray(toks, p) == Ok((a, p + 3 + ItemsWidth(a, 0)))
  {
    EmptyArrayAt(toks, p, p + 2);
    assert Array([]) == a;
  }

  /** An empty GROUP: `{`, a line break and `}`. */
  lemma EmptyGroupNode(toks: seq<Token>, p: nat, g: Node)
    requires g.Group? && |g.members| == 0
    requires p + 1 < |toks| && toks[p] == BeginTok && toks[p + 1] == EndLineTok && MembersAt(toks, p + 2, g, 0)
    ensures ParseGroup(toks, p) == Ok((g, p + 3 + MembersWidth(g, 0)))
  {
    EmptyGroupAt(toks, p, p + 2);
    assert Group([]) == g;
  }

  /** A non-empty ARRAY: `[`, a line break, then the element lines. */
  lemma ParseItemsNode(toks: seq<Token>, p: nat, a: Node)
    requires a.Array? && |a.elements| > 0
    requires p + 1 < |toks| && toks[p] == LsbTok && toks[p + 1] == EndLineTok && ItemsAt(toks, p + 2, a, 0)
    ensures ParseArray(toks, p) == Ok((a, p + 3 + ItemsWidth(a, 0)))
    decreases a, 0, |a.elements| + 1
  {
    ItemFirst(toks, p + 2, a, 0);
    ParseItems(toks, p + 2, a, 0);
    assert a.elements[0..] == a.elements;
    ArrayClose(toks, p, a.elements, p + 2 + ItemsWidth(a, 0));
  }

  /** `[`, a line break, element lines that the loop reads, and `]`. */
  lemma ArrayClose(toks: seq<Token>, p: nat, es: seq<Node>, end: nat)
    requires p + 2 < |toks| && toks[p] == LsbTok && toks[p + 1] == EndLineTok && StartsValue(toks[p + 2])
    requires ParseElements(toks, p + 2) == Ok((es, end)) && end < |toks| && toks[end] == RsbTok
    ensures ParseArray(toks, p) == Ok((Array(es), end + 1))
  {
    ArrayAt(toks, p, p + 2);
  }

  /** The loop of `parse_array` reads the element lines from element k on
      and stops on the `]` after them. */
  lemma {:induction false} ParseItems(toks: seq<Token>, p: nat, a: Node, k: nat)
    requires a.Array? && k < |a.elements| && ItemsAt(toks, p, a, k)
    ensures p + ItemsWidth(a, k) < |toks| && toks[p + ItemsWidth(a, k)] == RsbTok
    ensures ParseElements(toks, p) == Ok((a.elements[k..], p + ItemsWidth(a, k)))
    decreases a, 0, |a.elements| - k
  {
    if k + 1 == |a.elements| {
      LastItems(toks, p, a, k);
    } else {
      var e := a.elements[k];
      NextItemLine(toks, p, a, k);
      ParseItems(toks, p + Width(e) + 2, a, k + 1);
      NextItems(toks, p, a, k, p + Width(e) + 2 + ItemsWidth(a, k + 1));
    }
  }

  /** `ParseItems` on the last element line. */
  lemma LastItems(toks: seq<Token>, p: nat, a: Node, k: nat)
    requires a.Array? && k + 1 == |a.elements| && ItemsAt(toks, p, a, k)
    ensures p + ItemsWidth(a, k) < |toks| && toks[p + ItemsWidth(a, k)] == RsbTok
    ensures ParseElements(toks, p) == Ok((a.elements[k..], p + ItemsWidth(a, k)))
    decreases a, 0, 0
  {
    LastItemLine(toks, p, a, k);
    LastItem(toks, p, a.elements[k]);
  }

  /** `ParseItems` on an element line with more after it, given the rest. */
  lemma NextItems(toks: seq<Token>, p: nat, a: Node, k: nat, end: nat)
    requires a.Array? && k + 1 < |a.elements| && NextItemAt(toks, p, a.elements[k])
    requires ParseElements(toks, p + Width(a.elements[k]) + 2) == Ok((a.elements[k + 1..], end))
    ensures ParseElements(toks, p) == Ok((a.elements[k..], end))
    decreases a, 0, 0
  {
    NextItem(toks, p, a.elements[k], a.elements[k + 1..], end);
    assert a.elements[k..] == [a.elements[k]] + a.elements[k + 1..];
  }

  /** An element line starts with the element. */
  lemma ItemFirst(toks: seq<Token>, p: nat, a: Node, k: nat)
    requires a.Array? && k < |a.elements| && ItemsAt(toks, p, a, k)
    ensures NodeAt(toks, p, a.elements[k])
    ensures p < |toks| && StartsValue(toks[p])
  {
    if k + 1 < |a.elements| {
      assert NextItemAt(toks, p, a.elements[k]);
    } else {
      assert LastItemAt(toks, p, a.elements[k]);
    }
    NodeStarts(toks, p, a.elements[k]);
  }

  /** The last element line, as the description along the tree gives it. */
  lemma LastItemLine(toks: seq<Token>, p: nat, a: Node, k: nat)
    requires a.Array? && k + 1 == |a.elements| && ItemsAt(toks, p, a, k)
    ensures LastItemAt(toks, p, a.elements[k])
    ensures ItemsWidth(a, k) == Width(a.elements[k]) + 1 && a.elements[k..] == [a.elements[k]]
  {
  }

  /** An element line followed by more, as the description along the tree
      gives it. */
  lemma NextItemLine(toks: seq<Token>, p: nat, a: Node, k: nat)
    requires a.Array? && k + 1 < |a.elements| && ItemsAt(toks, p, a, k)
    ensures NextItemAt(toks, p, a.elements[k])
    ensures ItemsAt(toks, p + Width(a.elements[k]) + 2, a, k + 1)
    ensures ItemsWidth(a, k) == Width(a.elements[k]) + 2 + ItemsWidth(a, k + 1)
    ensures a.elements[k..] == [a.elements[k]] + a.elements[k + 1..]
  {
  }

  /** The last element line: the loop reads the element and stops on the
      `]`. */
  lemma {:induction false} LastItem(toks: seq<Token>, p: nat, e: Node)
    requires LastItemAt(toks, p, e)
    ensures ParseElements(toks, p) == Ok(([e], p + Width(e) + 1))
    decreases e, 3
  {
    ParseNode(toks, p, e);
    ElementsAtEnd(toks, p, e, p + Width(e));
  }

  /** An element line followed by more: the loop reads the element and goes
      on after the comma and the line break. */
  lemma {:induction false} NextItem(toks: seq<Token>, p: nat, e: Node, rest: seq<Node>, end: nat)
    requires NextItemAt(toks, p, e) && ParseElements(toks, p + Width(e) + 2) == Ok((rest, end))
    ensures ParseElements(toks, p) == Ok(([e] + rest, end))
    decreases e, 3
  {
    ParseNode(toks, p, e);
    ElementsAfterComma(toks, p, e, p + Width(e), rest, end);
  }

  lemma {:induction false} ParseGroupNode(toks: seq<Token>, p: nat, g: Node)
    requires g.Group? && NodeAt(toks, p, g)
    ensures ParseGroup(toks, p) == Ok((g, p + Width(g)))
    decreases g, 1
  {
    GroupLayout(toks, p, g);
    if |g.members| == 0 {
      EmptyGroupNode(toks, p, g);
    } else {
      ParseMembersOf(toks, p, g);
    }
  }

  /** A non-empty GROUP: `{`, a line break, then the member lines. */
  lemma ParseMembersOf(toks: seq<Token>, p: nat, g: Node)
    requires g.Group? && Ascending(g.members) && |g.members| > 0
    requires p + 1 < |toks| && toks[p] == BeginTok && toks[p + 1] == EndLineTok && MembersAt(toks, p + 2, g, 0)
    ensures ParseGroup(toks, p) == Ok((g, p + 3 + MembersWidth(g, 0)))
    decreases g, 0, |g.members| + 1
  {
    MemberFirst(toks, p + 2, g, 0);
    ParseMembersNode(toks, p + 2, g, 0);
    assert g.members[..0] == [];
    GroupClose(toks, p, g.members, p + 2 + MembersWidth(g, 0));
  }

  /** `{`, a line break, member lines that the loop reads, and `}`. */
  lemma GroupClose(toks: seq<Token>, p: nat, m: Table<Node>, end: nat)
    requires p + 2 < |toks| && toks[p] == BeginTok && toks[p + 1] == EndLineTok && toks[p + 2].StringTok?
    requires ParseMembers(toks, p + 2, []) == Ok((m, end)) && end < |toks| && toks[end] == EndTok
    ensures ParseGroup(toks, p) == Ok((Group(m), end + 1))
  {
    GroupAt(toks, p, p + 2);
  }

  /** The loop of `parse_group` reads the member lines from member k on,
      inserting each into the table of the members before k, and stops on
      the `}` after them with the whole table. */
  lemma {:induction false} ParseMembersNode(toks: seq<Token>, p: nat, g: Node, k: nat)
    requires g.Group? && Ascending(g.members) && k < |g.members| && MembersAt(toks, p, g, k)
    ensures p + MembersWidth(g, k) < |toks| && toks[p + MembersWidth(g, k)] == EndTok
    ensures ParseMembers(toks, p, g.members[..k]) == Ok((g.members, p + MembersWidth(g, k)))
    decreases g, 0, |g.members| - k
  {
    if k + 1 == |g.members| {
      LastMembersNode(toks, p, g, k);
    } else {
      NextMembersStep(toks, p, g, k);
      ParseMembersNode(toks, p + Width(g.members[k].1) + 4, g, k + 1);
    }
  }

  /** The last member line completes the table and ends on the `}`. */
  lemma LastMembersNode(toks: seq<Token>, p: nat, g: Node, k: nat)
    requires g.Group? && Ascending(g.members) && k + 1 == |g.members| && MembersAt(toks, p, g, k)
    ensures p + MembersWidth(g, k) < |toks| && toks[p + MembersWidth(g, k)] == EndTok
    ensures ParseMembers(toks, p, g.members[..k]) == Ok((g.members, p + MembersWidth(g, k)))
    decreases g, 0, 0
  {
    var (key, v) := g.members[k];
    InsertInOrder(g.members, k);
    LastMemberLine(toks, p, g, k);
    LastMember(toks, p, key, v, g.members[..k]);
    assert g.members[..k + 1] == g.members;
  }

  /** A member line followed by more adds member k to the table and leaves
      the loop at the next line. */
  lemma NextMembersStep(toks: seq<Token>, p: nat, g: Node, k: nat)
    requires g.Group? && Ascending(g.members) && k + 1 < |g.members| && MembersAt(toks, p, g, k)
    ensures p + Width(g.members[k].1) + 4 <= |toks|
    ensures MembersAt(toks, p + Width(g.members[k].1) + 4, g, k + 1)
    ensures MembersWidth(g, k) == Width(g.members[k].1) + 4 + MembersWidth(g, k + 1)
    ensures ParseMembers(toks, p, g.members[..k]) == ParseMembers(toks, p + Width(g.members[k].1) + 4, g.members[..k + 1])
    decreases g, 0, 0
  {
    var (key, v) := g.members[k];
    InsertInOrder(g.members, k);
    NextMemberLine(toks, p, g, k);
    NextMember(toks, p, key, v, g.members[..k]);
  }

  /** A member line starts with the key. */
  lemma MemberFirst(toks: seq<Token>, p: nat, g: Node, k: nat)
    requires g.Group? && k < |g.members| && MembersAt(toks, p, g, k)
    ensures p < |toks| && toks[p] == StringTok(g.members[k].0)
  {
    var (key, v) := g.members[k];
    if k + 1 < |g.members| {
      assert NextMemberAt(toks, p, key, v);
    } else {
      assert LastMemberAt(toks, p, key, v);
    }
    assert PairAt(toks, p, key, v);
  }

  /** The last member line, as the description along the tree gives it. */
  lemma LastMemberLine(toks: seq<Token>, p: nat, g: Node, k: nat)
    requires g.Group? && k + 1 == |g.members| && MembersAt(toks, p, g, k)
    ensures LastMemberAt(toks, p, g.members[k].0, g.members[k].1)
    ensures MembersWidth(g, k) == Width(g.members[k].1) + 3
  {
  }

  /** A member line followed by more, as the description along the tree
      gives it. */
  lemma NextMemberLine(toks: seq<Token>, p: nat, g: Node, k: nat)
    requires g.Group? && k + 1 < |g.members| && MembersAt(toks, p, g, k)
    ensures NextMemberAt(toks, p, g.members[k].0, g.members[k].1)
    ensures MembersAt(toks, p + Width(g.members[k].1) + 4, g, k + 1)
    ensures MembersWidth(g, k) == Width(g.members[k].1) + 4 + MembersWidth(g, k + 1)
  {
  }

  /** A key, `:` and the tokens of a value: `parse_group` reads them as one
      member. */
  lemma {:induction false} FirstMember(toks: seq<Token>, p: nat, key: bytes, v: Node)
    requires p + 1 < |toks| && toks[p] == StringTok(key) && toks[p + 1] == ColonTok && NodeAt(toks, p + 2, v)
    ensures ParseMember(toks, p) == Ok((key, v, p + 2 + Width(v)))
    decreases v, 3
  {
    var e := ParseNodeEnd(toks, p + 2, v);
    MemberLine(toks, p, key, v, e);
  }

  /** `ParseNode`, with the position after the node named. */
  lemma ParseNodeEnd(toks: seq<Token>, p: nat, t: Node) returns (e: nat)
    requires NodeAt(toks, p, t)
    ensures e == p + Width(t) && ParseUnit(toks, p) == Ok((t, e))
    decreases t, 2, 2
  {
    NodeStarts(toks, p, t);
    ParseNode(toks, p, t);
    e := p + Width(t);
  }

  /** The last member line: the loop inserts it and stops on the `}`. */
  lemma {:induction false} LastMember(toks: seq<Token>, p: nat, key: bytes, v: Node, table: Table<Node>)
    requires LastMemberAt(toks, p, key, v)
    ensures ParseMembers(toks, p, table) == Ok((Insert(table, key, v), p + Width(v) + 3))
    decreases v, 4
  {
    FirstMember(toks, p, key, v);
    MembersAtEnd(toks, p, table, key, v, p + 2 + Width(v));
  }

  /** A member line followed by more: the loop inserts it and goes on with
      the rest from the updated table. */
  lemma {:induction false} NextMember(toks: seq<Token>, p: nat, key: bytes, v: Node, table: Table<Node>)
    requires NextMemberAt(toks, p, key, v)
    ensures ParseMembers(toks, p, table) == ParseMembers(toks, p + Width(v) + 4, Insert(table, key, v))
    decreases v, 4
  {
    FirstMember(toks, p, key, v);
    MembersAfterComma(toks, p, table, key, v, p + 2 + Width(v));
  }

  /** `parse_unit` at the start of the tokens of a reparseable tree, followed
      by the end of the stream, gives the tree and stops at the end. */
  lemma ParseTokensOf(t: Node)
    requires Reparseable(t)
    ensures ParseUnit(TokensOf(t) + [EndOfStreamTok], 0) == Ok((t, |TokensOf(t)|))
  {
    AtConcat(TokensOf(t), [EndOfStreamTok]);
    ParseTokensAt(TokensOf(t) + [EndOfStreamTok], t);
  }

  lemma ParseTokensAt(toks: seq<Token>, t: Node)
    requires Reparseable(t) && At(toks, 0, TokensOf(t))
    ensures ParseUnit(toks, 0) == Ok((t, |TokensOf(t)|))
  {
    NodeAtOf(toks, 0, t);
    ParseWidth(toks, t, |TokensOf(t)|);
  }

  lemma ParseWidth(toks: seq<Token>, t: Node, n: nat)
    requires NodeAt(toks, 0, t) && n == |TokensOf(t)|
    ensures ParseUnit(toks, 0) == Ok((t, n))
  {
    WidthIsLength(t);
    var e := ParseNodeEnd(toks, 0, t);
  }
}
