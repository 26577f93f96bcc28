/** Properties of the token cursor and the parser: END_LINE tokens are
    invisible, empty containers, the first-wins rule for repeated keys, and
    the errors for a trailing comma and for tokens that start no value. */
module ParserProps {
  import opened Bytes
  import opened Seqs
  import opened Tokens
  import opened Results
  import opened Tables
  import opened Parser

  /** `LinesBetween` holds exactly when every token in the range is
      END_LINE. */
  lemma {:induction false} LinesBetweenAll(toks: seq<Token>, p: nat, q: nat)
    requires q <= |toks|
    ensures LinesBetween(toks, p, q) <==> forall k :: p <= k < q ==> toks[k] == EndLineTok
    decreases q - p
  {
    if p < q {
      LinesBetweenAll(toks, p + 1, q);
    }
  }

  /** `TokenStream::current` fails exactly when only END_LINE tokens are left
      from the cursor on; otherwise it returns the first other token. */
  lemma CurrentSpec(toks: seq<Token>, p: nat)
    requires p <= |toks|
    ensures Current(toks, p).Ok? <==> exists k :: p <= k < |toks| && toks[k] != EndLineTok
    ensures Current(toks, p).Ok? ==> forall k :: p <= k < Current(toks, p).value.1 ==> toks[k] == EndLineTok
  {
    LinesBetweenAll(toks, p, SkipLines(toks, p));
  }

  /** `TokenStream::match` succeeds exactly when the current token carries
      the tag, and then moves one past it; otherwise it reports the tag it
      found, or the exhausted stream. */
  lemma MatchSpec(toks: seq<Token>, p: nat, tag: Tag)
    requires p <= |toks|
    ensures Match(toks, p, tag).Ok? <==> Current(toks, p).Ok? && Current(toks, p).value.0.TagOf() == tag
    ensures Match(toks, p, tag).Ok? ==> Match(toks, p, tag).value == Current(toks, p).value.1 + 1
    ensures Match(toks, p, tag).Err? ==>
      Match(toks, p, tag).error == if Current(toks, p).Ok? then Unmatched(tag, Current(toks, p).value.0.TagOf()) else StreamExhausted
  {
  }

  /** `t` extends `table` as a `std::map`: its keys ascend, and every key of
      `table` finds in it the value it finds in `table`. */
  ghost predicate Extends(t: Table<Node>, table: Table<Node>) {
    Ascending(t) && forall k :: HasKey(table, k) ==> Lookup(t, k) == Lookup(table, k)
  }

  /** The loop of `parse_group` keeps the table a `std::map` and never changes
      a member already in it. */
  lemma {:induction false} MembersKeepTable(toks: seq<Token>, p: nat, table: Table<Node>)
    requires p <= |toks| && Ascending(table)
    ensures ParseMembers(toks, p, table).Ok? ==> Extends(ParseMembers(toks, p, table).value.0, table)
    decreases |toks| - p
  {
    var m := ParseMember(toks, p);
    if m.Ok? {
      var (key, v, q) := m.value;
      var table' := Insert(table, key, v);
      InsertAscending(table, key, v);
      forall k | HasKey(table, k)
        ensures Lookup(table', k) == Lookup(table, k)
      {
        InsertLookup(table, key, v, k);
      }
      var c := Current(toks, q);
      if c.Ok? && c.value.0 == CommaTok {
        MembersKeepTable(toks, c.value.1 + 1, table');
        var r := ParseMembers(toks, c.value.1 + 1, table');
        if r.Ok? {
          forall k | HasKey(table, k)
            ensures Lookup(r.value.0, k) == Lookup(table, k)
          {
            assert Lookup(table, k).Some?;
            assert HasKey(table', k);
          }
        }
      }
    }
  }

  /** An END_LINE token under the cursor changes nothing: `current` and
      `match` skip it, and so does every parse function, as each starts with
      one of them. */
  lemma CurrentSkipsLine(toks: seq<Token>, p: nat, tag: Tag)
    requires p < |toks| && toks[p] == EndLineTok
    ensures Current(toks, p) == Current(toks, p + 1)
    ensures Match(toks, p, tag) == Match(toks, p + 1, tag)
  {
    assert SkipLines(toks, p) == SkipLines(toks, p + 1);
  }

  lemma UnitSkipsLine(toks: seq<Token>, p: nat)
    requires p < |toks| && toks[p] == EndLineTok
    ensures ParseUnit(toks, p) == ParseUnit(toks, p + 1)
  {
    ParseUnitStep(toks, p);
    ParseUnitStep(toks, p + 1);
    CurrentSkipsLine(toks, p, EndTag);
  }

  lemma ContainerSkipsLine(toks: seq<Token>, p: nat)
    requires p < |toks| && toks[p] == EndLineTok
    ensures ParseArray(toks, p) == ParseArray(toks, p + 1)
    ensures ParseGroup(toks, p) == ParseGroup(toks, p + 1)
  {
    CurrentSkipsLine(toks, p, LsbTag);
    CurrentSkipsLine(toks, p, BeginTag);
  }

  lemma LoopSkipsLine(toks: seq<Token>, p: nat, table: Table<Node>)
    requires p < |toks| && toks[p] == EndLineTok
    ensures ParseElements(toks, p) == ParseElements(toks, p + 1)
    ensures ParseMember(toks, p) == ParseMember(toks, p + 1)
    ensures ParseMembers(toks, p, table) == ParseMembers(toks, p + 1, table)
  {
    ElementsSkipLine(toks, p);
    MemberSkipsLine(toks, p);
    MembersSkipLine(toks, p, table);
  }

  lemma ElementsSkipLine(toks: seq<Token>, p: nat)
    requires p < |toks| && toks[p] == EndLineTok
    ensures ParseElements(toks, p) == ParseElements(toks, p + 1)
  {
    UnitSkipsLine(toks, p);
  }

  lemma MemberSkipsLine(toks: seq<Token>, p: nat)
    requires p < |toks| && toks[p] == EndLineTok
    ensures ParseMember(toks, p) == ParseMember(toks, p + 1)
  {
    CurrentSkipsLine(toks, p, StringTag);
  }

  lemma MembersSkipLine(toks: seq<Token>, p: nat, table: Table<Node>)
    requires p < |toks| && toks[p] == EndLineTok
    ensures ParseMembers(toks, p, table) == ParseMembers(toks, p + 1, table)
  {
    MemberSkipsLine(toks, p);
  }

  /** Any run of END_LINE tokens before a value is skipped. */
  lemma {:induction false} LineRunSkipped(toks: seq<Token>, p: nat, q: nat)
    requires p <= q <= |toks|
    requires forall k :: p <= k < q ==> toks[k] == EndLineTok
    ensures ParseUnit(toks, p) == ParseUnit(toks, q)
    decreases q - p
  {
    if p < q {
      UnitSkipsLine(toks, p);
      LineRunSkipped(toks, p + 1, q);
    }
  }

  /** At most one END_LINE token lies between p and q: the gaps in the
      token stream of the multi-line layout. */
  predicate Blank(toks: seq<Token>, p: nat, q: nat) {
    p == q || (p + 1 == q && p < |toks| && toks[p] == EndLineTok)
  }

  /** The cursor at p reaches the token at q across a blank. */
  lemma CurrentAt(toks: seq<Token>, p: nat, q: nat)
    requires p <= q < |toks| && toks[q] != EndLineTok && Blank(toks, p, q)
    ensures Current(toks, p) == Ok((toks[q], q))
  {
    assert SkipLines(toks, p) == q;
  }

  /** What `parse_unit` does with the token the cursor reaches: a scalar
      token is the value, `[` and `{` hand over to `parse_array` and
      `parse_group` at the bracket. */
  lemma UnitAt(toks: seq<Token>, p: nat, q: nat)
    requires p <= q < |toks| && toks[q] != EndLineTok && Blank(toks, p, q)
    ensures toks[q].IntegerTok? ==> ParseUnit(toks, p) == Ok((Int(toks[q].value), q + 1))
    ensures toks[q].StringTok? ==> ParseUnit(toks, p) == Ok((Str(toks[q].text), q + 1))
    ensures toks[q].RawDataTok? ==> ParseUnit(toks, p) == Ok((Raw(toks[q].data), q + 1))
    ensures toks[q] == LsbTok ==> ParseUnit(toks, p) == ParseArray(toks, q)
    ensures toks[q] == BeginTok ==> ParseUnit(toks, p) == ParseGroup(toks, q)
  {
    ParseUnitStep(toks, p);
    CurrentAt(toks, p, q);
  }

  /** `parse_array` on `[` followed by `]`. */
  lemma EmptyArrayAt(toks: seq<Token>, p: nat, q: nat)
    requires p < q < |toks| && toks[p] == LsbTok && toks[q] == RsbTok && Blank(toks, p + 1, q)
    ensures ParseArray(toks, p) == Ok((Array([]), q + 1))
  {
    CurrentAt(toks, p, p);
    CurrentAt(toks, p + 1, q);
  }

  /** `parse_array` on `[` followed by a list of values that stops on `]`. */
  lemma ArrayAt(toks: seq<Token>, p: nat, q: nat)
    requires p < q < |toks| && toks[p] == LsbTok && toks[q] != EndLineTok && toks[q] != RsbTok && Blank(toks, p + 1, q)
    requires ParseElements(toks, q).Ok?
    requires ParseElements(toks, q).value.1 < |toks| && toks[ParseElements(toks, q).value.1] == RsbTok
    ensures ParseArray(toks, p) == Ok((Array(ParseElements(toks, q).value.0), ParseElements(toks, q).value.1 + 1))
  {
    CurrentAt(toks, p, p);
    CurrentAt(toks, p + 1, q);
    var e := ParseElements(toks, q).value.1;
    CurrentAt(toks, e, e);
  }

  /** The loop of `parse_array` after a value: a token other than a comma
      ends the list. */
  lemma ElementsEnd(toks: seq<Token>, p: nat, v: Node, e: nat, f: nat)
    requires p <= |toks| && ParseUnit(toks, p) == Ok((v, e))
    requires e <= f < |toks| && toks[f] != EndLineTok && toks[f] != CommaTok && Blank(toks, e, f)
    ensures ParseElements(toks, p) == Ok(([v], f))
  {
    CurrentAt(toks, e, f);
  }

  /** The loop of `parse_array` after a value: a comma continues the list. */
  lemma ElementsNext(toks: seq<Token>, p: nat, v: Node, e: nat, f: nat, rest: seq<Node>, end: nat)
    requires p <= |toks| && ParseUnit(toks, p) == Ok((v, e))
    requires e <= f < |toks| && toks[f] == CommaTok && Blank(toks, e, f)
    requires ParseElements(toks, f + 1) == Ok((rest, end))
    ensures ParseElements(toks, p) == Ok(([v] + rest, end))
  {
    CurrentAt(toks, e, f);
  }

  /** The loop of `parse_array` after a value followed by a comma and a line
      break goes on after the line break. */
  lemma ElementsAfterComma(toks: seq<Token>, p: nat, v: Node, e: nat, rest: seq<Node>, end: nat)
    requires p <= |toks| && ParseUnit(toks, p) == Ok((v, e))
    requires e + 1 < |toks| && toks[e] == CommaTok && toks[e + 1] == EndLineTok
    requires ParseElements(toks, e + 2) == Ok((rest, end))
    ensures ParseElements(toks, p) == Ok(([v] + rest, end))
  {
    LoopSkipsLine(toks, e + 1, []);
    ElementsNext(toks, p, v, e, e, rest, end);
  }

  /** The loop of `parse_array` after a value followed by a line break and
      `]` stops on the `]`. */
  lemma ElementsAtEnd(toks: seq<Token>, p: nat, v: Node, e: nat)
    requires p <= |toks| && ParseUnit(toks, p) == Ok((v, e))
    requires e + 1 < |toks| && toks[e] == EndLineTok && toks[e + 1] == RsbTok
    ensures ParseElements(toks, p) == Ok(([v], e + 1))
  {
    ElementsEnd(toks, p, v, e, e + 1);
  }

  /** `parse_group` on `{` followed by `}`. */
  lemma EmptyGroupAt(toks: seq<Token>, p: nat, q: nat)
    requires p < q < |toks| && toks[p] == BeginTok && toks[q] == EndTok && Blank(toks, p + 1, q)
    ensures ParseGroup(toks, p) == Ok((Group([]), q + 1))
  {
    CurrentAt(toks, p, p);
    CurrentAt(toks, p + 1, q);
  }

  /** `parse_group` on `{` followed by a list of members that stops on `}`. */
  lemma GroupAt(toks: seq<Token>, p: nat, q: nat)
    requires p < q < |toks| && toks[p] == BeginTok && toks[q] != EndLineTok && toks[q] != EndTok && Blank(toks, p + 1, q)
    requires ParseMembers(toks, q, []).Ok?
    requires ParseMembers(toks, q, []).value.1 < |toks| && toks[ParseMembers(toks, q, []).value.1] == EndTok
    ensures ParseGroup(toks, p) == Ok((Group(ParseMembers(toks, q, []).value.0), ParseMembers(toks, q, []).value.1 + 1))
  {
    CurrentAt(toks, p, p);
    CurrentAt(toks, p + 1, q);
    var e := ParseMembers(toks, q, []).value.1;
    CurrentAt(toks, e, e);
  }

  /** One member: a key the cursor reaches at q, a colon right after it,
      and a value. */
  lemma MemberAt(toks: seq<Token>, p: nat, q: nat, v: Node, e: nat)
    requires p <= q && q + 1 < |toks| && toks[q].StringTok? && toks[q + 1] == ColonTok && Blank(toks, p, q)
    requires ParseUnit(toks, q + 2) == Ok((v, e))
    ensures ParseMember(toks, p) == Ok((toks[q].text, v, e))
  {
    CurrentAt(toks, p, q);
    CurrentAt(toks, q + 1, q + 1);
  }

  /** The loop of `parse_group` after a member: it is inserted first-wins,
      and a token other than a comma ends the list. */
  lemma MembersEnd(toks: seq<Token>, p: nat, table: Table<Node>, key: bytes, v: Node, e: nat, f: nat)
    requires p <= |toks| && ParseMember(toks, p) == Ok((key, v, e))
    requires e <= f < |toks| && toks[f] != EndLineTok && toks[f] != CommaTok && Blank(toks, e, f)
    ensures ParseMembers(toks, p, table) == Ok((Insert(table, key, v), f))
  {
    CurrentAt(toks, e, f);
  }

  /** The loop of `parse_group` after a member: it is inserted first-wins,
      and a comma continues the list. */
  lemma MembersNext(toks: seq<Token>, p: nat, table: Table<Node>, key: bytes, v: Node, e: nat, f: nat)
    requires p <= |toks| && ParseMember(toks, p) == Ok((key, v, e))
    requires e <= f < |toks| && toks[f] == CommaTok && Blank(toks, e, f)
    ensures ParseMembers(toks, p, table) == ParseMembers(toks, f + 1, Insert(table, key, v))
  {
    CurrentAt(toks, e, f);
  }

  /** A key, a colon and a value, with the cursor on the key. */
  lemma MemberLine(toks: seq<Token>, p: nat, key: bytes, v: Node, e: nat)
    requires p + 1 < |toks| && toks[p] == StringTok(key) && toks[p + 1] == ColonTok
    requires ParseUnit(toks, p + 2) == Ok((v, e))
    ensures ParseMember(toks, p) == Ok((key, v, e))
  {
    MemberAt(toks, p, p, v, e);
  }

  /** The loop of `parse_group` after a member followed by a line break and
      `}`: the member is inserted and the loop stops on the `}`. */
  lemma MembersAtEnd(toks: seq<Token>, p: nat, table: Table<Node>, key: bytes, v: Node, e: nat)
    requires p <= |toks| && ParseMember(toks, p) == Ok((key, v, e))
    requires e + 1 < |toks| && toks[e] == EndLineTok && toks[e + 1] == EndTok
    ensures ParseMembers(toks, p, table) == Ok((Insert(table, key, v), e + 1))
  {
    MembersEnd(toks, p, table, key, v, e, e + 1);
  }

  /** The loop of `parse_group` after a member followed by a comma and a line
      break: the member is inserted and the loop goes on after the line
      break. */
  lemma MembersAfterComma(toks: seq<Token>, p: nat, table: Table<Node>, key: bytes, v: Node, e: nat)
    requires p <= |toks| && ParseMember(toks, p) == Ok((key, v, e))
    requires e + 1 < |toks| && toks[e] == CommaTok && toks[e + 1] == EndLineTok
    ensures ParseMembers(toks, p, table) == ParseMembers(toks, e + 2, Insert(table, key, v))
  {
    LoopSkipsLine(toks, e + 1, Insert(table, key, v));
    MembersNext(toks, p, table, key, v, e, e);
  }

  /** A token that starts no value: `parse_unit` reports it. */
  lemma NotAValueAt(toks: seq<Token>, p: nat)
    requires p < |toks|
    requires toks[p] in {EndTok, RsbTok, CommaTok, ColonTok, EndOfStreamTok}
    ensures ParseUnit(toks, p) == Err(NotAValue(toks[p].TagOf()))
  {
    ParseUnitStep(toks, p);
  }

  /** The cursor at p reaches the token at q across any run of END_LINE
      tokens. */
  lemma CurrentAcross(toks: seq<Token>, p: nat, q: nat)
    requires p <= q < |toks| && toks[q] != EndLineTok
    requires forall k :: p <= k < q ==> toks[k] == EndLineTok
    ensures Current(toks, p) == Ok((toks[q], q))
  {
    LinesBetweenAll(toks, p, SkipLines(toks, p));
  }

  /** `[` `]` is the empty ARRAY and `{` `}` the empty GROUP, with any number
      of END_LINE tokens between the brackets. */
  lemma EmptyContainers(toks: seq<Token>, p: nat, q: nat)
    requires p < q < |toks| && forall k :: p < k < q ==> toks[k] == EndLineTok
    ensures toks[p] == LsbTok && toks[q] == RsbTok ==> ParseUnit(toks, p) == Ok((Array([]), q + 1))
    ensures toks[p] == BeginTok && toks[q] == EndTok ==> ParseUnit(toks, p) == Ok((Group([]), q + 1))
  {
    ParseUnitStep(toks, p);
    if toks[p] in {LsbTok, BeginTok} && toks[q] in {RsbTok, EndTok} {
      CurrentAt(toks, p, p);
      CurrentAcross(toks, p + 1, q);
    }
  }

  /** A group that `parse_group` builds is a `std::map`: its keys ascend. */
  lemma GroupAscends(toks: seq<Token>, p: nat)
    requires p <= |toks|
    ensures ParseGroup(toks, p).Ok? ==> Ascending(ParseGroup(toks, p).value.0.members)
  {
    var m := Match(toks, p, BeginTag);
    if m.Ok? {
      var c := Current(toks, m.value);
      if c.Ok? && c.value.0 != EndTok {
        MembersKeepTable(toks, c.value.1, []);
      }
    }
  }

  // ---------------------------------------------------------------------------
  // Syntax errors

  /** The loop of `parse_array` ends only on a token that is neither a comma
      nor END_LINE. */
  lemma {:induction false} ElementsStop(toks: seq<Token>, p: nat)
    requires p <= |toks|
    ensures ParseElements(toks, p).Ok? ==>
      var f := ParseElements(toks, p).value.1;
      f < |toks| && toks[f] != EndLineTok && toks[f] != CommaTok
    decreases |toks| - p
  {
    var u := ParseUnit(toks, p);
    if u.Ok? {
      var c := Current(toks, u.value.1);
      if c.Ok? && c.value.0 == CommaTok {
        ElementsStop(toks, c.value.1 + 1);
      }
    }
  }

  /** The loop of `parse_group` ends only on a token that is neither a comma
      nor END_LINE. */
  lemma {:induction false} MembersStop(toks: seq<Token>, p: nat, table: Table<Node>)
    requires p <= |toks|
    ensures ParseMembers(toks, p, table).Ok? ==>
      var f := ParseMembers(toks, p, table).value.1;
      f < |toks| && toks[f] != EndLineTok && toks[f] != CommaTok
    decreases |toks| - p
  {
    var m := ParseMember(toks, p);
    if m.Ok? {
      var (key, v, e) := m.value;
      var c := Current(toks, e);
      if c.Ok? && c.value.0 == CommaTok {
        MembersStop(toks, c.value.1 + 1, Insert(table, key, v));
      }
    }
  }

  /** A value, a comma, and then `]`: `]` starts no value, so the list fails. */
  lemma ElementsTrailingComma(toks: seq<Token>, p: nat, v: Node, e: nat, f: nat)
    requires p <= |toks| && ParseUnit(toks, p) == Ok((v, e))
    requires Current(toks, e) == Ok((CommaTok, f))
    requires Current(toks, f + 1).Ok? && Current(toks, f + 1).value.0 == RsbTok
    ensures ParseElements(toks, p) == Err(NotAValue(RsbTag))
  {
    ParseUnitStep(toks, f + 1);
  }

  /** A value and a comma, and a list after it that fails: the whole list
      fails with the same error. */
  lemma ElementsFailLater(toks: seq<Token>, p: nat, v: Node, e: nat, f: nat)
    requires p <= |toks| && ParseUnit(toks, p) == Ok((v, e))
    requires Current(toks, e) == Ok((CommaTok, f))
    requires ParseElements(toks, f + 1).Err?
    ensures ParseElements(toks, p) == Err(ParseElements(toks, f + 1).error)
  {
  }

  /** `[`, and a list of values that fails: `parse_array` fails with the
      list's error. */
  lemma ArrayListFails(toks: seq<Token>, p: nat, q: nat, t: Token, q': nat)
    requires p <= |toks| && Match(toks, p, LsbTag) == Ok(q)
    requires Current(toks, q) == Ok((t, q')) && t != RsbTok
    requires ParseElements(toks, q').Err?
    ensures ParseArray(toks, p) == Err(ParseElements(toks, q').error)
  {
  }

  /** `[` and a list of values that stops on a token other than `]`: the
      `]` is missing, and the token found is reported. */
  lemma ArrayMissingBracket(toks: seq<Token>, p: nat, q: nat, t: Token, q': nat, es: seq<Node>, f: nat)
    requires p <= |toks| && Match(toks, p, LsbTag) == Ok(q)
    requires Current(toks, q) == Ok((t, q')) && t != RsbTok
    requires ParseElements(toks, q') == Ok((es, f)) && f < |toks| && toks[f] != RsbTok
    ensures ParseArray(toks, p) == Err(Unmatched(RsbTag, toks[f].TagOf()))
  {
    ElementsStop(toks, q');
    CurrentAt(toks, f, f);
  }

  /** A member, a comma, and then `}`: `}` is not a key, so the list fails. */
  lemma MembersTrailingComma(toks: seq<Token>, p: nat, table: Table<Node>, key: bytes, v: Node, e: nat, f: nat)
    requires p <= |toks| && ParseMember(toks, p) == Ok((key, v, e))
    requires Current(toks, e) == Ok((CommaTok, f))
    requires Current(toks, f + 1).Ok? && Current(toks, f + 1).value.0 == EndTok
    ensures ParseMembers(toks, p, table) == Err(Unmatched(StringTag, EndTag))
  {
    assert ParseMember(toks, f + 1) == Err(Unmatched(StringTag, EndTag));
  }

  /** A member and a comma, and members after it that fail: the whole list
      fails with the same error. */
  lemma MembersFailLater(toks: seq<Token>, p: nat, table: Table<Node>, key: bytes, v: Node, e: nat, f: nat)
    requires p <= |toks| && ParseMember(toks, p) == Ok((key, v, e))
    requires Current(toks, e) == Ok((CommaTok, f))
    requires ParseMembers(toks, f + 1, Insert(table, key, v)).Err?
    ensures ParseMembers(toks, p, table) == Err(ParseMembers(toks, f + 1, Insert(table, key, v)).error)
  {
  }

  /** `{`, and a list of members that fails: `parse_group` fails with the
      list's error. */
  lemma GroupListFails(toks: seq<Token>, p: nat, q: nat, t: Token, q': nat)
    requires p <= |toks| && Match(toks, p, BeginTag) == Ok(q)
    requires Current(toks, q) == Ok((t, q')) && t != EndTok
    requires ParseMembers(toks, q', []).Err?
    ensures ParseGroup(toks, p) == Err(ParseMembers(toks, q', []).error)
  {
  }

  /** `{` and a list of members that stops on a token other than `}`: the
      `}` is missing, and the token found is reported. */
  lemma GroupMissingBrace(toks: seq<Token>, p: nat, q: nat, t: Token, q': nat, table: Table<Node>, f: nat)
    requires p <= |toks| && Match(toks, p, BeginTag) == Ok(q)
    requires Current(toks, q) == Ok((t, q')) && t != EndTok
    requires ParseMembers(toks, q', []) == Ok((table, f)) && f < |toks| && toks[f] != EndTok
    ensures ParseGroup(toks, p) == Err(Unmatched(EndTag, toks[f].TagOf()))
  {
    MembersStop(toks, q', []);
    CurrentAt(toks, f, f);
  }

  /** A key whose next token is not a colon: the colon is missing, and the
      token found is reported. */
  lemma MemberWithoutColon(toks: seq<Token>, p: nat, key: bytes, q: nat, t: Token, r: nat)
    requires p <= |toks| && Current(toks, p) == Ok((StringTok(key), q))
    requires Current(toks, q + 1) == Ok((t, r)) && t.TagOf() != ColonTag
    ensures ParseMember(toks, p) == Err(Unmatched(ColonTag, t.TagOf()))
  {
  }

  /** A member that fails fails the loop of `parse_group`. */
  lemma MembersFail(toks: seq<Token>, p: nat, table: Table<Node>)
    requires p <= |toks| && ParseMember(toks, p).Err?
    ensures ParseMembers(toks, p, table) == Err(ParseMember(toks, p).error)
  {
  }

  const KEY_A: bytes := ['a' as int]

  /** A group whose key "a" comes twice, first with 1 and then with 2. */
  const DUPLICATE_KEY: seq<Token> := [BeginTok, StringTok(KEY_A), ColonTok, IntegerTok(1), CommaTok,
                                      StringTok(KEY_A), ColonTok, IntegerTok(2), EndTok, EndOfStreamTok]

  /** The second "a" member meets a table that already holds "a". */
  lemma DuplicateKeyDropped()
    ensures ParseMembers(DUPLICATE_KEY, 5, [(KEY_A, Int(1))]) == Ok(([(KEY_A, Int(1))], 8))
  {
    var toks := DUPLICATE_KEY;
    var one := [(KEY_A, Int(1))];
    UnitAt(toks, 7, 7);
    MemberLine(toks, 5, KEY_A, Int(2), 8);
    MembersEnd(toks, 5, one, KEY_A, Int(2), 8, 8);
    assert Insert(one, KEY_A, Int(2)) == one;
  }

  /** `{"a": 1, "a": 2}`: `std::map::insert` keeps the first value. */
  lemma DuplicateKeyKeepsFirst()
    ensures ParseUnit(DUPLICATE_KEY, 0) == Ok((Group([(KEY_A, Int(1))]), 9))
  {
    var toks := DUPLICATE_KEY;
    var one := [(KEY_A, Int(1))];
    DuplicateKeyDropped();
    UnitAt(toks, 3, 3);
    MemberLine(toks, 1, KEY_A, Int(1), 4);
    MembersNext(toks, 1, [], KEY_A, Int(1), 4, 4);
    assert Insert([], KEY_A, Int(1)) == one;
    GroupAt(toks, 0, 1);
    UnitAt(toks, 0, 0);
  }

  /** A comma before `]` is an error: `]` starts no value. */
  lemma ArrayTrailingCommaExample()
    ensures ParseUnit([LsbTok, IntegerTok(1), CommaTok, RsbTok, EndOfStreamTok], 0) == Err(NotAValue(RsbTag))
  {
    var toks := [LsbTok, IntegerTok(1), CommaTok, RsbTok, EndOfStreamTok];
    CurrentAt(toks, 0, 0);
    CurrentAt(toks, 1, 1);
    CurrentAt(toks, 2, 2);
    CurrentAt(toks, 3, 3);
    UnitAt(toks, 1, 1);
    ElementsTrailingComma(toks, 1, Int(1), 2, 2);
    ArrayListFails(toks, 0, 1, IntegerTok(1), 1);
    ParseUnitStep(toks, 0);
  }

  /** A comma before `}` is an error: `}` is not a key. */
  lemma GroupTrailingCommaExample()
    ensures ParseUnit([BeginTok, StringTok(KEY_A), ColonTok, IntegerTok(1), CommaTok, EndTok, EndOfStreamTok], 0)
         == Err(Unmatched(StringTag, EndTag))
  {
    var toks := [BeginTok, StringTok(KEY_A), ColonTok, IntegerTok(1), CommaTok, EndTok, EndOfStreamTok];
    ParseUnitStep(toks, 3);
    assert ParseMember(toks, 1) == Ok((KEY_A, Int(1), 4));
    assert ParseMember(toks, 5) == Err(Unmatched(StringTag, EndTag));
    assert ParseMembers(toks, 5, [(KEY_A, Int(1))]) == Err(Unmatched(StringTag, EndTag));
    assert ParseMembers(toks, 1, []) == Err(Unmatched(StringTag, EndTag));
    ParseUnitStep(toks, 0);
  }

  /** A key must be followed by a colon. */
  lemma MissingColonExample()
    ensures ParseUnit([BeginTok, StringTok(KEY_A), IntegerTok(1), EndTok, EndOfStreamTok], 0)
         == Err(Unmatched(ColonTag, IntegerTag))
  {
    var toks := [BeginTok, StringTok(KEY_A), IntegerTok(1), EndTok, EndOfStreamTok];
    assert ParseMembers(toks, 1, []) == Err(Unmatched(ColonTag, IntegerTag));
    ParseUnitStep(toks, 0);
  }

  /** Two values with no comma between them in an array: `]` is expected. */
  lemma MissingCommaExample()
    ensures ParseUnit([LsbTok, IntegerTok(1), IntegerTok(2), RsbTok, EndOfStreamTok], 0)
         == Err(Unmatched(RsbTag, IntegerTag))
  {
    var toks := [LsbTok, IntegerTok(1), IntegerTok(2), RsbTok, EndOfStreamTok];
    assert ParseElements(toks, 1) == Ok(([Int(1)], 2));
  }
}
