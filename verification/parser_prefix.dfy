/** `parse_unit` reads one value and stops: a parse that succeeds on a token
    stream `a` succeeds in the same way on `a` followed by any tokens, since
    every step it takes looks only at tokens inside the part it consumed. */
module ParserPrefix {
  import opened Bytes
  import opened Tokens
  import opened Results
  import opened Tables
  import opened Parser

  /** Skipping END_LINE tokens that stop inside `a` stops at the same place
      in `a + rest`. */
  lemma {:induction false} SkipLinesPrefix(a: seq<Token>, rest: seq<Token>, p: nat)
    requires p <= |a| && SkipLines(a, p) < |a|
    ensures SkipLines(a + rest, p) == SkipLines(a, p)
    decreases |a| - p
  {
    assert (a + rest)[p] == a[p];
    if a[p] == EndLineTok {
      SkipLinesPrefix(a, rest, p + 1);
    }
  }

  lemma CurrentPrefix(a: seq<Token>, rest: seq<Token>, p: nat)
    requires p <= |a| && Current(a, p).Ok?
    ensures Current(a + rest, p) == Current(a, p)
  {
    SkipLinesPrefix(a, rest, p);
    assert (a + rest)[SkipLines(a, p)] == a[SkipLines(a, p)];
  }

  lemma MatchPrefix(a: seq<Token>, rest: seq<Token>, p: nat, tag: Tag)
    requires p <= |a| && Match(a, p, tag).Ok?
    ensures Match(a + rest, p, tag) == Match(a, p, tag)
  {
    CurrentPrefix(a, rest, p);
  }

  /** A value parsed from `a` is parsed from `a + rest` too, with the cursor
      after it at the same place: the tokens after a value are never read. */
  lemma {:induction false} TrailingTokensIgnored(a: seq<Token>, rest: seq<Token>, p: nat)
    requires p <= |a| && ParseUnit(a, p).Ok?
    ensures ParseUnit(a + rest, p) == ParseUnit(a, p)
    decreases |a| - p, 1
  {
    ParseUnitStep(a, p);
    ParseUnitStep(a + rest, p);
    CurrentPrefix(a, rest, p);
    var (t, q) := Current(a, p).value;
    if t == LsbTok {
      ArrayPrefix(a, rest, q);
    } else if t == BeginTok {
      GroupPrefix(a, rest, q);
    }
  }

  lemma {:induction false} ArrayPrefix(a: seq<Token>, rest: seq<Token>, p: nat)
    requires p <= |a| && ParseArray(a, p).Ok?
    ensures ParseArray(a + rest, p) == ParseArray(a, p)
    decreases |a| - p, 0
  {
    MatchPrefix(a, rest, p, LsbTag);
    var q := Match(a, p, LsbTag).value;
    CurrentPrefix(a, rest, q);
    var (t, q') := Current(a, q).value;
    if t != RsbTok {
      ElementsPrefix(a, rest, q');
      MatchPrefix(a, rest, ParseElements(a, q').value.1, RsbTag);
    }
  }

  lemma {:induction false} ElementsPrefix(a: seq<Token>, rest: seq<Token>, p: nat)
    requires p <= |a| && ParseElements(a, p).Ok?
    ensures ParseElements(a + rest, p) == ParseElements(a, p)
    decreases |a| - p, 2
  {
    TrailingTokensIgnored(a, rest, p);
    var q := ParseUnit(a, p).value.1;
    CurrentPrefix(a, rest, q);
    var (t, q') := Current(a, q).value;
    if t == CommaTok {
      ElementsPrefix(a, rest, q' + 1);
    }
  }

  lemma {:induction false} GroupPrefix(a: seq<Token>, rest: seq<Token>, p: nat)
    requires p <= |a| && ParseGroup(a, p).Ok?
    ensures ParseGroup(a + rest, p) == ParseGroup(a, p)
    decreases |a| - p, 0
  {
    MatchPrefix(a, rest, p, BeginTag);
    var q := Match(a, p, BeginTag).value;
    CurrentPrefix(a, rest, q);
    var (t, q') := Current(a, q).value;
    if t != EndTok {
      MembersPrefix(a, rest, q', []);
      MatchPrefix(a, rest, ParseMembers(a, q', []).value.1, EndTag);
    }
  }

  lemma {:induction false} MemberPrefix(a: seq<Token>, rest: seq<Token>, p: nat)
    requires p <= |a| && ParseMember(a, p).Ok?
    ensures ParseMember(a + rest, p) == ParseMember(a, p)
    decreases |a| - p, 2
  {
    CurrentPrefix(a, rest, p);
    var q := Current(a, p).value.1;
    MatchPrefix(a, rest, q + 1, ColonTag);
    TrailingTokensIgnored(a, rest, Match(a, q + 1, ColonTag).value);
  }

  lemma {:induction false} MembersPrefix(a: seq<Token>, rest: seq<Token>, p: nat, table: Table<Node>)
    requires p <= |a| && ParseMembers(a, p, table).Ok?
    ensures ParseMembers(a + rest, p, table) == ParseMembers(a, p, table)
    decreases |a| - p, 3
  {
    MemberPrefix(a, rest, p);
    var (key, v, q) := ParseMember(a, p).value;
    CurrentPrefix(a, rest, q);
    var (t, q') := Current(a, q).value;
    MembersStep(a, p, table, key, v, q, t, q');
    MembersStep(a + rest, p, table, key, v, q, t, q');
    if t == CommaTok {
      MembersPrefix(a, rest, q' + 1, Insert(table, key, v));
    }
  }

  /** One pass of the loop of `parse_group`, once its member and the token
      after it are known. */
  lemma MembersStep(toks: seq<Token>, p: nat, table: Table<Node>, key: bytes, v: Node, q: nat, t: Token, q': nat)
    requires p <= |toks| && ParseMember(toks, p) == Ok((key, v, q)) && Current(toks, q) == Ok((t, q'))
    ensures t != CommaTok ==> ParseMembers(toks, p, table) == Ok((Insert(table, key, v), q'))
    ensures t == CommaTok ==> ParseMembers(toks, p, table) == ParseMembers(toks, q' + 1, Insert(table, key, v))
  {
  }

  /** Two instances: `7` and `[` `]`, each followed by any tokens. */
  lemma TrailingTokensExamples(rest: seq<Token>)
    ensures ParseUnit([IntegerTok(7)] + rest, 0) == Ok((Int(7), 1))
    ensures ParseUnit([LsbTok, RsbTok] + rest, 0) == Ok((Array([]), 2))
  {
    ParseUnitStep([IntegerTok(7)], 0);
    TrailingTokensIgnored([IntegerTok(7)], rest, 0);
    var b := [LsbTok, RsbTok];
    assert Current(b, 1) == Ok((RsbTok, 1));
    ParseUnitStep(b, 0);
    TrailingTokensIgnored(b, rest, 0);
  }
}
