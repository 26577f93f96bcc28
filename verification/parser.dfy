/** The token cursor and the recursive-descent parser of src/json_parser.cpp:
    `TokenStream::current`, `TokenStream::match`, `parse_unit`,
    `parse_array` and `parse_group`, and the five node kinds they build.

    The source keeps the cursor `cur_p` inside the token stream and moves it
    as a side effect; here every operation takes the cursor `p` and returns
    the cursor it leaves behind. */
module Parser {
  import opened Bytes
  import opened Tokens
  import opened Results
  import opened Tables

  /** A node of the tree: the source's `Unit` (integer or string), `Array`,
      `Group` (a `std::map` from key to node, held as its members in ascending
      key order) and `Bytes` (raw data). */
  datatype Node =
    | Int(value: int)
    | Str(text: bytes)
    | Array(elements: seq<Node>)
    | Group(members: Table<Node>)
    | Raw(data: bytes)
  {
    function KindOf(): Kind {
      match this
      case Int(_) => IntKind
      case Str(_) => StringKind
      case Array(_) => ArrayKind
      case Group(_) => GroupKind
      case Raw(_) => RawKind
    }
  }

  // ---------------------------------------------------------------------------
  // The cursor

  /** Every token from p up to q is END_LINE. */
  predicate LinesBetween(toks: seq<Token>, p: nat, q: nat)
    requires q <= |toks|
    decreases q - p
  {
    p >= q || (toks[p] == EndLineTok && LinesBetween(toks, p + 1, q))
  }

  /** The first index at or after p that is not an END_LINE token, or |toks|. */
  function SkipLines(toks: seq<Token>, p: nat): (q: nat)
    requires p <= |toks|
    ensures p <= q <= |toks|
    ensures q < |toks| ==> toks[q] != EndLineTok
    ensures LinesBetween(toks, p, q)
    decreases |toks| - p
  {
    if p < |toks| && toks[p] == EndLineTok then SkipLines(toks, p + 1) else p
  }

  /** `TokenStream::current`: the cursor moves past END_LINE tokens and the
      token it then stands on is returned, with the new cursor. A cursor at or
      past the end is an error; so is a stream that holds only END_LINE tokens
      from the cursor on (a stream built by the lexer always ends with the
      end-of-stream token, so that case never arises from text). */
  function Current(toks: seq<Token>, p: nat): (r: Result<(Token, nat)>)
    requires p <= |toks|
    ensures r.Ok? ==> p <= r.value.1 < |toks| && toks[r.value.1] == r.value.0 && r.value.0 != EndLineTok
    ensures r.Err? ==> r.error == StreamExhausted
  {
    var q := SkipLines(toks, p);
    if q == |toks| then Err(StreamExhausted) else Ok((toks[q], q))
  }

  /** `TokenStream::match`: the current token must carry `tag`; the cursor
      then moves one past it. */
  function Match(toks: seq<Token>, p: nat, tag: Tag): (r: Result<nat>)
    requires p <= |toks|
    ensures r.Ok? ==> p < r.value <= |toks| && toks[r.value - 1].TagOf() == tag
  {
    var (t, q) :- Current(toks, p);
    if t.TagOf() == tag then Ok(q + 1) else Err(Unmatched(tag, t.TagOf()))
  }

  // ---------------------------------------------------------------------------
  // The parser

  /** `parse_unit`: one value starting at the cursor, and the cursor after it. */
  function ParseUnit(toks: seq<Token>, p: nat): (r: Result<(Node, nat)>)
    requires p <= |toks|
    ensures r.Ok? ==> p < r.value.1 <= |toks|
    decreases |toks| - p, 1, 2
  {
    ParseUnitOn(toks, p)
  }

  /** `ParseUnit`, `ParseUnitOn` and `ParseValue` are layers of one
      definition, so that a proof meets the body of `parse_unit` only where it
      asks for it through `ParseUnitStep`. */
  function ParseUnitOn(toks: seq<Token>, p: nat): (r: Result<(Node, nat)>)
    requires p <= |toks|
    ensures r.Ok? ==> p < r.value.1 <= |toks|
    decreases |toks| - p, 1, 1
  {
    ParseValue(toks, p)
  }

  function ParseValue(toks: seq<Token>, p: nat): (r: Result<(Node, nat)>)
    requires p <= |toks|
    ensures r.Ok? ==> p < r.value.1 <= |toks|
    decreases |toks| - p, 1, 0
  {
    var (t, q) :- Current(toks, p);
    if t.RawDataTok? then Ok((Raw(t.data), q + 1))
    else if t.IntegerTok? then Ok((Int(t.value), q + 1))
    else if t.StringTok? then Ok((Str(t.text), q + 1))
    else if t == LsbTok then ParseArray(toks, q)
    else if t == BeginTok then ParseGroup(toks, q)
    else Err(NotAValue(t.TagOf()))
  }

  /** The body of `parse_unit`. */
  lemma ParseUnitStep(toks: seq<Token>, p: nat)
    requires p <= |toks|
    ensures ParseUnit(toks, p) == ParseValue(toks, p)
  {
    assert ParseUnit(toks, p) == ParseUnitOn(toks, p);
  }

  /** `parse_array`: `[` `]`, or `[` values separated by commas `]`. */
  function ParseArray(toks: seq<Token>, p: nat): (r: Result<(Node, nat)>)
    requires p <= |toks|
    ensures r.Ok? ==> p < r.value.1 <= |toks| && r.value.0.Array?
    decreases |toks| - p, 0
  {
    var q :- Match(toks, p, LsbTag);
    var (t, q') :- Current(toks, q);
    if t == RsbTok then Ok((Array([]), q' + 1))
    else
      var (es, e) :- ParseElements(toks, q');
      var end :- Match(toks, e, RsbTag);
      Ok((Array(es), end))
  }

  /** The loop of `parse_array`: a value, then more values while the current
      token is a comma. Returns the values and the cursor on the token that
      ended the list. */
  function ParseElements(toks: seq<Token>, p: nat): (r: Result<(seq<Node>, nat)>)
    requires p <= |toks|
    ensures r.Ok? ==> p < r.value.1 <= |toks| && |r.value.0| >= 1
    decreases |toks| - p, 2
  {
    var (n, q) :- ParseUnit(toks, p);
    var (t, q') :- Current(toks, q);
    if t != CommaTok then Ok(([n], q'))
    else
      var (rest, e) :- ParseElements(toks, q' + 1);
      Ok(([n] + rest, e))
  }

  /** `parse_group`: `{` `}`, or `{` members separated by commas `}`. */
  function ParseGroup(toks: seq<Token>, p: nat): (r: Result<(Node, nat)>)
    requires p <= |toks|
    ensures r.Ok? ==> p < r.value.1 <= |toks| && r.value.0.Group?
    decreases |toks| - p, 0
  {
    var q :- Match(toks, p, BeginTag);
    var (t, q') :- Current(toks, q);
    if t == EndTok then Ok((Group([]), q' + 1))
    else
      var (table, e) :- ParseMembers(toks, q', []);
      var end :- Match(toks, e, EndTag);
      Ok((Group(table), end))
  }

  /** One member of `parse_group`: a STRING key, `:`, and a value. Returns
      the key, the value and the cursor after the value. */
  function ParseMember(toks: seq<Token>, p: nat): (r: Result<(bytes, Node, nat)>)
    requires p <= |toks|
    ensures r.Ok? ==> p < r.value.2 <= |toks|
    decreases |toks| - p, 2
  {
    var (name, q) :- Current(toks, p);
    if !name.StringTok? then Err(Unmatched(StringTag, name.TagOf()))
    else
      var q2 :- Match(toks, q + 1, ColonTag);
      var (v, q3) :- ParseUnit(toks, q2);
      Ok((name.text, v, q3))
  }

  /** The loop of `parse_group`: members while the current token after each
      is a comma, inserted into `table` the way `std::map::insert` does, so a
      key already present keeps its value. Returns the table and the cursor
      on the token that ended the list. */
  function ParseMembers(toks: seq<Token>, p: nat, table: Table<Node>): (r: Result<(Table<Node>, nat)>)
    requires p <= |toks|
    ensures r.Ok? ==> p < r.value.1 <= |toks|
    decreases |toks| - p, 3
  {
    var (key, v, q) :- ParseMember(toks, p);
    var table' := Insert(table, key, v);
    var (t, q') :- Current(toks, q);
    if t != CommaTok then Ok((table', q'))
    else ParseMembers(toks, q' + 1, table')
  }
}
