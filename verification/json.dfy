/** The `JSON` facade of src/json_parser.cpp: typed access, navigation,
    mutation, the serializer `stringify_unit` with `to_string` and `view`,
    and the builders `JSON()`, `JSON(text)`, `val`, `raw`, `array`, `map`
    and `clone`.

    A `JSON` handle in the source points into a tree of `Parser::Node`s;
    here it is the `Node` value itself, and an operation that changes the
    tree in place returns the changed tree instead. */
module Json {
  import opened Bytes
  import opened Seqs
  import opened Tables
  import opened Tokens
  import opened Results
  import opened Lexer
  import opened LexerProps
  import opened Parser

  // ---------------------------------------------------------------------------
  // Typed access

  /** `get_int`: the value of an INT node. */
  function GetInt(n: Node): (r: Result<int>)
    ensures r.Ok? <==> n.KindOf() == IntKind
    ensures r.Ok? ==> n == Int(r.value)
    ensures r.Err? ==> r.error == TypeMismatch(IntKind, n.KindOf())
  {
    if n.Int? then Ok(n.value) else Err(TypeMismatch(IntKind, n.KindOf()))
  }

  /** `get_str`: the text of a STRING node. */
  function GetStr(n: Node): (r: Result<bytes>)
    ensures r.Ok? <==> n.KindOf() == StringKind
    ensures r.Ok? ==> n == Str(r.value)
    ensures r.Err? ==> r.error == TypeMismatch(StringKind, n.KindOf())
  {
    if n.Str? then Ok(n.text) else Err(TypeMismatch(StringKind, n.KindOf()))
  }

  /** `get_raw`: the payload of a RAW node. */
  function GetRaw(n: Node): (r: Result<bytes>)
    ensures r.Ok? <==> n.KindOf() == RawKind
    ensures r.Ok? ==> n == Raw(r.value)
    ensures r.Err? ==> r.error == TypeMismatch(RawKind, n.KindOf())
  {
    if n.Raw? then Ok(n.data) else Err(TypeMismatch(RawKind, n.KindOf()))
  }

  // ---------------------------------------------------------------------------
  // Navigation

  /** `operator[](key)`: the member of a GROUP under `key`. */
  function AtKey(n: Node, key: bytes): (r: Result<Node>)
    ensures r.Ok? <==> n.Group? && HasKey(n.members, key)
    ensures r.Ok? ==> (key, r.value) in n.members
    ensures !n.Group? ==> r == Err(TypeMismatch(GroupKind, n.KindOf()))
    ensures n.Group? && !HasKey(n.members, key) ==> r == Err(KeyNotFound(key))
  {
    if !n.Group? then Err(TypeMismatch(GroupKind, n.KindOf()))
    else
      match Lookup(n.members, key)
      case None => Err(KeyNotFound(key))
      case Some(v) => Ok(v)
  }

  /** `operator[](idx)`: the element of an ARRAY at `idx`. */
  function AtIndex(n: Node, idx: nat): (r: Result<Node>)
    ensures r.Ok? <==> n.Array? && idx < |n.elements|
    ensures r.Ok? ==> r.value == n.elements[idx]
    ensures !n.Array? ==> r == Err(TypeMismatch(ArrayKind, n.KindOf()))
    ensures n.Array? && idx >= |n.elements| ==> r == Err(IndexOutOfRange(idx, |n.elements|))
  {
    if !n.Array? then Err(TypeMismatch(ArrayKind, n.KindOf()))
    else if idx >= |n.elements| then Err(IndexOutOfRange(idx, |n.elements|))
    else Ok(n.elements[idx])
  }

  /** `count`: the number of members of a GROUP, and 0 for any other node. */
  function Count(n: Node): (r: nat)
    ensures n.Group? ==> r == |n.members|
    ensures !n.Group? ==> r == 0
  {
    if n.Group? then |n.members| else 0
  }

  /** `length`: the number of elements of an ARRAY, and 0 for any other node. */
  function Length(n: Node): (r: nat)
    ensures n.Array? ==> r == |n.elements|
    ensures !n.Array? ==> r == 0
  {
    if n.Array? then |n.elements| else 0
  }

  /** `get_map`: a copy of the members of a GROUP, built by inserting each
      member in turn into an empty table. */
  function GetMap(n: Node): (r: Result<Table<Node>>)
    ensures r.Ok? <==> n.Group?
    ensures r.Ok? ==> Ascending(r.value)
    ensures r.Err? ==> r.error == TypeMismatch(GroupKind, n.KindOf())
  {
    if n.Group? then
      InsertEachAscending([], n.members);
      Ok(InsertEach([], n.members))
    else Err(TypeMismatch(GroupKind, n.KindOf()))
  }

  /** `get_list`: the elements of an ARRAY, in order. */
  function GetList(n: Node): (r: Result<seq<Node>>)
    ensures r.Ok? <==> n.Array?
    ensures r.Ok? ==> |r.value| == Length(n)
    ensures r.Ok? ==> forall i :: 0 <= i < |r.value| ==> Ok(r.value[i]) == AtIndex(n, i)
    ensures r.Err? ==> r.error == TypeMismatch(ArrayKind, n.KindOf())
  {
    if n.Array? then Ok(n.elements) else Err(TypeMismatch(ArrayKind, n.KindOf()))
  }

  // ---------------------------------------------------------------------------
  // Mutation

  /** `add_pair`: insert a member into a GROUP the way `std::map::insert`
      does: a key already present keeps its old value. */
  function AddPair(n: Node, key: bytes, v: Node): (r: Result<Node>)
    requires n.Group? ==> Ascending(n.members)
    ensures r.Ok? <==> n.Group?
    ensures r.Err? ==> r.error == TypeMismatch(GroupKind, n.KindOf())
    ensures r.Ok? ==> r.value.Group? && Ascending(r.value.members)
    ensures r.Ok? ==> AtKey(r.value, key) == (if AtKey(n, key).Ok? then AtKey(n, key) else Ok(v))
    ensures r.Ok? ==> forall k :: k != key ==> AtKey(r.value, k) == AtKey(n, k)
    ensures r.Ok? ==> Count(r.value) == Count(n) + (if AtKey(n, key).Ok? then 0 else 1)
  {
    if !n.Group? then Err(TypeMismatch(GroupKind, n.KindOf()))
    else
      InsertAscending(n.members, key, v);
      InsertLookupAll(n.members, key, v);
      InsertSize(n.members, key, v);
      Ok(Group(Insert(n.members, key, v)))
  }

  /** `push`: append an element to an ARRAY. */
  function Push(n: Node, v: Node): (r: Result<Node>)
    ensures r.Ok? <==> n.Array?
    ensures r.Err? ==> r.error == TypeMismatch(ArrayKind, n.KindOf())
    ensures r.Ok? ==> r.value.Array? && Length(r.value) == Length(n) + 1
    ensures r.Ok? ==> AtIndex(r.value, Length(n)) == Ok(v)
    ensures r.Ok? ==> forall i :: 0 <= i < Length(n) ==> AtIndex(r.value, i) == AtIndex(n, i)
  {
    if !n.Array? then Err(TypeMismatch(ArrayKind, n.KindOf()))
    else Ok(Array(n.elements + [v]))
  }

  // ---------------------------------------------------------------------------
  // The serializer

  /** The indent unit `to_string` and `view` use by default: four spaces. */
  const DEFAULT_INDENT: bytes := [SPACE, SPACE, SPACE, SPACE]

  /** `std::to_string` of a signed integer. */
  function IntText(v: int): (r: bytes)
    ensures |r| >= 1
    ensures r[0] == MINUS <==> v < 0
    ensures v < 0 ==> r[1..] == Decimal(-v)
    ensures v >= 0 ==> AllDigits(r) && DecimalValue(r) == v
  {
    DecimalRoundTrip(if v < 0 then -v else v);
    if v < 0 then [MINUS] + Decimal(-v) else Decimal(v)
  }

  /** What `stringify_unit` writes for a RAW node when `hide_raw` is set. */
  function RawSummary(n: nat): (r: bytes)
    ensures |r| > 1 && r[0] == LPAREN && !IsDigit(r[1])
  {
    RAW_SUMMARY_OPEN + Decimal(n) + RAW_SUMMARY_CLOSE
  }

  const RAW_SUMMARY_OPEN: bytes :=
    ['(' as int, 'r' as int, 'a' as int, 'w' as int, '-' as int,
     'd' as int, 'a' as int, 't' as int, 'a' as int, ':' as int]
  const RAW_SUMMARY_CLOSE: bytes :=
    [' ' as int, 'B' as int, 'y' as int, 't' as int, 'e' as int, 's' as int, ')' as int]

  /** `stringify_unit(indent, depth, hide_raw)`. */
  function Stringify(n: Node, indent: bytes, depth: nat, hideRaw: bool): (r: bytes)
    ensures |r| >= 1
    ensures n.Str? ==> r[0] == QUOTE
    ensures n.Array? ==> r[0] == LBRACKET && r[|r| - 1] == RBRACKET
    ensures n.Group? ==> r[0] == LBRACE && r[|r| - 1] == RBRACE
    ensures n.Raw? ==> |r| > 1 && r[0] == LPAREN && (hideRaw <==> !IsDigit(r[1]))
    decreases n, 1
  {
    match n
    case Int(v) => IntText(v)
    case Str(x) => [QUOTE] + ConvStr(x) + [QUOTE]
    case Raw(data) =>
      if hideRaw then RawSummary(|data|)
      else
        assert RawFrame(data)[1] == Decimal(|data|)[0];
        RawFrame(data)
    case Array(es) =>
      [LBRACKET, LF] + ArrayItems(n, indent, depth, hideRaw, 0) + Repeat(indent, depth) + [RBRACKET]
    case Group(m) =>
      [LBRACE, LF] + GroupItems(n, indent, depth, hideRaw, 0) + Repeat(indent, depth) + [RBRACE]
  }

  /** One element line of an ARRAY: the element one level deeper, a comma
      unless it is the last element, and a line break. */
  function ArrayItems(a: Node, indent: bytes, depth: nat, hideRaw: bool, k: nat): (r: bytes)
    requires a.Array? && k <= |a.elements|
    decreases a, 0, |a.elements| - k
  {
    if k == |a.elements| then []
    else
      Repeat(indent, depth + 1)
      + Stringify(a.elements[k], indent, depth + 1, hideRaw)
      + (if k + 1 < |a.elements| then [COMMA, LF] else [LF])
      + ArrayItems(a, indent, depth, hideRaw, k + 1)
  }

  /** One member line of a GROUP, in ascending key order: the key in quotes
      exactly as it is (not escaped), a colon and a space, the member one
      level deeper, a comma unless it is the last member, and a line break. */
  function GroupItems(g: Node, indent: bytes, depth: nat, hideRaw: bool, k: nat): (r: bytes)
    requires g.Group? && k <= |g.members|
    decreases g, 0, |g.members| - k
  {
    if k == |g.members| then []
    else
      Repeat(indent, depth + 1) + [QUOTE] + g.members[k].0 + [QUOTE, COLON, SPACE]
      + Stringify(g.members[k].1, indent, depth + 1, hideRaw)
      + (if k + 1 < |g.members| then [COMMA, LF] else [LF])
      + GroupItems(g, indent, depth, hideRaw, k + 1)
  }

  /** `to_string(indent)`: the whole tree with raw payloads summarised. */
  function ToString(n: Node, indent: bytes): (r: bytes)
    ensures n.Raw? ==> r == RawSummary(|n.data|)
    ensures !HasRaw(n) ==> r == Stringify(n, indent, 0, false)
  {
    HiddenIsPlain(n, indent, 0);
    Stringify(n, indent, 0, true)
  }

  /** `view(indent)`: the same text as `to_string`. */
  function View(n: Node, indent: bytes): (r: bytes)
    ensures r == ToString(n, indent)
  {
    Stringify(n, indent, 0, true)
  }

  /** The tree holds a RAW node somewhere. */
  predicate HasRaw(n: Node)
    decreases n, 1
  {
    match n
    case Raw(_) => true
    case Array(es) => exists i :: 0 <= i < |es| && HasRaw(es[i])
    case Group(m) => exists i :: 0 <= i < |m| && HasRaw(m[i].1)
    case _ => false
  }

  /** Without RAW nodes `hide_raw` changes nothing. */
  lemma {:induction false} HiddenIsPlain(n: Node, indent: bytes, depth: nat)
    ensures !HasRaw(n) ==> Stringify(n, indent, depth, true) == Stringify(n, indent, depth, false)
    decreases n, 1
  {
    if !HasRaw(n) {
      match n
      case Array(es) => HiddenIsPlainItems(n, indent, depth, 0);
      case Group(m) => HiddenIsPlainMembers(n, indent, depth, 0);
      case _ =>
    }
  }

  lemma {:induction false} HiddenIsPlainItems(a: Node, indent: bytes, depth: nat, k: nat)
    requires a.Array? && k <= |a.elements| && !HasRaw(a)
    ensures ArrayItems(a, indent, depth, true, k) == ArrayItems(a, indent, depth, false, k)
    decreases a, 0, |a.elements| - k
  {
    if k < |a.elements| {
      HiddenIsPlain(a.elements[k], indent, depth + 1);
      HiddenIsPlainItems(a, indent, depth, k + 1);
    }
  }

  lemma {:induction false} HiddenIsPlainMembers(g: Node, indent: bytes, depth: nat, k: nat)
    requires g.Group? && k <= |g.members| && !HasRaw(g)
    ensures GroupItems(g, indent, depth, true, k) == GroupItems(g, indent, depth, false, k)
    decreases g, 0, |g.members| - k
  {
    if k < |g.members| {
      HiddenIsPlain(g.members[k].1, indent, depth + 1);
      HiddenIsPlainMembers(g, indent, depth, k + 1);
    }
  }

  // ---------------------------------------------------------------------------
  // Builders

  /** `JSON(text)`: lex the text and parse one value from the front of the
      token stream; any tokens after that value are ignored. */
  function ParseText(s: bytes): (r: Result<Node>)
    ensures Lex(s).Err? ==> r == Err(Lex(s).error)
  {
    var toks :- Lex(s);
    var (n, _) :- ParseUnit(toks, 0);
    Ok(n)
  }

  /** `JSON()`: the text `{}` parsed, which is an empty GROUP. */
  function Empty(): (r: Result<Node>)
    ensures r == Ok(Group([]))
  {
    LexBraces();
    assert ParseUnit([BeginTok, EndTok, EndOfStreamTok], 0) == Ok((Group([]), 2));
    ParseText([LBRACE, RBRACE])
  }

  /** `val(int)`: the text of the integer parsed. The lexer skips the minus
      sign, so a negative value comes back as its magnitude. */
  function ValInt(v: int): (r: Result<Node>)
    ensures r == Ok(Int(if v < 0 then -v else v))
  {
    var n := if v < 0 then -v else v;
    LexIntText(v);
    ParseUnitStep([IntegerTok(n), EndOfStreamTok], 0);
    assert ParseUnit([IntegerTok(n), EndOfStreamTok], 0) == Ok((Int(n), 1));
    ParseText(IntText(v))
  }

  /** The text `std::to_string` writes for v lexes to one INTEGER token
      holding the magnitude of v. */
  lemma LexIntText(v: int)
    ensures Lex(IntText(v)) == Ok([IntegerTok(if v < 0 then -v else v), EndOfStreamTok])
  {
    if v < 0 {
      LexMinusDropped(-v);
    } else {
      LexDecimal(v);
    }
  }

  /** `val(string)`: the string with `escape_tab` applied, in quotes, parsed.
      An ASCII string comes back as a STRING node holding it. */
  function ValStr(s: bytes): (r: Result<Node>)
    ensures IsAscii(s) ==> r == Ok(Str(s))
  {
    assert IsAscii(s) ==> ParseText([QUOTE] + ValEscape(s) + [QUOTE]) == Ok(Str(s)) by {
      if IsAscii(s) {
        LexValEscaped(s);
        ParseUnitStep([StringTok(s), EndOfStreamTok], 0);
        assert ParseUnit([StringTok(s), EndOfStreamTok], 0) == Ok((Str(s), 1));
      }
    }
    ParseText([QUOTE] + ValEscape(s) + [QUOTE])
  }

  /** `raw(bytes)`. */
  function RawOf(data: bytes): (r: Node)
    ensures GetRaw(r) == Ok(data)
  {
    Raw(data)
  }

  /** `array(list)`: the elements in the order given. */
  function ArrayOf(es: seq<Node>): (r: Node)
    ensures GetList(r) == Ok(es)
  {
    Array(es)
  }

  /** `map(table)`: a GROUP built by inserting each pair of the table in
      turn into an empty table. */
  function MapOf(items: Table<Node>): (r: Node)
    ensures r.Group? && Ascending(r.members)
  {
    InsertEachAscending([], items);
    Group(InsertEach([], items))
  }

  /** `clone`: parse the text `to_string` writes with the default indent. */
  function Clone(n: Node): (r: Result<Node>)
    ensures !HasRaw(n) ==> r == ParseText(Stringify(n, DEFAULT_INDENT, 0, false))
  {
    ParseText(ToString(n, DEFAULT_INDENT))
  }
}
