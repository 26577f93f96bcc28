# cpp-json-lite in Dafny

This project models the value pipeline of cpp-json-lite (`src/json_parser.cpp`). The library reads a JSON-like text
format and writes it back out. The format adds length-framed raw binary blocks `(N)$<N bytes>$`. Its strings have
the escapes `\r \n \t \\ \" \'` and nothing else, and it has no negative or fractional numbers.

The model has four parts:

- **Lexer** (`lexer.dfy`). `build_token_stream` is `Lex(s)`, a pure function from bytes to `Result<seq<Token>>`.
  One pass of its loop is `Step(s, i)`, which returns the token it pushes (if any) and the index the next pass starts
  at. The helpers `get_number`, `get_word`, `get_char_size`, `get_raw_data` and `conv_str` are `NumberToken`,
  `WordToken`, `CharSize`, `RawBlock` and `ConvStr`.
- **Token cursor and parser** (`parser.dfy`). `TokenStream::current` and `TokenStream::match` become `Current` and
  `Match`. Both take the cursor and return the cursor they leave behind. The parse functions do the same:
  `parse_unit`, `parse_array` and `parse_group` become `ParseUnit`, `ParseArray` and `ParseGroup`. The tree is the
  five-way `Node` datatype: INT, STRING, ARRAY, GROUP, RAW.
- **The `JSON` facade** (`json.dfy`). Typed getters, `operator[]` by key and by index, `count`, `length`, `get_map`,
  `get_list`, `add_pair`, `push`, `stringify_unit`, `to_string`, `view`, and the builders `JSON()`, `JSON(text)`,
  `val`, `raw`, `array`, `map` and `clone`. A handle is the node value itself, and a mutation returns the changed
  tree.
- **Properties.**
  - `lexer_props.dfy`: what the lexer does with each kind of input.
  - `parser_props.dfy`: the cursor and the grammar.
  - `json_props.dfy`: the facade's accessors and builders together.
  - `token_roundtrip.dfy`: the tokens of a tree parse back to the tree.
  - `text_roundtrip.dfy`: the text `stringify_unit` writes lexes to those tokens, so `clone` and `to_string`
    round-trip.

A `std::map<std::string, …>` (a GROUP's member table) is held as its list of members in ascending key order
(`tables.dfy`). The order `Less` (`keyorder.dfy`) is `std::string`'s `operator<`: unsigned bytes compared one by one,
with a proper prefix first. `std::map::insert` is `Insert`, which keeps an existing key's value. Iterating over a map
is walking the list, so `stringify_unit` writes members in ascending key order.

Text is bytes (`seq<byte>`), and integers are unbounded.

Where the code and its description differ, the model follows the code:

- `get_char_size` counts the set bits among bits 7, 6 and 5 of a lead byte, so a `0xF_` lead gives 3, not 4
  (`CharSizeAgainstUtf8`, `LexFourByteCharacter`).
- `clone` parses the text `to_string` writes, and `to_string` always hides raw payloads. So `clone` of a
  reparseable tree holding a RAW node anywhere fails (`CloneFailsOnRaw`, `CloneFailsOnNestedRaw`). Keys are written
  without escapes, so a key holding `"` can instead make `clone` succeed with a different tree
  (`CloneMisreadsQuotedKey`).
- `val(string)` escapes only `"` and `\` (the `escape_tab` map). It does not escape CR, LF, TAB or `'` as `conv_str`
  does (`ValEscape`, `LexValEscaped`).
- The lexer rejects `\u` escapes (`LexBadEscape`). tests/test.cpp:31-36 expects them to decode, which the code does
  not do.
- `true`, `false` and `null` become INTEGER tokens 1, 0 and 0 (`LexWord`). There is no boolean or null node.
- The lexer skips a minus sign, so `val(-5)` builds the INT 5 (`ValInt`, `LexMinusDropped`).

## Model

| member | source | states |
|---|---|---|
| Bytes.DecimalRoundTrip | src/json_parser.cpp:61-73 | reading the decimal digits written for n (as `std::to_string` writes them) gives n back |
| KeyOrder.LessIrreflexive | src/json_parser.cpp:842 | no key comes before itself in `std::map` order |
| KeyOrder.LessTransitive | src/json_parser.cpp:842 | `std::map` key order is transitive |
| KeyOrder.LessTotal | src/json_parser.cpp:842 | of two different keys one comes first, so a member table has one ascending order |
| Tables.Lookup | src/json_parser.cpp:582-590 | `map::find` finds a value exactly when the key is a member, and the value found is stored under that key |
| Tables.InsertAscending | src/json_parser.cpp:635 | `map::insert` keeps the member table in ascending key order |
| Tables.InsertLookup | src/json_parser.cpp:635 | after `map::insert(key, v)` a lookup of x finds v when x is key and key was absent, and otherwise what it found before |
| Tables.InsertSize | src/json_parser.cpp:775 | inserting a present key changes nothing; inserting an absent key adds exactly one member |
| Tables.LookupStored | src/json_parser.cpp:582-590 | every stored member is found under its own key |
| Tables.InsertEachAppends | src/json_parser.cpp:925-929 | inserting members that already ascend, one by one, rebuilds exactly that table |
| Lexer.Unescape | src/json_parser.cpp:333-351 | a backslash followed by r, n, t, `\`, `"` or `'` reads as CR, LF, TAB, `\`, `"` or `'`; any other byte is a bad-escape error |
| Lexer.EscapeTable | src/json_parser.cpp:14-45 | every escape `conv_str` writes reads back as its byte, and every escape the lexer reads is written that way by `conv_str` |
| Lexer.ConvStr | src/json_parser.cpp:14-45 | the literal is between one and two bytes per input byte, and a quote in it always comes with a backslash |
| Lexer.ValEscape | src/json_parser.cpp:895-906 | the `escape_tab` form is between one and two bytes per input byte |
| Lexer.CharSize | src/json_parser.cpp:47-59 | the size is 1 to 3; it is 1 exactly below 0xA0 and 3 exactly from 0xE0 |
| Lexer.CharSizeAgainstUtf8 | src/json_parser.cpp:47-59 | `get_char_size` agrees with RFC 3629 on one- to three-byte leads and reads a four-byte lead as three bytes long |
| Lexer.RunEnd | src/json_parser.cpp:61-83 | the digit or letter run read from i is maximal: every byte in it belongs to the class, and the byte after it does not |
| Lexer.Find | src/json_parser.cpp:276-278 | the search for `)` stops at the first one, or at the end of the input |
| Lexer.StringBody | src/json_parser.cpp:318-369 | a string body ends at the closing quote, or at the end of the input when it is unterminated, and holds no more bytes than it spans |
| Lexer.RawBlock | src/json_parser.cpp:272-300 | a raw block without `)` is an error; an accepted block has a digit length field equal to the payload size and `$` on both sides of the payload |
| Lexer.Keyword | src/json_parser.cpp:389-403 | only `true`, `false` and `null` are words; `true` is 1, the other two are 0, any other word is an error |
| Lexer.Step | src/json_parser.cpp:305-406 | one pass of the loop pushes at most one token and never the end tag; it pushes nothing and moves one byte exactly on a byte the loop ignores |
| Lexer.Lex | src/json_parser.cpp:302-410 | a successful token stream ends with the end tag, which appears nowhere else |
| LexerProps.LexIgnoredRun | src/json_parser.cpp:374-406 | bytes the loop ignores (spaces, `-`, `.`, …) produce no token |
| LexerProps.LexDigitsAt | src/json_parser.cpp:305-311 | a maximal digit run anywhere in the input lexes to one INTEGER token holding its decimal value, and lexing goes on after it |
| LexerProps.LexDigits | src/json_parser.cpp:61-73 | any non-empty digit run, leading zeros included, lexes to the INTEGER of its decimal value |
| LexerProps.LexDecimal | src/json_parser.cpp:305-311 | the digits `std::to_string` writes for n lex to the INTEGER n |
| LexerProps.LexLeadingZeros | src/json_parser.cpp:61-73 | `007` lexes to the INTEGER 7 |
| LexerProps.LexMinusDropped | src/json_parser.cpp:374-406 | `-n` lexes as the INTEGER n |
| LexerProps.LexWord | src/json_parser.cpp:389-403 | `true` lexes to INTEGER 1, `false` and `null` to INTEGER 0, any other letter run is an unknown-word error |
| LexerProps.StringBodyEnd | src/json_parser.cpp:322 | the string loop stops at once on a quote or at the end of the input |
| LexerProps.StringBodyConvStr | src/json_parser.cpp:318-369 | the string lexer reads the `conv_str` form of an ASCII text, followed by a quote or the end of the input, as that text |
| LexerProps.LexQuoted | src/json_parser.cpp:318-372 | `"` + conv_str(x) + `"` lexes to exactly STRING(x) for every ASCII x |
| LexerProps.LexValEscaped | src/json_parser.cpp:895-906 | `"` + the `escape_tab` form of x + `"` lexes to exactly STRING(x) for every ASCII x |
| LexerProps.LexUnterminated | src/json_parser.cpp:322 | an unterminated string of ASCII text with no quote and no backslash is read to the end of the input without error, as that text |
| LexerProps.LexUnterminatedEscaped | src/json_parser.cpp:318-372 | an unterminated string holding the `conv_str` form of any ASCII text, escapes included, is read to the end as that text |
| LexerProps.LexUnterminatedAt | src/json_parser.cpp:318-372 | a quote anywhere in the input, followed to the end by ASCII text with no quote and no backslash, opens a string holding exactly that text |
| LexerProps.LexBadEscape | src/json_parser.cpp:349-350 | an escape outside the table, `\u` included, is a bad-escape error |
| LexerProps.LexThreeByteCharacter | src/json_parser.cpp:357-368 | a three-byte UTF-8 character is copied into the string as it is |
| LexerProps.LexFourByteCharacter | src/json_parser.cpp:357-368 | after a four-byte lead only three bytes are copied; a fourth byte in 0xA0..0xBF is read as a new two-byte lead and swallows the closing quote |
| LexerProps.LexFourByteCharacterKept | src/json_parser.cpp:357-368 | a four-byte character whose fourth byte is in 0x80..0x9F is kept whole: that byte is copied as a one-byte character and the quote closes the string |
| LexerProps.LexRawFrame | src/json_parser.cpp:272-300 | `(n)$` + b + `$` with \|b\| = n lexes to one RAW_DATA(b) token, whatever bytes b holds |
| LexerProps.LexRawWithoutRightParen | src/json_parser.cpp:277-280 | a `(` with no `)` after it is an error |
| LexerProps.RawNeedsDigitFirst | src/json_parser.cpp:281 | a length field that does not start with a digit is a bad-length error (the model reads the field as a digit run; see Left out) |
| LexerProps.LexRawWithoutOpenDollar | src/json_parser.cpp:285-286 | a byte other than `$` after `)` is an error |
| LexerProps.LexRawTruncated | src/json_parser.cpp:289-290 | fewer than n + 1 bytes after the opening `$` is an error |
| LexerProps.LexRawWithoutCloseDollar | src/json_parser.cpp:297-298 | a byte other than `$` after the payload is an error |
| Parser.SkipLines | src/json_parser.cpp:231-232 | the cursor stops on the first token that is not END_LINE, or at the end, passing END_LINE tokens only |
| ParserProps.LinesBetweenAll | src/json_parser.cpp:231-232 | the tokens the skip passes over are exactly a run of END_LINE tokens |
| ParserProps.CurrentAcross | src/json_parser.cpp:226-234 | from any point before a run of END_LINE tokens, `current` returns the token after the run and leaves the cursor on it |
| Parser.Current | src/json_parser.cpp:226-234 | `current` returns the token under the moved cursor, which is never END_LINE; running past the end is an error |
| Parser.Match | src/json_parser.cpp:241-251 | on success the token just passed carries the wanted tag and the cursor moved forward |
| ParserProps.CurrentSpec | src/json_parser.cpp:226-234 | `current` succeeds exactly when a token other than END_LINE lies ahead, and it passes over END_LINE tokens only |
| ParserProps.MatchSpec | src/json_parser.cpp:241-251 | `match` succeeds exactly when the current token carries the tag, moves one past it, and otherwise names the tag it found |
| Parser.ParseUnit | src/json_parser.cpp:643-679 | a parsed value leaves the cursor strictly further on |
| Parser.ParseArray | src/json_parser.cpp:602-620 | `parse_array` builds an ARRAY and moves the cursor forward |
| Parser.ParseGroup | src/json_parser.cpp:621-642 | `parse_group` builds a GROUP and moves the cursor forward |
| Parser.ParseElements | src/json_parser.cpp:610-617 | the element loop reads at least one value and moves the cursor forward |
| ParserProps.MembersKeepTable | src/json_parser.cpp:629-639 | the member loop keeps the table in `std::map` order and never changes a member already in it |
| ParserProps.UnitSkipsLine | src/json_parser.cpp:643-645 | an END_LINE under the cursor does not change what `parse_unit` reads |
| ParserProps.ContainerSkipsLine | src/json_parser.cpp:602-604 | an END_LINE under the cursor does not change what `parse_array` or `parse_group` reads |
| ParserProps.LoopSkipsLine | src/json_parser.cpp:611-638 | an END_LINE under the cursor does not change what the element or member loops read |
| ParserProps.LineRunSkipped | src/json_parser.cpp:226-234 | any run of END_LINE tokens before a value is skipped |
| ParserProps.UnitAt | src/json_parser.cpp:643-679 | an INTEGER, STRING or RAW_DATA token is one INT, STRING or RAW node, and `[` and `{` start an array and a group |
| ParserProps.NotAValueAt | src/json_parser.cpp:675-677 | `}`, `]`, `,`, `:` and the end tag start no value |
| ParserProps.EmptyArrayAt | src/json_parser.cpp:604-609 | `[`, at most one END_LINE token, then `]` give the empty ARRAY, with the cursor after the `]` |
| ParserProps.EmptyGroupAt | src/json_parser.cpp:623-628 | `{`, at most one END_LINE token, then `}` give the empty GROUP, with the cursor after the `}` |
| ParserProps.EmptyContainers | src/json_parser.cpp:604-628 | `parse_unit` on `[` or `{` followed by any END_LINE tokens and the matching close gives an empty ARRAY or GROUP |
| ParserProps.GroupAscends | src/json_parser.cpp:629-641 | every GROUP `parse_group` builds has its members in `std::map` key order |
| ParserProps.ElementsStop | src/json_parser.cpp:611-617 | the element loop stops on a token that is neither END_LINE nor a comma |
| ParserProps.MembersStop | src/json_parser.cpp:630-638 | the member loop stops on a token that is neither END_LINE nor a comma |
| ParserProps.ElementsTrailingComma | src/json_parser.cpp:611-617 | a value, a comma and then `]` in an element list is a not-a-value error at the `]` |
| ParserProps.ArrayMissingBracket | src/json_parser.cpp:618 | an element list followed by a token other than `]` is an unmatched-`]` error naming that token |
| ParserProps.MembersTrailingComma | src/json_parser.cpp:630-638 | a member, a comma and then `}` is an error expecting a STRING key and finding `}` |
| ParserProps.GroupMissingBrace | src/json_parser.cpp:640 | a member list followed by a token other than `}` is an unmatched-`}` error naming that token |
| ParserProps.MemberWithoutColon | src/json_parser.cpp:632-634 | a key followed by a token other than `:` is an unmatched-`:` error naming that token |
| ParserPrefix.TrailingTokensIgnored | src/json_parser.cpp:643-693 | a value parsed from a token stream is parsed from the same stream followed by any tokens, with the cursor at the same place: the tokens after it are never read |
| ParserPrefix.TrailingTokensExamples | src/json_parser.cpp:687-693 | `7` and `[` `]` each parse the same whatever tokens follow them |
| ParserProps.DuplicateKeyKeepsFirst | src/json_parser.cpp:629-641 | example: `{"a": 1, "a": 2}` parses to a GROUP holding `"a": 1` |
| ParserProps.ArrayTrailingCommaExample | src/json_parser.cpp:611-617 | example: `[1,]` is a not-a-value error at `]` |
| ParserProps.GroupTrailingCommaExample | src/json_parser.cpp:630-638 | example: `{"a": 1,}` is an error expecting a STRING key |
| ParserProps.MissingColonExample | src/json_parser.cpp:633-634 | example: `{"a" 1}` is an unmatched-`:` error |
| ParserProps.MissingCommaExample | src/json_parser.cpp:613-618 | example: `[1 2]` is an unmatched-`]` error naming the INTEGER |
| Json.GetInt | src/json_parser.cpp:510-518 | `get_int` succeeds exactly on an INT node and gives its value; otherwise a type error |
| Json.GetStr | src/json_parser.cpp:530-538 | `get_str` succeeds exactly on a STRING node and gives its text; otherwise a type error |
| Json.GetRaw | src/json_parser.cpp:519-529 | `get_raw` succeeds exactly on a RAW node and gives its payload; otherwise a type error |
| Json.AtKey | src/json_parser.cpp:539-546 | `operator[](key)` succeeds exactly on a GROUP holding the key and gives the member stored under it; it fails with a type error or key-not-found otherwise |
| Json.AtIndex | src/json_parser.cpp:547-552 | `operator[](idx)` succeeds exactly on an ARRAY with idx < length and gives element idx; otherwise a type error or an out-of-range error |
| Json.Count | src/json_parser.cpp:790-795 | `count` is the number of members of a GROUP and 0 for any other node |
| Json.Length | src/json_parser.cpp:796-801 | `length` is the number of elements of an ARRAY and 0 for any other node |
| Json.GetMap | src/json_parser.cpp:735-746 | `get_map` succeeds exactly on a GROUP and gives a table in `std::map` order |
| Json.GetList | src/json_parser.cpp:747-758 | `get_list` succeeds exactly on an ARRAY, has its length, and holds element i at position i |
| Json.AddPair | src/json_parser.cpp:769-776 | `add_pair` fails unless the node is a GROUP; otherwise a present key keeps its value, a new key finds the added value, every other key is unchanged, and the count grows by one exactly for a new key |
| Json.Push | src/json_parser.cpp:777-784 | `push` fails unless the node is an ARRAY; otherwise the length grows by one, the new element is last, and every earlier element is unchanged |
| Json.IntText | src/json_parser.cpp:806 | `std::to_string` writes a minus sign exactly for a negative value, then the digits of its magnitude |
| Json.Stringify | src/json_parser.cpp:803-854 | a STRING is written in quotes, an ARRAY in brackets, a GROUP in braces, and a RAW node as a frame whose second byte is a digit exactly when raw payloads are shown |
| Json.HiddenIsPlain | src/json_parser.cpp:809-815 | without RAW nodes, `hide_raw` does not change the text |
| Json.ToString | src/json_parser.cpp:856-859 | `to_string` writes the summary for a RAW node, and the full text for a tree without RAW nodes |
| Json.View | src/json_parser.cpp:861-864 | `view` writes the same text as `to_string` |
| Json.ParseText | src/json_parser.cpp:687-693 | `JSON(text)` fails with the lexer's error when the text does not lex |
| Json.Empty | src/json_parser.cpp:684-686 | `JSON()` is the empty GROUP |
| Json.ValInt | src/json_parser.cpp:891-894 | `val(v)` is the INT holding the magnitude of v |
| Json.ValStr | src/json_parser.cpp:895-906 | `val(s)` of an ASCII string is the STRING holding s |
| Json.RawOf | src/json_parser.cpp:872-889 | `get_raw` of `raw(bytes)` gives the bytes back |
| Json.ArrayOf | src/json_parser.cpp:908-919 | `get_list` of `array(list)` gives the list back, in order |
| Json.MapOf | src/json_parser.cpp:921-932 | `map(table)` is a GROUP in `std::map` order |
| Json.Clone | src/json_parser.cpp:786-789 | `clone` of a tree without RAW nodes parses the tree's full text |
| JsonProps.GetMapCopies | src/json_parser.cpp:735-746 | `get_map` of a GROUP holds exactly its current members |
| JsonProps.MapOfRebuilds | src/json_parser.cpp:921-932 | `map(table)` holds exactly the table's members |
| JsonProps.MapGetMapRoundTrip | src/json_parser.cpp:735-746 | `get_map` after `map(table)` gives the table back |
| JsonProps.AtKeyStored | src/json_parser.cpp:760-763 | `operator[](key)` finds every stored member under its own key |
| JsonProps.AddPairKeepsExisting | src/json_parser.cpp:769-776 | `add_pair` of a key the GROUP already holds leaves the GROUP as it was |
| TokenRoundTrip.ParseTokensOf | src/json_parser.cpp:602-679 | `parse_unit` on the tokens of a tree, followed by the end tag, gives the tree back and stops at the end tag |
| TextRoundTrip.LexStringify | src/json_parser.cpp:803-854 | the text `stringify_unit` writes for a reparseable tree lexes to the tree's tokens |
| TextRoundTrip.StringifyRoundTrip | src/json_parser.cpp:687-693 | parsing the text `stringify_unit` writes for a reparseable tree gives the tree back, for any indent of spaces |
| TextRoundTrip.ToStringRoundTrip | src/json_parser.cpp:856-859 | parsing the `to_string` text of a reparseable tree without RAW nodes gives the tree back |
| TextRoundTrip.CloneRoundTrip | src/json_parser.cpp:786-789 | `clone` of a reparseable tree without RAW nodes is an equal tree |
| TextRoundTrip.LexRawSummary | src/json_parser.cpp:812-813 | the summary `(raw-data:N Bytes)` does not lex: its length field is not a digit run |
| TextRoundTrip.CloneFailsOnRaw | src/json_parser.cpp:786-789 | `clone` of a RAW node fails |
| TextRoundTrip.LexRawSummaryAt | src/json_parser.cpp:281 | a raw summary anywhere in the input is a bad-length error: `std::stoi` cannot read `raw-data:N Bytes` |
| TextRoundTrip.LexHiddenAt | src/json_parser.cpp:803-854 | the `hide_raw` text of a reparseable tree holding a RAW node at any depth does not lex |
| TextRoundTrip.CloneFailsOnNestedRaw | src/json_parser.cpp:786-789 | `clone` of a reparseable tree holding a RAW node at any depth fails with a bad-length error |
| TextRoundTrip.CloneMisreadsQuotedKey | src/json_parser.cpp:786-789 | example: `clone` of a GROUP whose one key is `a": 1}` and whose value is RAW succeeds, with the different tree `{"a": 1}` |

## Left out

- Ownership and lifetime are not modelled: the `child` flag, the copy and move constructors and assignments that
  hand ownership over, the destructors, and the leaked node of a dropped duplicate key (src/json_parser.cpp:635,
  694-717, 866-870). The tree is an immutable value.
- Mutation through aliases is not modelled. In the source, `operator[]`, `get_map` and `get_list` return handles
  into the same tree, so mutating through them changes the original. Here `AddPair` and `Push` return a new tree.
- `JSON::read_from_file` (src/json_parser.cpp:934-952) is left out because it is file I/O. `Token::print` and
  `TokenStream::print` are left out because they are console output.
- Error message texts are left out. Each exception is an error kind in `Results.Error`.
- Signed overflow in `get_number` is not modelled: integers are unbounded.
- LexerProps.RawNeedsDigitFirst, Lexer.RawBlock: the raw length field is read by `std::stoi`
  (src/json_parser.cpp:281). It accepts leading whitespace and a sign, and it ignores everything after the leading
  digits, so `(3x)$abc$` is RAW_DATA("abc") in the source. The model accepts only a non-empty digit run, and
  anything else is `RawBadLength`. The digits-only rule is the model's own. A field with no digit after
  optional whitespace and a sign, such as the raw summary `raw-data:N Bytes`, is an error in both.
- `isdigit` and `isalpha` on bytes at or above 0x80 (a negative `char`) are undefined behaviour. Here those bytes are
  neither digits nor letters.
- The source reads past the end of the token vector when the cursor runs off it. Here that is the error
  `StreamExhausted`, which cannot arise from lexed text because the stream ends with the end tag.
- The `LPAR`, `RPAR` and `DOLLAR` tags are left out: the lexer never produces them.
- src/json_parser.hpp is not part of this model: it holds declarations only and is out of date with the .cpp.
- src/test.cpp and tests/test.cpp are not part of this model.
- ValStr: stated only for ASCII strings; a string with bytes at or above 0x80 goes through the UTF-8 branch of the lexer.
- Json.Clone: stated for trees without RAW nodes. For a reparseable tree holding RAW nodes, `CloneFailsOnNestedRaw`
  shows that it fails. For a tree whose keys hold `"` or `\`, the outcome is shown by one example only
  (`CloneMisreadsQuotedKey`).
- The `get_int`, `get_str` and `get_raw` accessors return mutable references into the node
  (src/json_parser.cpp:722-733). Writing through them is not modelled: `GetInt`, `GetStr` and `GetRaw` return values.
- TextRoundTrip.StringifyRoundTrip: stated for trees whose integers are non-negative, whose strings are ASCII, and
  whose keys are ASCII without a quote or a backslash (`Reparseable`); the serializer does not escape keys, and the
  lexer has no minus sign.
- Json.AddPair: requires the GROUP's member table to be in ascending key order, which every table the parser and the builders make is.
