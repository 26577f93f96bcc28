/** The lexer's tokens and the parser's error kinds.

    The source also declares `LPAR`, `RPAR` and `DOLLAR` tags; the lexer never
    produces them (a `(` always starts a raw block), so they have no token here. */
module Tokens {
  import opened Bytes

  datatype Tag =
    | BeginTag | EndTag | IntegerTag | StringTag | RawDataTag
    | LsbTag | RsbTag | CommaTag | ColonTag | EndLineTag | EndOfStreamTag

  datatype Token =
    | BeginTok                  // {
    | EndTok                    // }
    | LsbTok                    // [
    | RsbTok                    // ]
    | CommaTok                  // ,
    | ColonTok                  // :
    | IntegerTok(value: nat)    // a digit run, or true / false / null
    | StringTok(text: bytes)    // a quoted string, already unescaped
    | RawDataTok(data: bytes)   // a framed raw block (N)$…$
    | EndLineTok                // CR or LF
    | EndOfStreamTok            // pushed once, after the last byte
  {
    function TagOf(): Tag {
      match this
      case BeginTok => BeginTag
      case EndTok => EndTag
      case LsbTok => LsbTag
      case RsbTok => RsbTag
      case CommaTok => CommaTag
      case ColonTok => ColonTag
      case IntegerTok(_) => IntegerTag
      case StringTok(_) => StringTag
      case RawDataTok(_) => RawDataTag
      case EndLineTok => EndLineTag
      case EndOfStreamTok => EndOfStreamTag
    }
  }
}

/** Failures. Every exception the source throws becomes one error kind; the
    message texts are not modelled. */
module Results {
  import opened Bytes
  import opened Tokens

  /** The node types of the source's `NodeType` enumeration. */
  datatype Kind = IntKind | StringKind | ArrayKind | GroupKind | RawKind

  datatype Error =
    // lexical errors
    | DanglingEscape                         // a backslash is the last byte
    | BadEscape(escaped: byte)               // a backslash before a byte outside the escape table
    | TruncatedUtf8                          // a multi-byte lead with too few bytes after it
    | UnknownWord(word: bytes)               // a letter run other than true, false, null
    | RawMissingRightParen                   // no ')' after '('
    | RawBadLength(field: bytes)             // the text between '(' and ')' is not a digit run
    | RawMissingOpenDollar                   // no '$' right after ')'
    | RawTruncated                           // fewer than length + 1 bytes after the opening '$'
    | RawMissingCloseDollar                  // the byte after the payload is not '$'
    // syntax errors
    | StreamExhausted                        // the cursor ran past the last token
    | Unmatched(expected: Tag, found: Tag)   // TokenStream::match saw another tag
    | NotAValue(found: Tag)                  // parse_unit saw a token that starts no value
    // access errors
    | TypeMismatch(wanted: Kind, actual: Kind)
    | KeyNotFound(key: bytes)
    | IndexOutOfRange(index: nat, length: nat)

  datatype Result<+T> = Ok(value: T) | Err(error: Error) {
    predicate IsFailure() {
      Err?
    }

    function PropagateFailure<U>(): Result<U>
      requires Err?
    {
      Err(error)
    }

    function Extract(): T
      requires Ok?
    {
      value
    }
  }

  /** `xs` followed by the successful result of `r`; a failure stays a failure. */
  function Prepend<T>(xs: seq<T>, r: Result<seq<T>>): Result<seq<T>> {
    match r
    case Ok(ys) => Ok(xs + ys)
    case Err(e) => Err(e)
  }

  lemma PrependEmpty<T>(r: Result<seq<T>>)
    ensures Prepend([], r) == r
  {
    if r.Ok? {
      assert [] + r.value == r.value;
    }
  }

  lemma PrependPrepend<T>(xs: seq<T>, ys: seq<T>, r: Result<seq<T>>)
    ensures Prepend(xs, Prepend(ys, r)) == Prepend(xs + ys, r)
  {
    if r.Ok? {
      assert xs + (ys + r.value) == (xs + ys) + r.value;
    }
  }
}
