/**
 * The token-level view of JSON that the node adapter works against: the token kinds a
 * pull-style reader reports from `peek()`, the primitive reads it offers, and a reader and a
 * writer over an in-memory token stream. Character-level lexing is not modelled: a number
 * token carries a literal already classified as an integer literal or some other literal.
 */
module JsonTokens {
  import opened Results

  const MinInt32: int := -0x8000_0000
  const MaxInt32: int := 0x7FFF_FFFF
  const MinInt64: int := -0x8000_0000_0000_0000
  const MaxInt64: int := 0x7FFF_FFFF_FFFF_FFFF

  /** Kotlin `Int`. */
  type Int32 = x: int | MinInt32 <= x <= MaxInt32
  /** Kotlin `Long`. */
  type Int64 = x: int | MinInt64 <= x <= MaxInt64

  /**
   * The literal of a NUMBER token: an integer literal (no fraction, no exponent) of any
   * magnitude, or any other numeric literal, whose text is kept but never interpreted.
   */
  datatype NumLit = IntegerLit(value: int) | OtherLit(text: string)

  /**
   * A 64-bit floating-point value, kept opaque: the double that the reader's `nextDouble()`
   * yields for `literal`. No arithmetic is ever done on it.
   */
  datatype Float64 = DoubleOf(literal: NumLit)

  datatype Token =
    | BeginArray
    | EndArray
    | BeginObject
    | EndObject
    | Name(name: string)
    | Str(text: string)
    | Num(lit: NumLit)
    | Bool(flag: bool)
    | Null
    | EndDocument

  /** The `JsonDataException`s of this model; `at` is the offset of the offending token. */
  datatype JsonDataException =
    | ExpectedName(at: nat)       // "expected name at $path"
    | IllegalValue(at: nat)       // "illegal value at $path"
    | UnexpectedToken(at: nat)    // a typed read (nextInt, nextBoolean, ...) met another token

  /** True for the tokens that can start a JSON value. */
  predicate StartsValue(t: Token) {
    t.BeginArray? || t.BeginObject? || t.Str? || t.Num? || t.Bool? || t.Null?
  }

  /** `nextLong()`: succeeds exactly on an integer literal within the range of a Kotlin `Long`. */
  function ReadLong(t: Token): (r: Option<Int64>)
    ensures r.Some? <==> t.Num? && t.lit.IntegerLit? && MinInt64 <= t.lit.value <= MaxInt64
    ensures r.Some? ==> r.value == t.lit.value
  {
    if t.Num? && t.lit.IntegerLit? && MinInt64 <= t.lit.value <= MaxInt64 then Some(t.lit.value) else None
  }

  /** `nextInt()`: succeeds exactly on an integer literal within the range of a Kotlin `Int`. */
  function ReadInt(t: Token): (r: Option<Int32>)
    ensures r.Some? <==> t.Num? && t.lit.IntegerLit? && MinInt32 <= t.lit.value <= MaxInt32
    ensures r.Some? ==> r.value == t.lit.value
  {
    if t.Num? && t.lit.IntegerLit? && MinInt32 <= t.lit.value <= MaxInt32 then Some(t.lit.value) else None
  }

  /** `nextDouble()`: succeeds on every number literal. */
  function ReadDouble(t: Token): (r: Option<Float64>)
    ensures r.Some? <==> t.Num?
    ensures r.Some? ==> r.value.literal == t.lit
  {
    if t.Num? then Some(DoubleOf(t.lit)) else None
  }

  /** `nextBoolean()`. */
  function ReadBoolean(t: Token): (r: Option<bool>)
    ensures r.Some? <==> t.Bool?
    ensures r.Some? ==> r.value == t.flag
  {
    if t.Bool? then Some(t.flag) else None
  }

  /** `nextString()`. */
  function ReadString(t: Token): (r: Option<string>)
    ensures r.Some? <==> t.Str?
    ensures r.Some? ==> r.value == t.text
  {
    if t.Str? then Some(t.text) else None
  }

  /** `value(long)`: the token the writer emits for an integral number. */
  function WriteLong(v: Int64): (t: Token)
    ensures ReadLong(t) == Some(v)
  {
    Num(IntegerLit(v))
  }

  /** `value(int)`. */
  function WriteInt(v: Int32): (t: Token)
    ensures ReadInt(t) == Some(v) && ReadLong(t) == Some(v)
  {
    Num(IntegerLit(v))
  }

  /** `value(double)`: the model writes back the literal the double was read from. */
  function WriteDouble(d: Float64): (t: Token)
    ensures ReadDouble(t) == Some(d)
  {
    Num(d.literal)
  }

  /** `value(boolean)`. */
  function WriteBoolean(b: bool): (t: Token)
    ensures ReadBoolean(t) == Some(b)
  {
    Bool(b)
  }

  /** `value(String)`. */
  function WriteString(s: string): (t: Token)
    ensures ReadString(t) == Some(s)
  {
    Str(s)
  }

  /** A pull-style reader: an index into a fixed array of tokens. */
  class TokenReader {
    const tokens: array<Token>
    var pos: nat

    ghost predicate Valid()
      reads this
    {
      pos <= tokens.Length
    }

    constructor (ts: array<Token>)
      ensures tokens == ts && pos == 0 && Valid()
    {
      tokens := ts;
      pos := 0;
    }

    /** `peek()`: the next token, or `EndDocument` once the array is exhausted. */
    function Peek(): (t: Token)
      reads this, tokens
      requires Valid()
      ensures pos < tokens.Length ==> t == tokens[pos]
      ensures pos == tokens.Length ==> t == EndDocument
    {
      if pos < tokens.Length then tokens[pos] else EndDocument
    }

    /** Consumes the next token (`beginArray()`, `endObject()`, `nextName()`, `nextNull()`, ...). */
    method Next() returns (t: Token)
      requires Valid() && pos < tokens.Length
      modifies this
      ensures Valid() && pos == old(pos) + 1
      ensures t == tokens[old(pos)]
    {
      t := tokens[pos];
      pos := pos + 1;
    }

    /** A typed read: consumes the next token exactly when `read` accepts it. */
    method Read<T>(read: Token -> Option<T>) returns (r: Result<T, JsonDataException>)
      requires Valid() && read(EndDocument).None?
      modifies this
      ensures Valid()
      ensures read(old(Peek())).Some? ==> r == Ok(read(old(Peek())).value) && pos == old(pos) + 1
      ensures read(old(Peek())).None? ==> r == Err(UnexpectedToken(old(pos))) && pos == old(pos)
    {
      var t := Peek();
      match read(t)
      case Some(v) =>
        pos := pos + 1;
        r := Ok(v);
      case None =>
        r := Err(UnexpectedToken(pos));
    }

    /** `peekJson()`: a second reader at the same position, which can read ahead without
        moving this one. */
    method PeekJson() returns (probe: TokenReader)
      requires Valid()
      ensures fresh(probe) && probe.Valid()
      ensures probe.tokens == tokens && probe.pos == pos
    {
      probe := new TokenReader(tokens);
      probe.pos := pos;
    }
  }

  /** A token sink: everything written so far, in order. */
  class TokenWriter {
    var written: seq<Token>

    constructor ()
      ensures written == []
    {
      written := [];
    }

    method Write(t: Token)
      modifies this
      ensures written == old(written) + [t]
    {
      written := written + [t];
    }
  }
}
