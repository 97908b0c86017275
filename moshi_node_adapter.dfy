/**
 * `MoshiNodeAdapter` (MoshiModel.kt): writing a node to a token writer and reading one from
 * a token reader. `Serialise` and `Parse` say, as functions on token sequences, what
 * `ToJson` and `FromJson` do to the writer and the reader.
 */
module MoshiNodeAdapter {
  import opened Results
  import opened JsonTokens
  import opened MoshiNodes

  /** The token `value(Number)` writes for a number. */
  function NumberToken(num: JsonNumber): (t: Token)
    ensures t.Num?
    ensures num.Long? ==> ReadLong(t) == Some(num.long)
    ensures num.Double? ==> ReadDouble(t) == Some(num.double)
  {
    match num
    case Long(v) => WriteLong(v)
    case Double(d) => WriteDouble(d)
  }

  /** The tokens `toJson` writes for a node. */
  function Serialise(n: MoshiNode): (r: seq<Token>)
    ensures |r| >= 1 && StartsValue(r[0])
  {
    match n
    case MoshiObject(fs) => [BeginObject] + SerialiseFields(fs) + [EndObject]
    case MoshiArray(es) => [BeginArray] + SerialiseElements(es) + [EndArray]
    case MoshiBoolean(b) => [WriteBoolean(b)]
    case MoshiNull => [Token.Null]
    case MoshiNumber(num) => [NumberToken(num)]
    case MoshiString(s) => [WriteString(s)]
  }

  function SerialiseElements(es: seq<MoshiNode>): seq<Token> {
    if es == [] then [] else Serialise(es[0]) + SerialiseElements(es[1..])
  }

  function SerialiseFields(fs: seq<Field>): seq<Token> {
    if fs == [] then [] else [Name(fs[0].name)] + Serialise(fs[0].value) + SerialiseFields(fs[1..])
  }

  /** `toJson(writer, value)` for a nullable node: `null` writes one null token. */
  function SerialiseNullable(value: Option<MoshiNode>): seq<Token> {
    match value
    case None => [Token.Null]
    case Some(n) => Serialise(n)
  }

  lemma {:induction false} SerialiseElementsAppend(a: seq<MoshiNode>, b: seq<MoshiNode>)
    ensures SerialiseElements(a + b) == SerialiseElements(a) + SerialiseElements(b)
  {
    if a == [] {
      assert a + b == b;
    } else {
      assert (a + b)[0] == a[0] && (a + b)[1..] == a[1..] + b;
      SerialiseElementsAppend(a[1..], b);
    }
  }

  lemma {:induction false} SerialiseFieldsAppend(a: seq<Field>, b: seq<Field>)
    ensures SerialiseFields(a + b) == SerialiseFields(a) + SerialiseFields(b)
  {
    if a == [] {
      assert a + b == b;
    } else {
      assert (a + b)[0] == a[0] && (a + b)[1..] == a[1..] + b;
      SerialiseFieldsAppend(a[1..], b);
    }
  }

  lemma AppendAssoc(a: seq<Token>, b: seq<Token>, c: seq<Token>, d: seq<Token>)
    ensures (a + b) + c + d == a + (b + c + d)
  {
  }

  lemma SerialiseFieldsSnoc(fs: seq<Field>, i: nat)
    requires i < |fs|
    ensures SerialiseFields(fs[..i + 1]) == SerialiseFields(fs[..i]) + [Name(fs[i].name)] + Serialise(fs[i].value)
  {
    assert fs[..i + 1] == fs[..i] + [fs[i]];
    SerialiseFieldsAppend(fs[..i], [fs[i]]);
    assert SerialiseFields([fs[i]]) == [Name(fs[i].name)] + Serialise(fs[i].value);
  }

  lemma SerialiseElementsSnoc(es: seq<MoshiNode>, i: nat)
    requires i < |es|
    ensures SerialiseElements(es[..i + 1]) == SerialiseElements(es[..i]) + Serialise(es[i])
  {
    assert es[..i + 1] == es[..i] + [es[i]];
    SerialiseElementsAppend(es[..i], [es[i]]);
    assert SerialiseElements([es[i]]) == Serialise(es[i]);
  }

  /** `toJson`: writes the node's tokens after whatever the writer already holds. */
  method ToJson(writer: TokenWriter, value: Option<MoshiNode>)
    modifies writer
    ensures writer.written == old(writer.written) + SerialiseNullable(value)
    decreases if value.Some? then value.value else MoshiNull, 1
  {
    match value
    case None =>
      writer.Write(Token.Null);
    case Some(n) =>
      match n
      case MoshiObject(fs) =>
        writer.Write(BeginObject);
        WriteFields(writer, n);
        writer.Write(EndObject);
      case MoshiArray(es) =>
        writer.Write(BeginArray);
        WriteElements(writer, n);
        writer.Write(EndArray);
      case MoshiBoolean(b) =>
        writer.Write(WriteBoolean(b));
      case MoshiNull =>
        writer.Write(Token.Null);
      case MoshiNumber(num) =>
        writer.Write(NumberToken(num));
      case MoshiString(s) =>
        writer.Write(WriteString(s));
  }

  /** `fields.forEach { name(it.key); toJson(this, it.value) }`. */
  method WriteFields(writer: TokenWriter, n: MoshiNode)
    requires n.MoshiObject?
    modifies writer
    ensures writer.written == old(writer.written) + SerialiseFields(n.fields)
    decreases n, 0
  {
    var fs := n.fields;
    ghost var w0 := writer.written;
    for i := 0 to |fs|
      invariant writer.written == w0 + SerialiseFields(fs[..i])
    {
      assert fs[i] in fs;
      ghost var before := SerialiseFields(fs[..i]);
      writer.Write(Name(fs[i].name));
      ToJson(writer, Some(fs[i].value));
      SerialiseFieldsSnoc(fs, i);
      AppendAssoc(w0, before, [Name(fs[i].name)], Serialise(fs[i].value));
    }
    assert fs[..|fs|] == fs;
  }

  /** `elements.forEach { toJson(this, it) }`. */
  method WriteElements(writer: TokenWriter, n: MoshiNode)
    requires n.MoshiArray?
    modifies writer
    ensures writer.written == old(writer.written) + SerialiseElements(n.elements)
    decreases n, 0
  {
    var es := n.elements;
    ghost var w0 := writer.written;
    for i := 0 to |es|
      invariant writer.written == w0 + SerialiseElements(es[..i])
    {
      assert es[i] in es;
      ghost var before := SerialiseElements(es[..i]);
      ToJson(writer, Some(es[i]));
      SerialiseElementsSnoc(es, i);
      AppendAssoc(w0, before, [], Serialise(es[i]));
    }
    assert es[..|es|] == es;
  }

  /** The token at offset `p`, as `peek()` reports it. */
  function TokenAt(ts: seq<Token>, p: nat): Token {
    if p < |ts| then ts[p] else EndDocument
  }

  /** The number rule: a `Long` when `nextLong()` accepts the literal, else a `Double`. */
  function ReadNumber(lit: NumLit): (r: JsonNumber)
    ensures r.Long? <==> ReadLong(Num(lit)).Some?
    ensures r.Long? ==> r.long == lit.value
    ensures r.Double? ==> r.double == DoubleOf(lit)
  {
    match ReadLong(Num(lit))
    case Some(v) => Long(v)
    case None => Double(DoubleOf(lit))
  }

  /**
   * `fromJson` as a function: the node read from `ts` at offset `p` and the offset just after
   * it, or the exception thrown. An error is never reported before `p`. A null token is
   * consumed, as by `nextNull()`; MoshiModel.kt:62 leaves it unread, which
   * `MoshiNodeAsWritten.ParseAsWritten` models.
   */
  function Parse(ts: seq<Token>, p: nat): (r: Result<(MoshiNode, nat), JsonDataException>)
    requires p <= |ts|
    ensures r.Ok? ==> p < r.value.1 <= |ts|
    ensures r.Err? ==> p <= r.error.at
    decreases |ts| - p, 0
  {
    match TokenAt(ts, p)
    case Null => Ok((MoshiNull, p + 1))
    case BeginArray => ParseElements(ts, p + 1, [])
    case BeginObject => ParseFields(ts, p + 1, [])
    case Bool(b) => Ok((MoshiBoolean(b), p + 1))
    case Num(lit) => Ok((MoshiNumber(ReadNumber(lit)), p + 1))
    case Str(s) => Ok((MoshiString(s), p + 1))
    case _ => Err(IllegalValue(p))
  }

  /** The rest of an array body from offset `p`, after the elements `acc` were read. */
  function ParseElements(ts: seq<Token>, p: nat, acc: seq<MoshiNode>): (r: Result<(MoshiNode, nat), JsonDataException>)
    requires p <= |ts|
    ensures r.Ok? ==> p < r.value.1 <= |ts|
    ensures r.Err? ==> p <= r.error.at
    decreases |ts| - p, 1
  {
    if TokenAt(ts, p) == EndArray then Ok((MoshiArray(acc), p + 1))
    else
      match Parse(ts, p)
      case Err(e) => Err(e)
      case Ok((v, q)) => ParseElements(ts, q, acc + [v])
  }

  /** The rest of an object body from offset `p`, after the fields `acc` were read. */
  function ParseFields(ts: seq<Token>, p: nat, acc: seq<Field>): (r: Result<(MoshiNode, nat), JsonDataException>)
    requires p <= |ts|
    ensures r.Ok? ==> p < r.value.1 <= |ts|
    ensures r.Err? ==> p <= r.error.at
    decreases |ts| - p, 1
  {
    var t := TokenAt(ts, p);
    if t == EndObject then Ok((MoshiObject(acc), p + 1))
    else if !t.Name? then Err(ExpectedName(p))
    else
      match Parse(ts, p + 1)
      case Err(e) => Err(e)
      case Ok((v, q)) => ParseFields(ts, q, Put(acc, t.name, v))
  }

  /** The reader after `fromJson` agrees with `Parse`: same node, same offset, same error. */
  ghost predicate ReadAs(spec: Result<(MoshiNode, nat), JsonDataException>, res: Result<MoshiNode, JsonDataException>, pos: nat) {
    match spec
    case Ok((n, q)) => res == Ok(n) && pos == q
    case Err(e) => res == Err(e)
  }

  /** `fromJson`: reads one node from the reader, or fails without returning a partial node.
      A null token is read with `nextNull()`, as in `Parse`. */
  method FromJson(reader: TokenReader) returns (res: Result<MoshiNode, JsonDataException>)
    requires reader.Valid()
    modifies reader
    ensures reader.Valid()
    ensures ReadAs(Parse(reader.tokens[..], old(reader.pos)), res, reader.pos)
    decreases reader.tokens.Length - reader.pos, 1
  {
    match reader.Peek()
    case Null =>
      var _ := reader.Next();
      res := Ok(MoshiNull);
    case BeginArray =>
      var _ := reader.Next();
      res := ReadElements(reader);
    case BeginObject =>
      var _ := reader.Next();
      res := ReadFields(reader);
    case Bool(b) =>
      var flag := reader.Read(ReadBoolean);
      res := Ok(MoshiBoolean(flag.value));
    case Num(lit) =>
      var probe := reader.PeekJson();
      var trial := probe.Read(ReadLong);
      if trial.Ok? {
        var v := reader.Read(ReadLong);
        res := Ok(MoshiNumber(Long(v.value)));
      } else {
        var d := reader.Read(ReadDouble);
        res := Ok(MoshiNumber(Double(d.value)));
      }
    case Str(s) =>
      var text := reader.Read(ReadString);
      res := Ok(MoshiString(text.value));
    case _ =>
      res := Err(IllegalValue(reader.pos));
  }

  /** `while (peek() != END_ARRAY) list += fromJson(this)`, then `endArray()`. */
  method ReadElements(reader: TokenReader) returns (res: Result<MoshiNode, JsonDataException>)
    requires reader.Valid()
    modifies reader
    ensures reader.Valid()
    ensures ReadAs(ParseElements(reader.tokens[..], old(reader.pos), []), res, reader.pos)
    decreases reader.tokens.Length - reader.pos, 2
  {
    ghost var ts := reader.tokens[..];
    ghost var p0 := reader.pos;
    var list: seq<MoshiNode> := [];
    while reader.Peek() != EndArray
      invariant reader.Valid() && p0 <= reader.pos
      invariant ParseElements(ts, p0, []) == ParseElements(ts, reader.pos, list)
      decreases reader.tokens.Length - reader.pos
    {
      var element := FromJson(reader);
      if element.Err? {
        return Err(element.error);
      }
      list := list + [element.value];
    }
    var _ := reader.Next();
    res := Ok(MoshiArray(list));
  }

  /**
   * `while (peek() != END_OBJECT) { ... map[nextName()] = fromJson(this) }`, then
   * `endObject()`; a token other than a name where a name belongs throws.
   */
  method ReadFields(reader: TokenReader) returns (res: Result<MoshiNode, JsonDataException>)
    requires reader.Valid()
    modifies reader
    ensures reader.Valid()
    ensures ReadAs(ParseFields(reader.tokens[..], old(reader.pos), []), res, reader.pos)
    decreases reader.tokens.Length - reader.pos, 2
  {
    ghost var ts := reader.tokens[..];
    ghost var p0 := reader.pos;
    var fields: seq<Field> := [];
    while reader.Peek() != EndObject
      invariant reader.Valid() && p0 <= reader.pos
      invariant ParseFields(ts, p0, []) == ParseFields(ts, reader.pos, fields)
      decreases reader.tokens.Length - reader.pos
    {
      if !reader.Peek().Name? {
        return Err(ExpectedName(reader.pos));
      }
      var name := reader.Next();
      var value := FromJson(reader);
      if value.Err? {
        return Err(value.error);
      }
      fields := Put(fields, name.name, value.value);
    }
    var _ := reader.Next();
    res := Ok(MoshiObject(fields));
  }
}
