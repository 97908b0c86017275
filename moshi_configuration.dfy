/**
 * `Moshi.Builder.asConfigurable()` and `UnitAdapter` (ConfigurableMoshi.kt): the null-safe
 * adapter registered for each primitive `BiDiMapping`, the adapter for `Unit`, and the order in
 * which `done()` registers the built-in adapters and the reflective fallback.
 *
 * The builder keeps the factories given to `add` and, after them, those given to `addLast`;
 * a type resolves to the first factory that accepts it. This first-match rule is Moshi's and
 * is the stated assumption of this model.
 */
module MoshiConfiguration {
  import opened Results
  import opened JsonTokens
  import opened MoshiNodes
  import opened MoshiNodeAdapter
  import MoshiNodeProperties

  /** A type identity (a `KClass` or a `java.lang.reflect.Type`), kept abstract. */
  datatype TypeKey = TypeKey(name: string)

  /** The identity of `Unit::class.java`. */
  const UnitType: TypeKey := TypeKey("kotlin.Unit")

  /** http4k's `BiDiMapping<IN, OUT>`: `asOut` builds the mapped value from the primitive,
      `asIn` takes it back. */
  datatype BiDiMapping<!IN, !OUT> = BiDiMapping(clazz: TypeKey, asOut: IN -> OUT, asIn: OUT -> IN)

  /** The writer call and the reader call for one primitive: `value(it)` and `nextInt()`,
      `nextLong()`, `nextDouble()`, `nextBoolean()` or `nextString()`. */
  datatype Primitive<!T> = Primitive(write: T -> Token, read: Token -> Option<T>)

  const IntPrimitive: Primitive<Int32> := Primitive(WriteInt, ReadInt)
  const LongPrimitive: Primitive<Int64> := Primitive(WriteLong, ReadLong)
  const DoublePrimitive: Primitive<Float64> := Primitive(WriteDouble, ReadDouble)
  const BooleanPrimitive: Primitive<bool> := Primitive(WriteBoolean, ReadBoolean)
  const TextPrimitive: Primitive<string> := Primitive(WriteString, ReadString)

  /** Reading back what was written gives the value again, and neither a null nor the end of
      the document is ever read as a value. */
  ghost predicate Lossless<T(!new)>(p: Primitive<T>) {
    (forall v :: p.read(p.write(v)) == Some(v)) && p.read(Null).None? && p.read(EndDocument).None?
  }

  /** The two directions of a mapping undo each other. */
  ghost predicate Inverse<IN, OUT(!new)>(m: BiDiMapping<IN, OUT>) {
    forall o :: m.asOut(m.asIn(o)) == o
  }

  /** Every primitive the configuration registers reads back what it writes. */
  lemma PrimitivesLossless()
    ensures Lossless(IntPrimitive) && Lossless(LongPrimitive) && Lossless(DoublePrimitive)
    ensures Lossless(BooleanPrimitive) && Lossless(TextPrimitive)
  {
    forall v: Int32 ensures IntPrimitive.read(IntPrimitive.write(v)) == Some(v) {
      assert WriteInt(v) == Num(IntegerLit(v));
    }
    forall v: Int64 ensures LongPrimitive.read(LongPrimitive.write(v)) == Some(v) {
      assert WriteLong(v) == Num(IntegerLit(v));
    }
    forall v: Float64 ensures DoublePrimitive.read(DoublePrimitive.write(v)) == Some(v) {
      assert WriteDouble(v) == Num(v.literal);
    }
  }

  /** The tokens the registered adapter writes for `value`: a null token for `null`, and
      otherwise the primitive `mapping(value)`. */
  function EncodeMapped<IN(!new), OUT>(m: BiDiMapping<IN, OUT>, p: Primitive<IN>, value: Option<OUT>): (r: seq<Token>)
    ensures |r| == 1
    ensures value.None? ==> r == [Null]
    ensures value.Some? && Lossless(p) ==> r[0] != Null && p.read(r[0]) == Some(m.asIn(value.value))
  {
    if value.None? then [Null] else [p.write(m.asIn(value.value))]
  }

  /** What the registered adapter reads at offset `pos`: `null` for a null token, otherwise the
      mapping applied to the primitive read; the offset after it, or the exception. */
  function DecodeMapped<IN, OUT>(m: BiDiMapping<IN, OUT>, p: Primitive<IN>, ts: seq<Token>, pos: nat)
    : (r: Result<(Option<OUT>, nat), JsonDataException>)
    requires pos <= |ts| && p.read(EndDocument).None?
    ensures r.Ok? ==> r.value.1 == pos + 1 <= |ts|
    ensures r.Ok? && r.value.0.None? ==> TokenAt(ts, pos) == Null
    ensures r.Err? ==> r == Err(UnexpectedToken(pos)) && p.read(TokenAt(ts, pos)).None?
    ensures TokenAt(ts, pos) == Null ==> r == Ok((None, pos + 1))
    ensures TokenAt(ts, pos) != Null ==> (r.Ok? <==> p.read(TokenAt(ts, pos)).Some?)
    ensures TokenAt(ts, pos) != Null && p.read(TokenAt(ts, pos)).Some? ==>
      r == Ok((Some(m.asOut(p.read(TokenAt(ts, pos)).value)), pos + 1))
  {
    var t := TokenAt(ts, pos);
    if t == Null then Ok((None, pos + 1))
    else
      match p.read(t)
      case Some(v) => Ok((Some(m.asOut(v)), pos + 1))
      case None => Err(UnexpectedToken(pos))
  }

  /** `toJson` of the adapter `adapter(mapping, write, read)` registers, made `nullSafe()`. */
  method MappedToJson<IN(!new), OUT>(writer: TokenWriter, m: BiDiMapping<IN, OUT>, p: Primitive<IN>, value: Option<OUT>)
    modifies writer
    ensures writer.written == old(writer.written) + EncodeMapped(m, p, value)
  {
    match value
    case None => writer.Write(Null);
    case Some(v) => writer.Write(p.write(m.asIn(v)));
  }

  /** `fromJson` of the same adapter: `nullSafe()` answers a null token with `null`, and the
      adapter otherwise applies the mapping to the primitive read. */
  method MappedFromJson<IN, OUT>(reader: TokenReader, m: BiDiMapping<IN, OUT>, p: Primitive<IN>)
    returns (r: Result<Option<OUT>, JsonDataException>)
    requires reader.Valid() && p.read(EndDocument).None?
    modifies reader
    ensures reader.Valid()
    ensures match DecodeMapped(m, p, reader.tokens[..], old(reader.pos))
            case Ok((v, q)) => r == Ok(v) && reader.pos == q
            case Err(e) => r == Err(e) && reader.pos == old(reader.pos)
  {
    assert reader.Peek() == TokenAt(reader.tokens[..], reader.pos);
    if reader.Peek() == Null {
      var _ := reader.Next();
      r := Ok(None);
    } else {
      var x := reader.Read(p.read);
      match x
      case Ok(v) => r := Ok(Some(m.asOut(v)));
      case Err(e) => r := Err(e);
    }
  }

  /** With a lossless primitive and a mapping whose directions are inverse, reading what the
      adapter wrote gives the value back and consumes exactly its one token. */
  lemma MappedRoundTrip<IN(!new), OUT(!new)>(m: BiDiMapping<IN, OUT>, p: Primitive<IN>, value: Option<OUT>, rest: seq<Token>)
    requires Lossless(p) && Inverse(m)
    ensures DecodeMapped(m, p, EncodeMapped(m, p, value) + rest, 0) == Ok((value, 1))
  {
    var ts := EncodeMapped(m, p, value) + rest;
    assert TokenAt(ts, 0) == EncodeMapped(m, p, value)[0];
    if value.Some? {
      var i := m.asIn(value.value);
      assert p.read(p.write(i)) == Some(i);
      assert m.asOut(i) == value.value;
    }
  }

  /** The tokens `UnitAdapter.toJson` writes: `{}` for `Unit`, a null token for `null`. */
  function UnitTokens(value: Option<()>): (r: seq<Token>)
    ensures value.Some? ==> r == [BeginObject, EndObject]
    ensures value.None? ==> r == [Null]
  {
    if value.Some? then [BeginObject, EndObject] else [Null]
  }

  /** `UnitAdapter.toJson`. */
  method UnitToJson(writer: TokenWriter, value: Option<()>)
    modifies writer
    ensures writer.written == old(writer.written) + UnitTokens(value)
  {
    if value.Some? {
      writer.Write(BeginObject);
      writer.Write(EndObject);
    } else {
      writer.Write(Null);
    }
  }

  /** What `UnitAdapter` writes is one JSON value: an empty object, or null. */
  lemma UnitTokensAreOneValue(value: Option<()>, rest: seq<Token>)
    ensures Parse(UnitTokens(value) + rest, 0)
         == Ok((if value.Some? then MoshiObject([]) else MoshiNull, |UnitTokens(value)|))
  {
    var ts := UnitTokens(value) + rest;
    if value.Some? {
      assert TokenAt(ts, 0) == BeginObject && TokenAt(ts, 1) == EndObject;
      assert ParseFields(ts, 1, []) == Ok((MoshiObject([]), 2));
    } else {
      assert TokenAt(ts, 0) == Null;
    }
  }

  /** `UnitAdapter.fromJson`: reads one whole value and discards it. */
  method UnitFromJson(reader: TokenReader) returns (r: Result<(), JsonDataException>)
    requires reader.Valid()
    modifies reader
    ensures reader.Valid()
    ensures match Parse(reader.tokens[..], old(reader.pos))
            case Ok((_, q)) => r == Ok(()) && reader.pos == q
            case Err(e) => r == Err(e)
  {
    var value := FromJson(reader);
    match value
    case Ok(_) => r := Ok(());
    case Err(e) => r := Err(e);
  }

  /** Reading `Unit` from in front of the tokens `toJson` writes for any integral node succeeds
      and consumes exactly that node's tokens, whatever follows them. */
  method UnitReadsOneValue(n: MoshiNode, rest: seq<Token>) returns (r: Result<(), JsonDataException>, consumed: nat)
    requires IntegralNode(n)
    ensures r == Ok(())
    ensures consumed == |Serialise(n)|
  {
    var ts := Serialise(n) + rest;
    var tokens := new Token[|ts|](i requires 0 <= i < |ts| => ts[i]);
    var reader := new TokenReader(tokens);
    assert tokens[..] == ts;
    assert MoshiNodeProperties.At(ts, 0, Serialise(n)) by {
      MoshiNodeProperties.AtConcat([], Serialise(n), rest);
      assert [] + Serialise(n) + rest == ts;
    }
    MoshiNodeProperties.ParseSerialise(n, ts, 0);
    r := UnitFromJson(reader);
    consumed := reader.pos;
  }

  /** Which primitive a registered mapping reads and writes. */
  datatype PrimitiveKind = IntKind | LongKind | DoubleKind | BooleanKind | TextKind

  /** The adapters the configuration can end up using. */
  datatype Adapter =
    | Mapped(clazz: TypeKey, kind: PrimitiveKind)
    | EventAdapter
    | ThrowableAdapter
    | CollectionEdgeCasesAdapter
    | NodeAdapter
    | UnitAdapter
    | KotlinReflective

  /**
   * A factory in the builder. `ForType` is `add(type, adapter)`, which answers for that exact
   * type only; `ForTypes` is an adapter factory that answers for the types it accepts (which
   * types those are is decided by code this model does not contain).
   */
  datatype Factory = ForType(clazz: TypeKey, adapter: Adapter) | ForTypes(accepts: set<TypeKey>, adapter: Adapter)

  predicate Matches(f: Factory, t: TypeKey) {
    match f
    case ForType(c, _) => c == t
    case ForTypes(accepts, _) => t in accepts
  }

  /** The index of the first factory that accepts `t`, or `None` when no factory does (the
      type is unsupported). */
  function Resolve(fs: seq<Factory>, t: TypeKey): (r: Option<nat>)
    ensures r.Some? ==> r.value < |fs| && Matches(fs[r.value], t)
    ensures r.Some? ==> forall j :: 0 <= j < r.value ==> !Matches(fs[j], t)
    ensures r.None? <==> forall j :: 0 <= j < |fs| ==> !Matches(fs[j], t)
  {
    if fs == [] then None
    else if Matches(fs[0], t) then Some(0)
    else
      match Resolve(fs[1..], t)
      case None => None
      case Some(i) => Some(i + 1)
  }

  /** A type some factory of `a` accepts is resolved within `a`, whatever follows. */
  lemma {:induction false} ResolvePrefix(a: seq<Factory>, b: seq<Factory>, t: TypeKey)
    requires Resolve(a, t).Some?
    ensures Resolve(a + b, t) == Resolve(a, t)
    decreases a
  {
    if !Matches(a[0], t) {
      assert (a + b)[1..] == a[1..] + b;
      ResolvePrefix(a[1..], b, t);
    }
  }

  /** A type no factory of `a` accepts is resolved in `b`, past all of `a`. */
  lemma {:induction false} ResolveSuffix(a: seq<Factory>, b: seq<Factory>, t: TypeKey)
    requires Resolve(a, t).None?
    ensures Resolve(a + b, t) == if Resolve(b, t).Some? then Some(|a| + Resolve(b, t).value) else None
    decreases a
  {
    if a == [] {
      assert a + b == b;
    } else {
      assert (a + b)[1..] == a[1..] + b;
      ResolveSuffix(a[1..], b, t);
    }
  }

  /** The types each built-in adapter of `done()` accepts. */
  datatype BuiltinTypes = BuiltinTypes(
    events: set<TypeKey>, throwables: set<TypeKey>, edgeCases: set<TypeKey>,
    nodes: set<TypeKey>, reflective: set<TypeKey>)

  /** What `done()` passes to `add`, in order. */
  function DoneAdded(b: BuiltinTypes): (r: seq<Factory>)
    ensures |r| == 5 && r[4] == ForType(UnitType, UnitAdapter)
  {
    [ ForTypes(b.events, EventAdapter), ForTypes(b.throwables, ThrowableAdapter),
      ForTypes(b.edgeCases, CollectionEdgeCasesAdapter), ForTypes(b.nodes, NodeAdapter),
      ForType(UnitType, UnitAdapter) ]
  }

  /** The factory `done()` passes to `addLast`. */
  function Fallback(b: BuiltinTypes): Factory {
    ForTypes(b.reflective, KotlinReflective)
  }

  /** `Moshi.Builder`: the factories given to `add`, then those given to `addLast`. */
  class MoshiBuilder {
    var added: seq<Factory>
    var last: seq<Factory>

    constructor ()
      ensures added == [] && last == []
    {
      added := [];
      last := [];
    }

    /** The order in which factories are consulted. */
    function Factories(): seq<Factory>
      reads this
    {
      added + last
    }

    /** `add`: after every earlier `add`, before every `addLast`. */
    method Add(f: Factory)
      modifies this
      ensures added == old(added) + [f] && last == old(last)
    {
      added := added + [f];
    }

    /** `addLast`: after everything. */
    method AddLast(f: Factory)
      modifies this
      ensures added == old(added) && last == old(last) + [f]
    {
      last := last + [f];
    }
  }

  /** `adapter(mapping, write, read)`, as used by `int`, `long`, `double`, `boolean` and `text`:
      registers the null-safe adapter for exactly `mapping.clazz`. */
  method RegisterMapping<IN, OUT>(builder: MoshiBuilder, m: BiDiMapping<IN, OUT>, kind: PrimitiveKind)
    modifies builder
    ensures builder.added == old(builder.added) + [ForType(m.clazz, Mapped(m.clazz, kind))]
    ensures builder.last == old(builder.last)
  {
    builder.Add(ForType(m.clazz, Mapped(m.clazz, kind)));
  }

  /** `done()`: the built-in adapters with `add`, then the reflective factory with `addLast`. */
  method Done(builder: MoshiBuilder, b: BuiltinTypes)
    modifies builder
    ensures builder.added == old(builder.added) + DoneAdded(b)
    ensures builder.last == old(builder.last) + [Fallback(b)]
  {
    builder.Add(ForTypes(b.events, EventAdapter));
    builder.Add(ForTypes(b.throwables, ThrowableAdapter));
    builder.Add(ForTypes(b.edgeCases, CollectionEdgeCasesAdapter));
    builder.Add(ForTypes(b.nodes, NodeAdapter));
    builder.Add(ForType(UnitType, UnitAdapter));
    builder.AddLast(Fallback(b));
  }

  /** Every factory registered through the configuration is a mapping for its own type. */
  predicate AllMappings(fs: seq<Factory>) {
    forall i :: 0 <= i < |fs| ==> fs[i].ForType? && fs[i].adapter.Mapped? && fs[i].adapter.clazz == fs[i].clazz
  }

  /**
   * The order `done()` sets up keeps the configuration's own registrations first: a type that
   * one of them accepts resolves to the first of them that does, never to a built-in adapter
   * and never to the reflective fallback. When every registration is a mapping, that is the
   * first mapping registered for the type (the earliest registration wins).
   */
  lemma ExplicitMappingWins(user: seq<Factory>, tail: seq<Factory>, b: BuiltinTypes, t: TypeKey, i: nat)
    requires i < |user| && Matches(user[i], t)
    ensures var fs := (user + DoneAdded(b)) + (tail + [Fallback(b)]);
      var r := Resolve(fs, t);
      r.Some? && r.value <= i && fs[r.value] == user[r.value]
      && forall j :: 0 <= j < r.value ==> !Matches(user[j], t)
    ensures var fs := (user + DoneAdded(b)) + (tail + [Fallback(b)]);
      var r := Resolve(fs, t);
      AllMappings(user) ==>
        (r.Some? && fs[r.value].adapter == Mapped(t, fs[r.value].adapter.kind)
         && forall j :: 0 <= j < r.value ==> user[j].clazz != t)
  {
    ResolvePrefix(user, DoneAdded(b), t);
    ResolvePrefix(user + DoneAdded(b), tail + [Fallback(b)], t);
    var k := Resolve(user, t).value;
    assert ((user + DoneAdded(b)) + (tail + [Fallback(b)]))[k] == user[k];
    assert forall j :: 0 <= j < k ==> !Matches(user[j], t);
  }

  /** A type that nothing else accepts and that the reflective factory can take apart resolves
      to the reflective fallback, the last factory of all. */
  lemma ReflectiveIsLastResort(user: seq<Factory>, tail: seq<Factory>, b: BuiltinTypes, t: TypeKey)
    requires Resolve(user + DoneAdded(b), t).None? && Resolve(tail, t).None?
    requires t in b.reflective
    ensures var fs := (user + DoneAdded(b)) + (tail + [Fallback(b)]);
      Resolve(fs, t) == Some(|fs| - 1) && fs[|fs| - 1].adapter == KotlinReflective
  {
    assert Matches(Fallback(b), t);
    ResolveSuffix(tail, [Fallback(b)], t);
    ResolveSuffix(user + DoneAdded(b), tail + [Fallback(b)], t);
  }

  /** A type that no factory accepts, the fallback included, is unsupported. */
  lemma UnsupportedType(user: seq<Factory>, tail: seq<Factory>, b: BuiltinTypes, t: TypeKey)
    requires Resolve(user + DoneAdded(b), t).None? && Resolve(tail, t).None?
    requires t !in b.reflective
    ensures Resolve((user + DoneAdded(b)) + (tail + [Fallback(b)]), t).None?
  {
    ResolveSuffix(tail, [Fallback(b)], t);
    ResolveSuffix(user + DoneAdded(b), tail + [Fallback(b)], t);
  }

  /** `Unit` resolves to `UnitAdapter` unless a mapping for it was registered first. */
  lemma UnitResolvesToUnitAdapter(user: seq<Factory>, tail: seq<Factory>, b: BuiltinTypes)
    requires AllMappings(user) && forall i :: 0 <= i < |user| ==> user[i].clazz != UnitType
    requires UnitType !in b.events && UnitType !in b.throwables
    requires UnitType !in b.edgeCases && UnitType !in b.nodes
    ensures var fs := (user + DoneAdded(b)) + (tail + [Fallback(b)]);
      Resolve(fs, UnitType) == Some(|user| + 4) && fs[|user| + 4].adapter == UnitAdapter
  {
    var added := DoneAdded(b);
    assert Resolve(user, UnitType).None?;
    assert Resolve(added, UnitType) == Some(4);
    ResolveSuffix(user, added, UnitType);
    ResolvePrefix(user + added, tail + [Fallback(b)], UnitType);
    assert ((user + added) + (tail + [Fallback(b)]))[|user| + 4] == added[4];
  }
}
