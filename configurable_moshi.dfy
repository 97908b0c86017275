/**
 * The accessor facade and the node constructors of `ConfigurableMoshi`
 * (ConfigurableMoshi.kt): projections that inspect a `MoshiNode` without the caller having to
 * switch on its variant, and the `asJsonValue`/`asJsonArray`/`asJsonObject` builders.
 * A projection that Kotlin answers by throwing (`error("not a string node")`) returns `Err`.
 */
module ConfigurableMoshi {
  import opened Results
  import JsonTokens
  import opened MoshiNodes

  /** http4k's `JsonType`: the kind of a node. */
  datatype JsonType = String | Boolean | Number | Array | Object | Null

  /** The `IllegalStateException`s the accessors throw. */
  datatype AccessError = NotAStringNode | NotABooleanNode | NotANumberNode

  /** `integer`'s `toLong()`: exact for a `Long`; the truncation of a double is kept opaque. */
  datatype IntegerValue = Exact(long: JsonTokens.Int64) | TruncatedDouble(double: JsonTokens.Float64)

  /** `decimal`'s `BigDecimal(toDouble())`, kept opaque: the decimal of the double nearest `number`. */
  datatype DecimalValue = DecimalOfDouble(number: JsonNumber)

  /** `typeOf`: total, and each variant has a kind of its own. */
  function TypeOf(n: MoshiNode): (t: JsonType)
    ensures t == String <==> n.MoshiString?
    ensures t == Boolean <==> n.MoshiBoolean?
    ensures t == Number <==> n.MoshiNumber?
    ensures t == Array <==> n.MoshiArray?
    ensures t == Object <==> n.MoshiObject?
    ensures t == Null <==> n.MoshiNull?
  {
    match n
    case MoshiString(_) => String
    case MoshiBoolean(_) => Boolean
    case MoshiNumber(_) => Number
    case MoshiArray(_) => Array
    case MoshiObject(_) => Object
    case MoshiNull => Null
  }

  /** An object's entries as `Pair`s, in iteration order (`fields.toList()`). */
  function FieldPairs(fs: seq<Field>): (r: seq<(string, MoshiNode)>)
    ensures |r| == |fs|
    ensures forall i :: 0 <= i < |fs| ==> r[i] == (fs[i].name, fs[i].value)
  {
    if fs == [] then [] else [(fs[0].name, fs[0].value)] + FieldPairs(fs[1..])
  }

  /** An object's values in iteration order (`fields.map { it.value }`). */
  function FieldValues(fs: seq<Field>): (r: seq<MoshiNode>)
    ensures |r| == |fs|
    ensures forall i :: 0 <= i < |fs| ==> r[i] == fs[i].value
  {
    if fs == [] then [] else [fs[0].value] + FieldValues(fs[1..])
  }

  /** `fields`: the entries of an object, and nothing (not an error) for any other node. */
  function Fields(n: MoshiNode): (r: seq<(string, MoshiNode)>)
    ensures n.MoshiObject? ==> |r| == |n.fields|
    ensures n.MoshiObject? ==> forall i :: 0 <= i < |r| ==> r[i] == (n.fields[i].name, n.fields[i].value)
    ensures !n.MoshiObject? ==> r == []
  {
    if n.MoshiObject? then FieldPairs(n.fields) else []
  }

  /** `elements`: an object's values, an array's elements, and nothing for any other node. */
  function Elements(n: MoshiNode): (r: seq<MoshiNode>)
    ensures n.MoshiObject? ==> |r| == |n.fields|
    ensures n.MoshiObject? ==> forall i :: 0 <= i < |r| ==> r[i] == n.fields[i].value
    ensures n.MoshiArray? ==> r == n.elements
    ensures !n.MoshiObject? && !n.MoshiArray? ==> r == []
  {
    match n
    case MoshiObject(fs) => FieldValues(fs)
    case MoshiArray(es) => es
    case _ => []
  }

  /** On an object, `elements` lists the values of `fields`, one for one and in the same order. */
  lemma FieldsElementsAgree(n: MoshiNode)
    ensures n.MoshiObject? ==> |Fields(n)| == |Elements(n)|
    ensures n.MoshiObject? ==> forall i :: 0 <= i < |Fields(n)| ==> Elements(n)[i] == Fields(n)[i].1
  {
  }

  /** `text`. */
  function Text(n: MoshiNode): (r: Result<string, AccessError>)
    ensures r.Ok? <==> TypeOf(n) == String
    ensures r.Ok? ==> r.value == n.str
    ensures r.Err? ==> r.error == NotAStringNode
  {
    if n.MoshiString? then Ok(n.str) else Err(NotAStringNode)
  }

  /** `bool`. */
  function Bool(n: MoshiNode): (r: Result<bool, AccessError>)
    ensures r.Ok? <==> TypeOf(n) == Boolean
    ensures r.Ok? ==> r.value == n.flag
    ensures r.Err? ==> r.error == NotABooleanNode
  {
    if n.MoshiBoolean? then Ok(n.flag) else Err(NotABooleanNode)
  }

  /** `integer`: a number's `toLong()`. */
  function Integer(n: MoshiNode): (r: Result<IntegerValue, AccessError>)
    ensures r.Ok? <==> TypeOf(n) == Number
    ensures r.Ok? && n.number.Long? ==> r.value == Exact(n.number.long)
    ensures r.Ok? && n.number.Double? ==> r.value == TruncatedDouble(n.number.double)
    ensures r.Err? ==> r.error == NotANumberNode
  {
    match n
    case MoshiNumber(Long(v)) => Ok(Exact(v))
    case MoshiNumber(Double(d)) => Ok(TruncatedDouble(d))
    case _ => Err(NotANumberNode)
  }

  /** `decimal`: a number widened through a double. */
  function Decimal(n: MoshiNode): (r: Result<DecimalValue, AccessError>)
    ensures r.Ok? <==> TypeOf(n) == Number
    ensures r.Ok? ==> r.value == DecimalOfDouble(n.number)
    ensures r.Err? ==> r.error == NotANumberNode
  {
    if n.MoshiNumber? then Ok(DecimalOfDouble(n.number)) else Err(NotANumberNode)
  }

  /** The accessors never coerce: at most one of them succeeds on any node, and none succeeds
      on an array, an object or null. */
  lemma AccessorsExclusive(n: MoshiNode)
    ensures !(Text(n).Ok? && Bool(n).Ok?)
    ensures !(Text(n).Ok? && Integer(n).Ok?)
    ensures !(Bool(n).Ok? && Integer(n).Ok?)
    ensures Integer(n).Ok? <==> Decimal(n).Ok?
    ensures TypeOf(n) in {Array, Object, Null} <==>
      Text(n).Err? && Bool(n).Err? && Integer(n).Err? && Decimal(n).Err?
  {
  }

  /**
   * `textValueOf`: absent for a node that is not an object and for a missing field; for a
   * present field, `text` of its value, so a field that is not a string fails.
   */
  function TextValueOf(n: MoshiNode, name: string): (r: Result<Option<string>, AccessError>)
    ensures !n.MoshiObject? ==> r == Ok(None)
    ensures n.MoshiObject? && !HasName(n.fields, name) ==> r == Ok(None)
    ensures n.MoshiObject? && HasName(n.fields, name) ==>
      var v := Lookup(n.fields, name).value;
      (r.Ok? <==> v.MoshiString?) && (r.Ok? ==> r.value == Some(v.str)) && (r.Err? ==> r.error == NotAStringNode)
  {
    match n
    case MoshiObject(fs) =>
      (match Lookup(fs, name)
       case None => Ok(None)
       case Some(v) =>
         (match Text(v)
          case Ok(s) => Ok(Some(s))
          case Err(e) => Err(e)))
    case _ => Ok(None)
  }

  /** `String?.asJsonValue()`. */
  function AsJsonValueString(s: Option<string>): (n: MoshiNode)
    ensures s.None? <==> TypeOf(n) == Null
    ensures s.Some? ==> Text(n) == Ok(s.value)
  {
    if s.Some? then MoshiString(s.value) else MoshiNull
  }

  /** `Int?.asJsonValue()`. */
  function AsJsonValueInt(v: Option<JsonTokens.Int32>): (n: MoshiNode)
    ensures v.None? <==> TypeOf(n) == Null
    ensures v.Some? ==> Integer(n) == Ok(Exact(v.value))
  {
    if v.Some? then MoshiNumber(Long(v.value)) else MoshiNull
  }

  /** `Long?.asJsonValue()`. */
  function AsJsonValueLong(v: Option<JsonTokens.Int64>): (n: MoshiNode)
    ensures v.None? <==> TypeOf(n) == Null
    ensures v.Some? ==> Integer(n) == Ok(Exact(v.value))
  {
    if v.Some? then MoshiNumber(Long(v.value)) else MoshiNull
  }

  /** `Boolean?.asJsonValue()`. */
  function AsJsonValueBoolean(b: Option<bool>): (n: MoshiNode)
    ensures b.None? <==> TypeOf(n) == Null
    ensures b.Some? ==> Bool(n) == Ok(b.value)
  {
    if b.Some? then MoshiBoolean(b.value) else MoshiNull
  }

  /** `asJsonArray`: the nodes, in order. */
  function AsJsonArray(ns: seq<MoshiNode>): (n: MoshiNode)
    ensures TypeOf(n) == Array && Elements(n) == ns
  {
    MoshiArray(ns)
  }

  /** Pairs as map entries, in order. */
  function AsFields(pairs: seq<(string, MoshiNode)>): (fs: seq<Field>)
    ensures |fs| == |pairs|
    ensures forall i :: 0 <= i < |pairs| ==> fs[i] == Field(pairs[i].0, pairs[i].1)
  {
    if pairs == [] then [] else [Field(pairs[0].0, pairs[0].1)] + AsFields(pairs[1..])
  }

  /** `asJsonObject`: `toMap()` of the pairs, which keeps one entry per key. */
  function AsJsonObject(pairs: seq<(string, MoshiNode)>): (n: MoshiNode)
    ensures TypeOf(n) == Object && UniqueNames(n.fields)
  {
    PutAllUnique([], AsFields(pairs));
    MoshiObject(PutAll([], AsFields(pairs)))
  }

  /** A key of the built object holds the value of the last pair with that key; a key no pair
      has is absent. */
  lemma AsJsonObjectLookup(pairs: seq<(string, MoshiNode)>, name: string)
    ensures Lookup(AsJsonObject(pairs).fields, name) == LastValue(AsFields(pairs), name)
  {
    PutAllLookup([], AsFields(pairs), name);
  }

  /** With distinct keys, `fields` gives back exactly the pairs `asJsonObject` was built from. */
  lemma FieldsOfAsJsonObject(pairs: seq<(string, MoshiNode)>)
    requires UniqueNames(AsFields(pairs))
    ensures Fields(AsJsonObject(pairs)) == pairs
  {
    var fs := AsFields(pairs);
    assert [] + fs == fs;
    PutAllFresh([], fs);
  }

  /** Rebuilding an object from its own `fields` gives the same object. */
  lemma AsJsonObjectOfFields(n: MoshiNode)
    requires n.MoshiObject? && UniqueNames(n.fields)
    ensures AsJsonObject(Fields(n)) == n
  {
    var fs := AsFields(Fields(n));
    assert fs == n.fields;
    assert [] + fs == fs;
    PutAllFresh([], fs);
  }

  /** `textValueOf` on a built object sees the last value given for the key. */
  lemma TextValueOfAsJsonObject(pairs: seq<(string, MoshiNode)>, name: string)
    ensures TextValueOf(AsJsonObject(pairs), name) ==
      match LastValue(AsFields(pairs), name)
      case None => Ok(None)
      case Some(v) => if v.MoshiString? then Ok(Some(v.str)) else Err(NotAStringNode)
  {
    AsJsonObjectLookup(pairs, name);
  }
}
