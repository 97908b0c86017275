/**
 * `MoshiNodeAdapter.fromJson` exactly as MoshiModel.kt writes it. Its `NULL` branch answers
 * `MoshiNull` without calling `nextNull()`, so the null token stays where it was:
 *
 * - in an array, the loop's next `peek()` sees the same null again, and the loop never ends;
 * - in an object, the next `peek()` sees the null where a name is expected, and the read fails
 *   with "expected name";
 * - at the top, the read returns `MoshiNull` with the reader still in front of the token.
 *
 * `MoshiNodeAdapter.Parse` and `MoshiNodeAdapter.FromJson` are the corrected reader, which
 * consumes the null token; the two agree on every stretch of tokens without a null token.
 */
module MoshiNodeAsWritten {
  import opened Results
  import opened JsonTokens
  import opened MoshiNodes
  import opened MoshiNodeAdapter
  import MoshiNodeProperties

  /** How a read ends: a node and the offset after it, an exception, or no end at all. */
  datatype Outcome = Read(node: MoshiNode, next: nat) | Thrown(error: JsonDataException) | Diverges

  /** `fromJson` as written, from offset `p`. */
  function ParseAsWritten(ts: seq<Token>, p: nat): (r: Outcome)
    requires p <= |ts|
    ensures r.Read? ==> p <= r.next <= |ts|
    ensures r.Read? && r.next == p ==> TokenAt(ts, p) == Null && r.node == MoshiNull
    decreases |ts| - p, 0
  {
    match TokenAt(ts, p)
    case Null => Read(MoshiNull, p)
    case BeginArray => ElementsAsWritten(ts, p + 1, [])
    case BeginObject => FieldsAsWritten(ts, p + 1, [])
    case Bool(b) => Read(MoshiBoolean(b), p + 1)
    case Num(lit) => Read(MoshiNumber(ReadNumber(lit)), p + 1)
    case Str(s) => Read(MoshiString(s), p + 1)
    case _ => Thrown(IllegalValue(p))
  }

  /**
   * The `while (reader.peek() != END_ARRAY)` loop as written. An element read that leaves the
   * reader where it was leaves the loop in the state it started the pass in, with one more
   * element in the list, so every later pass does the same again.
   */
  function ElementsAsWritten(ts: seq<Token>, p: nat, acc: seq<MoshiNode>): (r: Outcome)
    requires p <= |ts|
    ensures r.Read? ==> p < r.next <= |ts|
    decreases |ts| - p, 1
  {
    if TokenAt(ts, p) == EndArray then Read(MoshiArray(acc), p + 1)
    else
      match ParseAsWritten(ts, p)
      case Thrown(e) => Thrown(e)
      case Diverges => Diverges
      case Read(v, q) => if q == p then Diverges else ElementsAsWritten(ts, q, acc + [v])
  }

  /** The `while (reader.peek() != END_OBJECT)` loop as written. */
  function FieldsAsWritten(ts: seq<Token>, p: nat, acc: seq<Field>): (r: Outcome)
    requires p <= |ts|
    ensures r.Read? ==> p < r.next <= |ts|
    decreases |ts| - p, 1
  {
    var t := TokenAt(ts, p);
    if t == EndObject then Read(MoshiObject(acc), p + 1)
    else if !t.Name? then Thrown(ExpectedName(p))
    else
      match ParseAsWritten(ts, p + 1)
      case Thrown(e) => Thrown(e)
      case Diverges => Diverges
      case Read(v, q) => FieldsAsWritten(ts, q, Put(acc, t.name, v))
  }

  /** `[null]`: the code as written never leaves the loop; the corrected reader gives the
      array holding one null. */
  lemma NullElementDiverges()
    ensures ParseAsWritten([BeginArray, Null, EndArray], 0) == Diverges
    ensures Parse([BeginArray, Null, EndArray], 0) == Ok((MoshiArray([MoshiNull]), 3))
  {
    var ts := [BeginArray, Null, EndArray];
    assert ParseAsWritten(ts, 1) == Read(MoshiNull, 1);
    assert ElementsAsWritten(ts, 1, []) == Diverges;
    assert Parse(ts, 1) == Ok((MoshiNull, 2));
    assert [] + [MoshiNull] == [MoshiNull];
    assert ParseElements(ts, 2, [MoshiNull]) == Ok((MoshiArray([MoshiNull]), 3));
    assert ParseElements(ts, 1, []) == ParseElements(ts, 2, [MoshiNull]);
  }

  /** `{"a":null}`: the code as written fails with "expected name" at the null; the corrected
      reader gives the object. */
  lemma NullFieldThrows()
    ensures ParseAsWritten([BeginObject, Name("a"), Null, EndObject], 0) == Thrown(ExpectedName(2))
    ensures Parse([BeginObject, Name("a"), Null, EndObject], 0)
         == Ok((MoshiObject([Field("a", MoshiNull)]), 4))
  {
    var ts := [BeginObject, Name("a"), Null, EndObject];
    var one := [Field("a", MoshiNull)];
    assert Put([], "a", MoshiNull) == one;
    assert ParseAsWritten(ts, 2) == Read(MoshiNull, 2);
    assert FieldsAsWritten(ts, 2, one) == Thrown(ExpectedName(2));
    assert FieldsAsWritten(ts, 1, []) == FieldsAsWritten(ts, 2, one);
    assert Parse(ts, 2) == Ok((MoshiNull, 3));
    assert ParseFields(ts, 3, one) == Ok((MoshiObject(one), 4));
    assert ParseFields(ts, 1, []) == ParseFields(ts, 3, one);
  }

  /** A top-level `null`: the code as written returns `MoshiNull` without reading the token. */
  lemma NullValueUnread()
    ensures ParseAsWritten([Null], 0) == Read(MoshiNull, 0)
    ensures Parse([Null], 0) == Ok((MoshiNull, 1))
  {
  }

  /** No token from offset `from` up to `to` is a null token. */
  ghost predicate NoNullBetween(ts: seq<Token>, from: nat, to: nat) {
    forall k :: from <= k < to ==> TokenAt(ts, k) != Null
  }

  lemma NoNullWithin(ts: seq<Token>, from: nat, to: nat, from': nat, to': nat)
    requires NoNullBetween(ts, from, to) && from <= from' && to' <= to
    ensures NoNullBetween(ts, from', to')
  {
  }

  /** On a stretch without a null token, the code as written reads what the corrected reader
      reads and stops at the same offset. */
  lemma {:induction false} ParseAgrees(ts: seq<Token>, p: nat)
    requires p <= |ts| && Parse(ts, p).Ok? && NoNullBetween(ts, p, Parse(ts, p).value.1)
    ensures ParseAsWritten(ts, p) == Read(Parse(ts, p).value.0, Parse(ts, p).value.1)
    decreases |ts| - p, 0
  {
    assert TokenAt(ts, p) != Null;
    match TokenAt(ts, p)
    case BeginArray => ElementsAgree(ts, p + 1, []);
    case BeginObject => FieldsAgree(ts, p + 1, []);
    case _ =>
  }

  lemma {:induction false} ElementsAgree(ts: seq<Token>, p: nat, acc: seq<MoshiNode>)
    requires p <= |ts| && ParseElements(ts, p, acc).Ok?
    requires NoNullBetween(ts, p, ParseElements(ts, p, acc).value.1)
    ensures ElementsAsWritten(ts, p, acc)
         == Read(ParseElements(ts, p, acc).value.0, ParseElements(ts, p, acc).value.1)
    decreases |ts| - p, 1
  {
    if TokenAt(ts, p) != EndArray {
      var end := ParseElements(ts, p, acc).value.1;
      var (v, q) := Parse(ts, p).value;
      assert ParseElements(ts, p, acc) == ParseElements(ts, q, acc + [v]);
      NoNullWithin(ts, p, end, p, q);
      ParseAgrees(ts, p);
      NoNullWithin(ts, p, end, q, end);
      ElementsAgree(ts, q, acc + [v]);
    }
  }

  lemma {:induction false} FieldsAgree(ts: seq<Token>, p: nat, acc: seq<Field>)
    requires p <= |ts| && ParseFields(ts, p, acc).Ok?
    requires NoNullBetween(ts, p, ParseFields(ts, p, acc).value.1)
    ensures FieldsAsWritten(ts, p, acc)
         == Read(ParseFields(ts, p, acc).value.0, ParseFields(ts, p, acc).value.1)
    decreases |ts| - p, 1
  {
    var t := TokenAt(ts, p);
    if t != EndObject {
      var end := ParseFields(ts, p, acc).value.1;
      var (v, q) := Parse(ts, p + 1).value;
      assert ParseFields(ts, p, acc) == ParseFields(ts, q, Put(acc, t.name, v));
      NoNullWithin(ts, p, end, p + 1, q);
      ParseAgrees(ts, p + 1);
      NoNullWithin(ts, p, end, q, end);
      FieldsAgree(ts, q, Put(acc, t.name, v));
    }
  }

  /** A node with no `MoshiNull` anywhere in it, itself included. */
  predicate NullFree(n: MoshiNode)
    decreases n, 1
  {
    match n
    case MoshiObject(fs) => NullFreeFields(fs)
    case MoshiArray(es) => NullFreeElements(es)
    case MoshiNull => false
    case _ => true
  }

  predicate NullFreeFields(fs: seq<Field>)
    decreases fs, 0
  {
    fs == [] || (NullFree(fs[0].value) && NullFreeFields(fs[1..]))
  }

  predicate NullFreeElements(es: seq<MoshiNode>)
    decreases es, 0
  {
    es == [] || (NullFree(es[0]) && NullFreeElements(es[1..]))
  }

  /** Writing a node without `MoshiNull` writes no null token. */
  lemma {:induction false} SerialiseNullFree(n: MoshiNode)
    requires NullFree(n)
    ensures Null !in Serialise(n)
    decreases n, 1
  {
    match n
    case MoshiObject(fs) => FieldsNullFree(fs);
    case MoshiArray(es) => ElementsNullFree(es);
    case _ =>
  }

  lemma {:induction false} FieldsNullFree(fs: seq<Field>)
    requires NullFreeFields(fs)
    ensures Null !in SerialiseFields(fs)
    decreases fs, 0
  {
    if fs != [] {
      assert fs[0] in fs;
      SerialiseNullFree(fs[0].value);
      FieldsNullFree(fs[1..]);
    }
  }

  lemma {:induction false} ElementsNullFree(es: seq<MoshiNode>)
    requires NullFreeElements(es)
    ensures Null !in SerialiseElements(es)
    decreases es, 0
  {
    if es != [] {
      SerialiseNullFree(es[0]);
      ElementsNullFree(es[1..]);
    }
  }

  /** The round trip that holds of the code as written: a node with `Long` numbers, unique
      keys and no `MoshiNull` reads back from what `toJson` writes, consuming every token. */
  lemma AsWrittenRoundTrip(n: MoshiNode)
    requires IntegralNode(n) && NullFree(n)
    ensures ParseAsWritten(Serialise(n), 0) == Read(n, |Serialise(n)|)
  {
    var ts := Serialise(n);
    MoshiNodeProperties.RoundTrip(n);
    SerialiseNullFree(n);
    forall k | 0 <= k < |ts| ensures TokenAt(ts, k) != Null {
      assert ts[k] in ts;
    }
    ParseAgrees(ts, 0);
  }

  /** An array holding `MoshiNull` as its first element never reads back as written, whatever
      follows it. */
  lemma LeadingNullElementDiverges(es: seq<MoshiNode>, rest: seq<Token>)
    requires es != [] && es[0] == MoshiNull
    ensures ParseAsWritten(Serialise(MoshiArray(es)) + rest, 0) == Diverges
  {
    var ts := Serialise(MoshiArray(es)) + rest;
    var tail := SerialiseElements(es[1..]) + [EndArray] + rest;
    assert SerialiseElements(es) == [Null] + SerialiseElements(es[1..]);
    assert ts == [BeginArray, Null] + tail;
    assert TokenAt(ts, 1) == Null;
    assert ParseAsWritten(ts, 1) == Read(MoshiNull, 1);
  }

  /** An object whose first field holds `MoshiNull` fails as written with "expected name" at
      the null, whatever follows it. */
  lemma LeadingNullFieldThrows(fs: seq<Field>, rest: seq<Token>)
    requires fs != [] && fs[0].value == MoshiNull
    ensures ParseAsWritten(Serialise(MoshiObject(fs)) + rest, 0) == Thrown(ExpectedName(2))
  {
    var ts := Serialise(MoshiObject(fs)) + rest;
    var tail := SerialiseFields(fs[1..]) + [EndObject] + rest;
    assert SerialiseFields(fs) == [Name(fs[0].name), Null] + SerialiseFields(fs[1..]);
    assert ts == [BeginObject, Name(fs[0].name), Null] + tail;
    assert TokenAt(ts, 1) == Name(fs[0].name) && TokenAt(ts, 2) == Null;
    assert ParseAsWritten(ts, 2) == Read(MoshiNull, 2);
    var acc := Put([], fs[0].name, MoshiNull);
    assert FieldsAsWritten(ts, 2, acc) == Thrown(ExpectedName(2));
  }
}
