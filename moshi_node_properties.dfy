/**
 * What the node adapter promises: reading back what `toJson` wrote gives the same node and
 * consumes exactly those tokens; the two parse errors arise where they should; and every
 * parsed object has one entry per key.
 */
module MoshiNodeProperties {
  import opened Results
  import opened JsonTokens
  import opened MoshiNodes
  import opened MoshiNodeAdapter

  /** `s` occurs in `ts` starting at offset `p`. */
  ghost predicate At(ts: seq<Token>, p: nat, s: seq<Token>)
    decreases s
  {
    s == [] || (p < |ts| && ts[p] == s[0] && At(ts, p + 1, s[1..]))
  }

  lemma {:induction false} AtSplit(ts: seq<Token>, p: nat, a: seq<Token>, b: seq<Token>)
    requires At(ts, p, a + b)
    ensures At(ts, p, a) && At(ts, p + |a|, b)
    decreases a
  {
    if a == [] {
      assert a + b == b;
    } else {
      assert (a + b)[0] == a[0] && (a + b)[1..] == a[1..] + b;
      AtSplit(ts, p + 1, a[1..], b);
    }
  }

  lemma AtHead(ts: seq<Token>, p: nat, s: seq<Token>)
    requires At(ts, p, s) && |s| > 0
    ensures TokenAt(ts, p) == s[0]
  {
  }

  /** `s` occurs in `pre + s + post` right after `pre`. */
  lemma {:induction false} AtConcat(pre: seq<Token>, s: seq<Token>, post: seq<Token>)
    ensures At(pre + s + post, |pre|, s)
    decreases s
  {
    if s != [] {
      assert pre + s + post == (pre + [s[0]]) + s[1..] + post;
      assert (pre + s + post)[|pre|] == s[0];
      AtConcat(pre + [s[0]], s[1..], post);
    }
  }

  /** Reading the tokens of an integral node gives that node back and stops right after them. */
  lemma {:induction false} ParseSerialise(n: MoshiNode, ts: seq<Token>, p: nat)
    requires IntegralNode(n) && At(ts, p, Serialise(n))
    ensures Parse(ts, p) == Ok((n, p + |Serialise(n)|))
    decreases n, 1
  {
    AtHead(ts, p, Serialise(n));
    match n
    case MoshiObject(fs) =>
      assert UniqueNames(fs) && IntegralFields(fs);
      ObjectRoundTrip(fs, ts, p);
    case MoshiArray(es) =>
      assert IntegralElements(es);
      ArrayRoundTrip(es, ts, p);
    case _ =>
  }

  lemma {:induction false} ObjectRoundTrip(fs: seq<Field>, ts: seq<Token>, p: nat)
    requires UniqueNames(fs) && IntegralFields(fs)
    requires At(ts, p, Serialise(MoshiObject(fs)))
    ensures Parse(ts, p) == Ok((MoshiObject(fs), p + |Serialise(MoshiObject(fs))|))
    decreases fs, 2
  {
    var body := SerialiseFields(fs) + [EndObject];
    assert Serialise(MoshiObject(fs)) == [BeginObject] + SerialiseFields(fs) + [EndObject];
    Assoc([BeginObject], SerialiseFields(fs), [EndObject]);
    AtCons(ts, p, BeginObject, body);
    ParseObjectStart(ts, p);
    FieldsRoundTrip(fs, ts, p + 1, []);
    FillFromEmpty(fs);
  }

  lemma FillFromEmpty(fs: seq<Field>)
    requires UniqueNames(fs)
    ensures PutAll([], fs) == fs
  {
    assert [] + fs == fs;
    PutAllFresh([], fs);
  }

  lemma ParseObjectStart(ts: seq<Token>, p: nat)
    requires p < |ts| && ts[p] == BeginObject
    ensures Parse(ts, p) == ParseFields(ts, p + 1, [])
  {
  }

  lemma ParseArrayStart(ts: seq<Token>, p: nat)
    requires p < |ts| && ts[p] == BeginArray
    ensures Parse(ts, p) == ParseElements(ts, p + 1, [])
  {
  }

  lemma {:induction false} ArrayRoundTrip(es: seq<MoshiNode>, ts: seq<Token>, p: nat)
    requires IntegralElements(es)
    requires At(ts, p, Serialise(MoshiArray(es)))
    ensures Parse(ts, p) == Ok((MoshiArray(es), p + |Serialise(MoshiArray(es))|))
    decreases es, 1
  {
    var body := SerialiseElements(es) + [EndArray];
    assert Serialise(MoshiArray(es)) == [BeginArray] + SerialiseElements(es) + [EndArray];
    Assoc([BeginArray], SerialiseElements(es), [EndArray]);
    AtCons(ts, p, BeginArray, body);
    ParseArrayStart(ts, p);
    ElementsRoundTrip(es, ts, p + 1, []);
    assert [] + es == es;
  }

  /** The tokens of a non-empty element list followed by `]`, taken apart. */
  lemma ElementTokens(es: seq<MoshiNode>, ts: seq<Token>, p: nat)
    requires es != [] && At(ts, p, SerialiseElements(es) + [EndArray])
    ensures At(ts, p, Serialise(es[0]))
    ensures At(ts, p + |Serialise(es[0])|, SerialiseElements(es[1..]) + [EndArray])
    ensures |SerialiseElements(es)| == |Serialise(es[0])| + |SerialiseElements(es[1..])|
  {
    var head := Serialise(es[0]);
    var tail := SerialiseElements(es[1..]);
    SerialiseElementsCons(es, EndArray);
    AtSplit(ts, p, head, tail + [EndArray]);
  }

  lemma SerialiseElementsCons(es: seq<MoshiNode>, close: Token)
    requires es != []
    ensures SerialiseElements(es) + [close] == Serialise(es[0]) + (SerialiseElements(es[1..]) + [close])
    ensures |SerialiseElements(es)| == |Serialise(es[0])| + |SerialiseElements(es[1..])|
  {
    var head, tail := Serialise(es[0]), SerialiseElements(es[1..]);
    assert SerialiseElements(es) == head + tail;
    Assoc(head, tail, [close]);
  }

  /** An integral element written at `p` reads back as written. */
  lemma {:induction false} ElementStep(e: MoshiNode, ts: seq<Token>, p: nat, acc: seq<MoshiNode>, q: nat)
    requires IntegralNode(e) && p <= |ts| && At(ts, p, Serialise(e))
    requires q == p + |Serialise(e)|
    ensures q <= |ts|
    ensures ParseElements(ts, p, acc) == ParseElements(ts, q, acc + [e])
    decreases e, 2
  {
    ParseSerialise(e, ts, p);
    AtHead(ts, p, Serialise(e));
    ParseElementsStep(ts, p, acc, e, q);
  }

  lemma {:induction false} ElementsRoundTrip(es: seq<MoshiNode>, ts: seq<Token>, p: nat, acc: seq<MoshiNode>)
    requires IntegralElements(es)
    requires At(ts, p, SerialiseElements(es) + [EndArray])
    ensures ParseElements(ts, p, acc) == Ok((MoshiArray(acc + es), p + |SerialiseElements(es)| + 1))
    decreases es, 0
  {
    if es == [] {
      AtHead(ts, p, SerialiseElements(es) + [EndArray]);
      AppendEmpty(acc);
    } else {
      var q := p + |Serialise(es[0])|;
      assert IntegralNode(es[0]) && IntegralElements(es[1..]);
      ElementTokens(es, ts, p);
      ElementStep(es[0], ts, p, acc, q);
      ElementsRoundTrip(es[1..], ts, q, acc + [es[0]]);
      Assoc(acc, [es[0]], es[1..]);
      ConsSplit(es);
    }
  }

  lemma AtCons(ts: seq<Token>, p: nat, t: Token, rest: seq<Token>)
    requires At(ts, p, [t] + rest)
    ensures TokenAt(ts, p) == t && At(ts, p + 1, rest)
  {
    assert ([t] + rest)[0] == t && ([t] + rest)[1..] == rest;
  }

  lemma SerialiseFieldsCons(fs: seq<Field>, close: Token)
    requires fs != []
    ensures SerialiseFields(fs) + [close]
      == [Name(fs[0].name)] + (Serialise(fs[0].value) + (SerialiseFields(fs[1..]) + [close]))
    ensures |SerialiseFields(fs)| == 1 + |Serialise(fs[0].value)| + |SerialiseFields(fs[1..])|
  {
    var head, value, tail := [Name(fs[0].name)], Serialise(fs[0].value), SerialiseFields(fs[1..]);
    assert SerialiseFields(fs) == head + value + tail;
    Assoc(head + value, tail, [close]);
    Assoc(head, value, tail + [close]);
  }

  lemma AppendEmpty<T>(a: seq<T>)
    ensures a + [] == a
  {
  }

  lemma ConsSplit<T>(s: seq<T>)
    requires s != []
    ensures [s[0]] + s[1..] == s
  {
  }

  lemma Assoc<T>(a: seq<T>, b: seq<T>, c: seq<T>)
    ensures (a + b) + c == a + (b + c)
  {
  }

  /** The tokens of a non-empty field list followed by `close`, taken apart. */
  lemma FieldTokens(fs: seq<Field>, ts: seq<Token>, p: nat, close: Token)
    requires fs != [] && At(ts, p, SerialiseFields(fs) + [close])
    ensures TokenAt(ts, p) == Name(fs[0].name)
    ensures At(ts, p + 1, Serialise(fs[0].value))
    ensures At(ts, p + 1 + |Serialise(fs[0].value)|, SerialiseFields(fs[1..]) + [close])
    ensures |SerialiseFields(fs)| == 1 + |Serialise(fs[0].value)| + |SerialiseFields(fs[1..])|
  {
    var value := Serialise(fs[0].value);
    var tail := SerialiseFields(fs[1..]);
    SerialiseFieldsCons(fs, close);
    AtCons(ts, p, Name(fs[0].name), value + (tail + [close]));
    AtSplit(ts, p + 1, value, tail + [close]);
  }

  /** One `name: value` pair of an object body, read. */
  lemma ParseFieldsStep(ts: seq<Token>, p: nat, acc: seq<Field>, name: string, v: MoshiNode, q: nat)
    requires p < |ts| && TokenAt(ts, p) == Name(name) && Parse(ts, p + 1) == Ok((v, q))
    ensures ParseFields(ts, p, acc) == ParseFields(ts, q, Put(acc, name, v))
  {
  }

  /** One element of an array body, read. */
  lemma ParseElementsStep(ts: seq<Token>, p: nat, acc: seq<MoshiNode>, v: MoshiNode, q: nat)
    requires p <= |ts| && TokenAt(ts, p) != EndArray && Parse(ts, p) == Ok((v, q))
    ensures ParseElements(ts, p, acc) == ParseElements(ts, q, acc + [v])
  {
  }

  /** A `name: value` pair written for an integral value reads back as written. */
  lemma {:induction false} FieldStep(f: Field, ts: seq<Token>, p: nat, acc: seq<Field>, q: nat)
    requires IntegralNode(f.value)
    requires p < |ts| && TokenAt(ts, p) == Name(f.name) && At(ts, p + 1, Serialise(f.value))
    requires q == p + 1 + |Serialise(f.value)|
    ensures q <= |ts|
    ensures ParseFields(ts, p, acc) == ParseFields(ts, q, Put(acc, f.name, f.value))
    decreases f, 0
  {
    ParseSerialise(f.value, ts, p + 1);
    ParseFieldsStep(ts, p, acc, f.name, f.value, q);
  }

  lemma {:induction false} FieldsRoundTrip(fs: seq<Field>, ts: seq<Token>, p: nat, acc: seq<Field>)
    requires IntegralFields(fs)
    requires At(ts, p, SerialiseFields(fs) + [EndObject])
    ensures ParseFields(ts, p, acc) == Ok((MoshiObject(PutAll(acc, fs)), p + |SerialiseFields(fs)| + 1))
    decreases fs, 1
  {
    if fs == [] {
      AtHead(ts, p, SerialiseFields(fs) + [EndObject]);
    } else {
      var q := p + 1 + |Serialise(fs[0].value)|;
      var acc' := Put(acc, fs[0].name, fs[0].value);
      assert IntegralNode(fs[0].value) && IntegralFields(fs[1..]);
      FieldTokens(fs, ts, p, EndObject);
      assert fs[0] in fs;
      FieldStep(fs[0], ts, p, acc, q);
      FieldsRoundTrip(fs[1..], ts, q, acc');
      assert PutAll(acc, fs) == PutAll(acc', fs[1..]);
    }
  }

  /** Round trip: reading what `toJson` writes for an integral node yields the node and
      consumes every written token. */
  lemma RoundTrip(n: MoshiNode)
    requires IntegralNode(n)
    ensures Parse(Serialise(n), 0) == Ok((n, |Serialise(n)|))
  {
    AtConcat([], Serialise(n), []);
    assert [] + Serialise(n) + [] == Serialise(n);
    ParseSerialise(n, Serialise(n), 0);
  }

  /**
   * The round trip through the writer and the reader: `fromJson` on what `toJson` wrote,
   * followed by any further tokens, returns the node and stops where the written tokens end.
   */
  method WriteThenRead(n: MoshiNode, rest: seq<Token>) returns (res: Result<MoshiNode, JsonDataException>, consumed: nat)
    requires IntegralNode(n)
    ensures res == Ok(n)
    ensures consumed == |Serialise(n)|
  {
    var writer := new TokenWriter();
    ToJson(writer, Some(n));
    var written := writer.written;
    assert written == Serialise(n);
    var ts := written + rest;
    var tokens := new Token[|ts|](i requires 0 <= i < |ts| => ts[i]);
    var reader := new TokenReader(tokens);
    assert tokens[..] == ts;
    assert At(ts, 0, Serialise(n)) by {
      AtConcat([], written, rest);
      assert [] + written + rest == ts;
    }
    ParseSerialise(n, ts, 0);
    res := FromJson(reader);
    consumed := reader.pos;
  }

  /** `toJson(null)` and `toJson(MoshiNull)` both write exactly one null token. */
  lemma NullWritesOneToken()
    ensures SerialiseNullable(None) == [Token.Null]
    ensures SerialiseNullable(Some(MoshiNull)) == [Token.Null]
  {
  }

  /** "illegal value": at a value position, exactly the tokens that cannot start a value fail
      at that position with `IllegalValue`. */
  lemma IllegalValueAt(ts: seq<Token>, p: nat)
    requires p <= |ts|
    ensures Parse(ts, p) == Err(IllegalValue(p)) <==> !StartsValue(TokenAt(ts, p))
    ensures !StartsValue(TokenAt(ts, p)) <==>
      TokenAt(ts, p) in {EndArray, EndObject, EndDocument} || TokenAt(ts, p).Name?
  {
    if StartsValue(TokenAt(ts, p)) {
      match TokenAt(ts, p)
      case BeginArray =>
        assert Parse(ts, p) == ParseElements(ts, p + 1, []);
      case BeginObject =>
        assert Parse(ts, p) == ParseFields(ts, p + 1, []);
      case _ =>
    }
  }

  /**
   * "expected name": an object body whose well-formed fields are followed by anything but a
   * name or the end of the object fails there, with no node returned.
   */
  lemma {:induction false} ExpectedNameAfterFields(fs: seq<Field>, ts: seq<Token>, p: nat, acc: seq<Field>, bad: Token)
    requires IntegralFields(fs)
    requires bad != EndObject && !bad.Name?
    requires At(ts, p, SerialiseFields(fs) + [bad])
    ensures ParseFields(ts, p, acc) == Err(ExpectedName(p + |SerialiseFields(fs)|))
    decreases fs
  {
    if fs == [] {
      AtHead(ts, p, SerialiseFields(fs) + [bad]);
    } else {
      var q := p + 1 + |Serialise(fs[0].value)|;
      assert IntegralNode(fs[0].value) && IntegralFields(fs[1..]);
      FieldTokens(fs, ts, p, bad);
      FieldStep(fs[0], ts, p, acc, q);
      var acc' := Put(acc, fs[0].name, fs[0].value);
      ExpectedNameAfterFields(fs[1..], ts, q, acc', bad);
    }
  }

  /** The same, for a whole document: `{` then fields then a bare value fails at the value. */
  lemma BareValueInObject(fs: seq<Field>, bad: Token, rest: seq<Token>)
    requires IntegralFields(fs)
    requires bad != EndObject && !bad.Name?
    ensures Parse([BeginObject] + SerialiseFields(fs) + [bad] + rest, 0)
         == Err(ExpectedName(1 + |SerialiseFields(fs)|))
  {
    var body := SerialiseFields(fs) + [bad];
    var ts := [BeginObject] + SerialiseFields(fs) + [bad] + rest;
    assert ts == [BeginObject] + body + rest;
    AtConcat([BeginObject], body, rest);
    ExpectedNameAfterFields(fs, ts, 1, [], bad);
  }

  /** Every entry of `Put(fs, name, value)` is `Field(name, value)` or an entry of `fs`. */
  lemma {:induction false} PutEntries(fs: seq<Field>, name: string, value: MoshiNode, i: nat)
    requires i < |Put(fs, name, value)|
    ensures Put(fs, name, value)[i] == Field(name, value) || Put(fs, name, value)[i] in fs
  {
    if fs != [] && fs[0].name != name && i > 0 {
      PutEntries(fs[1..], name, value, i - 1);
    }
  }

  /** Whatever `fromJson` returns is a valid node: repeated keys leave one entry each. */
  lemma {:induction false} ParseValid(ts: seq<Token>, p: nat)
    requires p <= |ts| && Parse(ts, p).Ok?
    ensures ValidNode(Parse(ts, p).value.0)
    decreases |ts| - p, 0
  {
    match TokenAt(ts, p)
    case BeginArray => ElementsValid(ts, p + 1, []);
    case BeginObject => FieldsValid(ts, p + 1, []);
    case _ =>
  }

  lemma {:induction false} ElementsValid(ts: seq<Token>, p: nat, acc: seq<MoshiNode>)
    requires p <= |ts| && ParseElements(ts, p, acc).Ok?
    requires forall i :: 0 <= i < |acc| ==> ValidNode(acc[i])
    ensures ValidNode(ParseElements(ts, p, acc).value.0)
    decreases |ts| - p, 1
  {
    if TokenAt(ts, p) != EndArray {
      var (v, q) := Parse(ts, p).value;
      ParseValid(ts, p);
      ElementsValid(ts, q, acc + [v]);
    }
  }

  lemma {:induction false} FieldsValid(ts: seq<Token>, p: nat, acc: seq<Field>)
    requires p <= |ts| && ParseFields(ts, p, acc).Ok?
    requires UniqueNames(acc) && forall i :: 0 <= i < |acc| ==> ValidNode(acc[i].value)
    ensures ValidNode(ParseFields(ts, p, acc).value.0)
    decreases |ts| - p, 1
  {
    var t := TokenAt(ts, p);
    if t != EndObject {
      var (v, q) := Parse(ts, p + 1).value;
      ParseValid(ts, p + 1);
      var next := Put(acc, t.name, v);
      PutUnique(acc, t.name, v);
      forall i | 0 <= i < |next| ensures ValidNode(next[i].value) {
        PutEntries(acc, t.name, v, i);
      }
      FieldsValid(ts, q, next);
    }
  }

  /**
   * Repeated keys: an object whose body names the same key several times reads as an object
   * with one entry per key, each holding the last value given for it.
   */
  lemma RepeatedKeysLastWins(pairs: seq<Field>, rest: seq<Token>, name: string)
    requires IntegralFields(pairs)
    ensures var r := Parse([BeginObject] + SerialiseFields(pairs) + [EndObject] + rest, 0);
      && r.Ok? && r.value.0.MoshiObject?
      && r.value.1 == |SerialiseFields(pairs)| + 2
      && UniqueNames(r.value.0.fields)
      && Lookup(r.value.0.fields, name) == LastValue(pairs, name)
  {
    var body := SerialiseFields(pairs) + [EndObject];
    var ts := [BeginObject] + SerialiseFields(pairs) + [EndObject] + rest;
    assert ts == [BeginObject] + body + rest;
    AtConcat([BeginObject], body, rest);
    FieldsRoundTrip(pairs, ts, 1, []);
    assert Parse(ts, 0) == ParseFields(ts, 1, []);
    PutAllUnique([], pairs);
    PutAllLookup([], pairs, name);
  }

  /** A repeated key keeps its first position and its last value. */
  lemma DuplicateKeyLastWins()
    ensures Parse([BeginObject, Name("x"), Num(IntegerLit(1)), Name("x"), Num(IntegerLit(2)), EndObject], 0)
         == Ok((MoshiObject([Field("x", MoshiNumber(Long(2)))]), 6))
  {
    var ts := [BeginObject, Name("x"), Num(IntegerLit(1)), Name("x"), Num(IntegerLit(2)), EndObject];
    var one, two := MoshiNumber(Long(1)), MoshiNumber(Long(2));
    assert Parse(ts, 2) == Ok((one, 3));
    assert Parse(ts, 4) == Ok((two, 5));
    assert Put([], "x", one) == [Field("x", one)];
    assert Put([Field("x", one)], "x", two) == [Field("x", two)];
    assert ParseFields(ts, 5, [Field("x", two)]) == Ok((MoshiObject([Field("x", two)]), 6));
    assert ParseFields(ts, 3, [Field("x", one)]) == ParseFields(ts, 5, [Field("x", two)]);
    assert ParseFields(ts, 1, []) == ParseFields(ts, 3, [Field("x", one)]);
  }
}
