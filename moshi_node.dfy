/**
 * The closed six-variant JSON tree `MoshiNode` (MoshiModel.kt). An object's fields are an
 * ordered sequence, because the order in which the Kotlin `LinkedHashMap` iterates is the
 * order in which they are written back out.
 */
module MoshiNodes {
  import opened Results
  import opened JsonTokens

  /** Kotlin's `Number` payload as the node adapter produces it: a `Long`, or a `Double`
      that is kept opaque. */
  datatype JsonNumber = Long(long: Int64) | Double(double: Float64)

  datatype MoshiNode =
    | MoshiObject(fields: seq<Field>)
    | MoshiArray(elements: seq<MoshiNode>)
    | MoshiString(str: string)
    | MoshiBoolean(flag: bool)
    | MoshiNumber(number: JsonNumber)
    | MoshiNull

  /** One entry of an object's map. */
  datatype Field = Field(name: string, value: MoshiNode)

  predicate HasName(fs: seq<Field>, name: string) {
    exists i :: 0 <= i < |fs| && fs[i].name == name
  }

  /** Map keys are unique: no key occurs again after its entry. */
  predicate UniqueNames(fs: seq<Field>)
    decreases |fs|
  {
    fs == [] || (!HasName(fs[1..], fs[0].name) && UniqueNames(fs[1..]))
  }

  lemma HasNameCons(fs: seq<Field>, name: string)
    requires fs != []
    ensures HasName(fs, name) <==> fs[0].name == name || HasName(fs[1..], name)
  {
    if HasName(fs, name) && fs[0].name != name {
      var i :| 0 <= i < |fs| && fs[i].name == name;
      assert fs[1..][i - 1] == fs[i];
    }
    if HasName(fs[1..], name) {
      var i :| 0 <= i < |fs[1..]| && fs[1..][i].name == name;
      assert fs[i + 1] == fs[1..][i];
    }
  }

  /** In a map with unique keys, an entry's key occurs nowhere before it. */
  lemma {:induction false} UniqueNamesPrefix(a: seq<Field>, b: seq<Field>)
    requires b != [] && UniqueNames(a + b)
    ensures !HasName(a, b[0].name) && UniqueNames(b)
    decreases |a|
  {
    if a == [] {
      assert a + b == b;
    } else {
      var ab := a + b;
      assert ab[0] == a[0] && ab[1..] == a[1..] + b;
      UniqueNamesPrefix(a[1..], b);
      assert (a[1..] + b)[|a| - 1] == b[0];
      assert a[0].name != b[0].name;
      HasNameCons(a, b[0].name);
    }
  }

  /** `map[name]`: the value held under `name`, if any. */
  function Lookup(fs: seq<Field>, name: string): (r: Option<MoshiNode>)
    ensures r.None? <==> !HasName(fs, name)
    ensures r.Some? ==> exists i :: 0 <= i < |fs| && fs[i] == Field(name, r.value)
  {
    if fs == [] then None
    else if fs[0].name == name then Some(fs[0].value)
    else
      var r := Lookup(fs[1..], name);
      assert forall i :: 0 < i < |fs| ==> fs[i] == fs[1..][i - 1];
      r
  }

  /** In a map with unique keys, every entry is what a lookup of its key finds. */
  lemma {:induction false} LookupUnique(fs: seq<Field>, i: nat)
    requires UniqueNames(fs) && i < |fs|
    ensures Lookup(fs, fs[i].name) == Some(fs[i].value)
  {
    if i > 0 {
      assert fs[1..][i - 1] == fs[i];
      assert fs[0].name != fs[i].name;
      LookupUnique(fs[1..], i - 1);
    }
  }

  /**
   * `map[name] = value` on a `LinkedHashMap`: an existing key keeps its position and gets the
   * new value (the last write wins); a new key is appended at the end.
   */
  function Put(fs: seq<Field>, name: string, value: MoshiNode): seq<Field> {
    if fs == [] then [Field(name, value)]
    else if fs[0].name == name then [Field(name, value)] + fs[1..]
    else [fs[0]] + Put(fs[1..], name, value)
  }

  /** An existing key is overwritten in place; a new key goes at the end; no key moves. */
  lemma {:induction false} PutShape(fs: seq<Field>, name: string, value: MoshiNode)
    ensures HasName(fs, name) ==> |Put(fs, name, value)| == |fs|
    ensures !HasName(fs, name) ==> Put(fs, name, value) == fs + [Field(name, value)]
    ensures forall i :: 0 <= i < |fs| ==> Put(fs, name, value)[i].name == fs[i].name
  {
    if fs != [] && fs[0].name != name {
      var r := Put(fs, name, value);
      var tail := Put(fs[1..], name, value);
      assert r == [fs[0]] + tail;
      PutShape(fs[1..], name, value);
      HasNameCons(fs, name);
      forall i | 0 <= i < |fs| ensures r[i].name == fs[i].name {
        if i > 0 {
          assert r[i] == tail[i - 1] && fs[i] == fs[1..][i - 1];
        }
      }
      if !HasName(fs, name) {
        assert r == [fs[0]] + (fs[1..] + [Field(name, value)]);
        assert fs == [fs[0]] + fs[1..];
      }
    }
  }

  /** After `map[name] = value`, `name` holds `value`. */
  lemma {:induction false} PutLookupSame(fs: seq<Field>, name: string, value: MoshiNode)
    ensures Lookup(Put(fs, name, value), name) == Some(value)
  {
    if fs != [] && fs[0].name != name {
      PutLookupSame(fs[1..], name, value);
      var r := Put(fs, name, value);
      assert r[0] == fs[0] && r[1..] == Put(fs[1..], name, value);
    }
  }

  /** After `map[name] = value`, every other key holds what it held before. */
  lemma {:induction false} PutLookupOther(fs: seq<Field>, name: string, value: MoshiNode, other: string)
    requires other != name
    ensures Lookup(Put(fs, name, value), other) == Lookup(fs, other)
  {
    if fs != [] && fs[0].name != name {
      PutLookupOther(fs[1..], name, value, other);
      var r := Put(fs, name, value);
      assert r[0] == fs[0] && r[1..] == Put(fs[1..], name, value);
    } else if fs != [] {
      var r := Put(fs, name, value);
      assert r[0].name == name && r[1..] == fs[1..];
    }
  }

  /** The keys after `map[name] = value` are the keys before, and `name`. */
  lemma {:induction false} PutNames(fs: seq<Field>, name: string, value: MoshiNode, other: string)
    ensures HasName(Put(fs, name, value), other) <==> HasName(fs, other) || other == name
  {
    var r := Put(fs, name, value);
    if fs == [] {
      assert r[0].name == name;
    } else if fs[0].name == name {
      HasNameCons(fs, other);
      HasNameCons(r, other);
      assert r[1..] == fs[1..];
    } else {
      HasNameCons(fs, other);
      HasNameCons(r, other);
      assert r[0] == fs[0] && r[1..] == Put(fs[1..], name, value);
      PutNames(fs[1..], name, value, other);
    }
  }

  /** `map[name] = value` keeps the keys unique. */
  lemma {:induction false} PutUnique(fs: seq<Field>, name: string, value: MoshiNode)
    requires UniqueNames(fs)
    ensures UniqueNames(Put(fs, name, value))
  {
    var r := Put(fs, name, value);
    if fs == [] {
      assert r == [Field(name, value)];
      assert r[1..] == [];
    } else if fs[0].name == name {
      assert r[0].name == fs[0].name && r[1..] == fs[1..];
    } else {
      assert r[0] == fs[0] && r[1..] == Put(fs[1..], name, value);
      PutUnique(fs[1..], name, value);
      PutNames(fs[1..], name, value, fs[0].name);
    }
  }

  /** `map[k] = v` for each pair in order, starting from `fs`: how a `LinkedHashMap` is
      filled, by `fromJson` and by `toMap()`. */
  function PutAll(fs: seq<Field>, pairs: seq<Field>): seq<Field>
    decreases pairs
  {
    if pairs == [] then fs else PutAll(Put(fs, pairs[0].name, pairs[0].value), pairs[1..])
  }

  /** The first of the remaining fields has a name not seen so far. */
  lemma FreshName(acc: seq<Field>, fs: seq<Field>)
    requires fs != [] && UniqueNames(acc + fs)
    ensures Put(acc, fs[0].name, fs[0].value) == acc + [fs[0]]
    ensures UniqueNames((acc + [fs[0]]) + fs[1..])
  {
    UniqueNamesPrefix(acc, fs);
    PutShape(acc, fs[0].name, fs[0].value);
    assert (acc + [fs[0]]) + fs[1..] == acc + fs;
  }

  /** Filling a map from pairs whose keys are all distinct keeps every pair, in order. */
  lemma {:induction false} PutAllFresh(acc: seq<Field>, pairs: seq<Field>)
    requires UniqueNames(acc + pairs)
    ensures PutAll(acc, pairs) == acc + pairs
    decreases pairs
  {
    if pairs == [] {
      assert acc + pairs == acc;
    } else {
      FreshName(acc, pairs);
      PutAllFresh(acc + [pairs[0]], pairs[1..]);
      assert (acc + [pairs[0]]) + pairs[1..] == acc + pairs;
    }
  }

  /** The value of the last pair named `name`, if any. */
  function LastValue(pairs: seq<Field>, name: string): (r: Option<MoshiNode>)
    ensures r.None? <==> !HasName(pairs, name)
  {
    if pairs == [] then None
    else
      var later := LastValue(pairs[1..], name);
      HasNameCons(pairs, name);
      if later.Some? then later
      else if pairs[0].name == name then Some(pairs[0].value)
      else None
  }

  /** After filling a map from `pairs`, each key holds the last value given for it, and a key
      no pair names keeps what it held before. */
  lemma {:induction false} PutAllLookup(acc: seq<Field>, pairs: seq<Field>, name: string)
    ensures Lookup(PutAll(acc, pairs), name)
         == if HasName(pairs, name) then LastValue(pairs, name) else Lookup(acc, name)
    decreases pairs
  {
    if pairs != [] {
      var acc' := Put(acc, pairs[0].name, pairs[0].value);
      PutAllLookup(acc', pairs[1..], name);
      if pairs[0].name == name {
        PutLookupSame(acc, name, pairs[0].value);
      } else {
        PutLookupOther(acc, pairs[0].name, pairs[0].value, name);
      }
    }
  }

  /** Filling a map keeps one entry per key. */
  lemma {:induction false} PutAllUnique(acc: seq<Field>, pairs: seq<Field>)
    requires UniqueNames(acc)
    ensures UniqueNames(PutAll(acc, pairs))
    decreases pairs
  {
    if pairs != [] {
      PutUnique(acc, pairs[0].name, pairs[0].value);
      PutAllUnique(Put(acc, pairs[0].name, pairs[0].value), pairs[1..]);
    }
  }

  /** The invariant of every node built from Kotlin maps: no object has a repeated key. */
  predicate ValidNode(n: MoshiNode) {
    match n
    case MoshiObject(fs) => UniqueNames(fs) && forall i :: 0 <= i < |fs| ==> ValidNode(fs[i].value)
    case MoshiArray(es) => forall i :: 0 <= i < |es| ==> ValidNode(es[i])
    case _ => true
  }

  /** A valid node whose every number is held as a `Long`. */
  predicate IntegralNode(n: MoshiNode)
    decreases n, 1
  {
    match n
    case MoshiObject(fs) => UniqueNames(fs) && IntegralFields(fs)
    case MoshiArray(es) => IntegralElements(es)
    case MoshiNumber(num) => num.Long?
    case _ => true
  }

  /** Every field value is an integral node. */
  predicate IntegralFields(fs: seq<Field>)
    decreases fs, 0
  {
    fs == [] || (IntegralNode(fs[0].value) && IntegralFields(fs[1..]))
  }

  /** Every element is an integral node. */
  predicate IntegralElements(es: seq<MoshiNode>)
    decreases es, 0
  {
    es == [] || (IntegralNode(es[0]) && IntegralElements(es[1..]))
  }
}
