/**
 Client-side consequences of the Object container's contracts: what an
 evaluator that creates, fills, clones and walks objects can rely on,
 derived from the specifications in module Values alone.
 */
module ObjectScenarios {
  import opened Values

  /** A new object has no entries and no keys. */
  method NewObjectIsEmpty() returns (n: nat, keys: seq<string>)
    ensures n == 0
    ensures keys == []
  {
    var o := new Object();
    n := o.Length();
    keys := o.Keys();
  }

  /** Setting a value on a new object makes it the one entry. */
  method SetOnNewObject(key: string, v: Value) returns (n: nat, r: (Value, bool))
    requires !IsNil(v)
    ensures n == 1
    ensures r == (v, true)
  {
    var o := new Object();
    o.Set(key, v);
    n := o.Length();
    r := o.Get(key);
  }

  /**
   A nil written through `Set` reads back as a present None, while the same
   nil seeded through `NewObjectWith` is kept as nil; an untouched key is
   reported absent.
   */
  method NilInputs(key: string, other: string) returns (viaSet: (Value, bool), viaProps: (Value, bool), absent: (Value, bool))
    requires key != other
    ensures viaSet == (None, true)
    ensures viaProps == (Nil, true)
    ensures absent == (None, false)
  {
    var o := new Object();
    o.Set(key, Nil);
    viaSet := o.Get(key);
    absent := o.Get(other);
    var p := NewObjectWith([ObjectProperty(key, Nil)]);
    viaProps := p.Get(key);
  }

  /** With duplicate names, the later property is the one stored. */
  method LaterPropertyWins(key: string, first: Value, second: Value) returns (n: nat, r: (Value, bool))
    ensures n == 1
    ensures r == (second, true)
  {
    var props := [ObjectProperty(key, first), ObjectProperty(key, second)];
    assert props[..1] == [props[0]] && [props[0]][..0] == [];
    assert Collect([props[0]]) == map[key := first];
    assert Collect(props) == Collect([props[0]])[key := second];
    var o := NewObjectWith(props);
    n := o.Length();
    r := o.Get(key);
  }

  /** A predicate that always continues visits every entry; one that stops at once visits one. */
  method ForEachCounts(o: Object) returns (all: nat, one: nat)
    ensures all == o.Length()
    ensures one == if o.Length() == 0 then 0 else 1
  {
    var everything := o.ForEach((v: Value, k: string) => true);
    var first := o.ForEach((v: Value, k: string) => false);
    all, one := |everything|, |first|;
  }

  /** Two empty objects compare equal; an object is greater than any non-object. */
  method CompareDeterministicCases(cmp: (Value, Value) -> int, scalar: Value) returns (empty: int, cross: int)
    requires !IsNil(scalar) && !scalar.Obj?
    ensures empty == 0
    ensures cross == 1
  {
    var a := new Object();
    var b := new Object();
    empty := a.Compare(Obj(b), cmp);
    cross := a.Compare(scalar, cmp);
  }

  /** Changing the clone's own map (a write, then a delete) leaves the original's map as it was. */
  method CloneThenChange(o: Object, setKey: string, v: Value, removeKey: string) returns (c: Object)
    requires setKey != removeKey
    ensures fresh(c)
    ensures o.value == old(o.value)
    ensures c.Get(setKey) == (Stored(v), true)
    ensures !c.Get(removeKey).1
  {
    c := o.Clone();
    c.Set(setKey, v);
    c.Remove(removeKey);
  }

  /** Changing the original's map after cloning leaves the clone's map as it was. */
  method OriginalThenChange(o: Object, setKey: string, v: Value, removeKey: string) returns (c: Object, before: map<string, Value>)
    requires setKey != removeKey
    modifies o
    ensures fresh(c)
    ensures c.value == before
    ensures before.Keys == old(o.value).Keys
    ensures o.Get(setKey) == (Stored(v), true)
    ensures !o.Get(removeKey).1
  {
    c := o.Clone();
    before := c.value;
    o.Set(setKey, v);
    o.Remove(removeKey);
  }

  /**
   The clone is shallow: a nested object reached through the clone is the
   original's nested object, so changing it is seen through both.
   */
  method CloneSharesNested(inner: Object, key: string, nestedKey: string, v: Value) returns (o: Object, c: Object)
    requires !IsNil(v)
    modifies inner
    ensures fresh(o) && fresh(c)
    ensures o.Get(key) == (Obj(inner), true) && c.Get(key) == (Obj(inner), true)
    ensures inner.Get(nestedKey) == (v, true)
  {
    o := NewObjectWith([ObjectProperty(key, Obj(inner))]);
    c := o.Clone();
    var r := c.Get(key);
    r.0.obj.Set(nestedKey, v);
  }
}
