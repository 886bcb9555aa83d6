/**
 The runtime value model of the interpreter, restricted to what the Object
 container (pkg/runtime/values/object.go) needs: a closed set of value kinds,
 the Go nil input that `Set` normalises, the transient name/value pairs used
 to seed construction, and the Object container itself.

 Go map iteration order is unspecified; every loop over the map below picks
 its next key with `:|`, so the proofs hold for every enumeration order.
 */
module Values {

  /** The kind discriminant (`core.Type`) of the kinds the model distinguishes. */
  datatype Kind = NoneType | BooleanType | IntType | StringType | ObjectType

  /**
   A runtime value. `Nil` is a Go nil passed where a `core.Value` is expected
   (what `core.IsNil` recognises); it is not a kind of its own, and `None` is
   the interpreter's null sentinel. `Obj` holds a reference to a container, so
   two entries may share one nested object.
   */
  datatype Value =
    | Nil
    | None
    | Boolean(b: bool)
    | Int(i: int)
    | Str(s: string)
    | Obj(obj: Object)

  predicate IsNil(v: Value) {
    v.Nil?
  }

  /** `v.Type()`; on a nil interface the Go call panics, so nil is excluded. */
  function TypeOf(v: Value): (k: Kind)
    requires !IsNil(v)
    ensures k == ObjectType <==> v.Obj?
    ensures k == NoneType <==> v.None?
  {
    match v
    case None => NoneType
    case Boolean(_) => BooleanType
    case Int(_) => IntType
    case Str(_) => StringType
    case Obj(_) => ObjectType
  }

  /** What `Set` stores for an input: a nil input becomes the None sentinel, anything else is kept. */
  function Stored(v: Value): (r: Value)
    ensures !IsNil(r)
    ensures !IsNil(v) ==> r == v
    ensures IsNil(v) ==> r == None
  {
    if IsNil(v) then None else v
  }

  /** A name/value pair that seeds `NewObjectWith`. */
  datatype ObjectProperty = ObjectProperty(name: string, value: Value)

  predicate NoDuplicates(s: seq<string>) {
    forall i, j :: 0 <= i < j < |s| ==> s[i] != s[j]
  }

  /** The map obtained by writing the properties one after the other, left to right. */
  function Collect(props: seq<ObjectProperty>): map<string, Value> {
    if props == [] then map[]
    else
      var last := props[|props| - 1];
      Collect(props[..|props| - 1])[last.name := last.value]
  }

  /** The keys of the collected map are exactly the names of the properties. */
  lemma {:induction false} CollectKeys(props: seq<ObjectProperty>)
    ensures Collect(props).Keys == set i | 0 <= i < |props| :: props[i].name
  {
    if props != [] {
      var n := |props| - 1;
      var init := props[..n];
      CollectKeys(init);
      var names := set i | 0 <= i < |props| :: props[i].name;
      var initNames := set i | 0 <= i < |init| :: init[i].name;
      assert names == initNames + {props[n].name} by {
        forall x | x in names ensures x in initNames + {props[n].name} {
          var i :| 0 <= i < |props| && props[i].name == x;
          if i < n {
            assert init[i].name == x;
          }
        }
        forall x | x in initNames ensures x in names {
          var i :| 0 <= i < |init| && init[i].name == x;
          assert props[i].name == x;
        }
      }
    }
  }

  /**
   Last write wins: a property that no later property of the same name
   follows gives the stored value of its name, verbatim (a nil stays nil).
   */
  lemma {:induction false} CollectLastWins(props: seq<ObjectProperty>, i: nat)
    requires i < |props|
    requires forall j :: i < j < |props| ==> props[j].name != props[i].name
    ensures props[i].name in Collect(props)
    ensures Collect(props)[props[i].name] == props[i].value
  {
    var n := |props| - 1;
    if i < n {
      CollectLastWins(props[..n], i);
    }
  }

  /** The string-keyed container; its whole state is the map `value`. */
  class Object {
    var value: map<string, Value>

    /** `NewObject()`: an object over a fresh, empty map. */
    constructor ()
      ensures value == map[]
      ensures Length() == 0
    {
      value := map[];
    }

    /** The object's kind is the kind of a value that holds it. */
    function Type(): (k: Kind)
      ensures k == TypeOf(Obj(this))
    {
      ObjectType
    }

    /** The number of entries; zero exactly when the object is empty. */
    function Length(): (n: nat)
      reads this
      ensures n == |value|
      ensures n == 0 <==> value == map[]
    {
      |value|
    }

    /** Every key once, in some order. */
    method Keys() returns (keys: seq<string>)
      ensures NoDuplicates(keys)
      ensures forall k :: k in keys <==> k in value
      ensures |keys| == Length()
    {
      keys := [];
      var rest := value.Keys;
      while rest != {}
        invariant rest <= value.Keys
        invariant forall k :: k in keys <==> k in value && k !in rest
        invariant NoDuplicates(keys)
        invariant |keys| + |rest| == |value|
        decreases rest
      {
        var k :| k in rest;
        keys := keys + [k];
        rest := rest - {k};
      }
    }

    /**
     Calls `pred(value, key)` on the entries in some order and stops right
     after the first call that returns false. The result is the sequence of
     keys the predicate was called on, in call order.
     */
    method ForEach(pred: (Value, string) -> bool) returns (visited: seq<string>)
      ensures NoDuplicates(visited)
      ensures forall k :: k in visited ==> k in value
      ensures |visited| <= Length()
      ensures forall i :: 0 <= i < |visited| - 1 ==> pred(value[visited[i]], visited[i])
      ensures |visited| == Length() || (visited != [] && !pred(value[visited[|visited| - 1]], visited[|visited| - 1]))
      ensures (forall k :: k in value ==> pred(value[k], k)) ==> |visited| == Length()
      ensures Length() > 0 ==> visited != []
      ensures visited != [] && !pred(value[visited[0]], visited[0]) ==> |visited| == 1
    {
      visited := [];
      var rest := value.Keys;
      while rest != {}
        invariant rest <= value.Keys
        invariant forall k :: k in visited <==> k in value && k !in rest
        invariant NoDuplicates(visited)
        invariant |visited| + |rest| == |value|
        invariant forall i :: 0 <= i < |visited| ==> pred(value[visited[i]], visited[i])
        decreases rest
      {
        var key :| key in rest;
        visited := visited + [key];
        rest := rest - {key};
        if !pred(value[key], key) {
          break;
        }
      }
    }

    /** Looks `key` up; `found` tells an absent key from a stored None. */
    function Get(key: string): (r: (Value, bool))
      reads this
      ensures r.1 <==> key in value
      ensures r.1 ==> r.0 == value[key]
      ensures !r.1 ==> r.0 == None
    {
      if key in value then (value[key], true) else (None, false)
    }

    /** Overwrites or inserts `key`; a nil input is stored as None, so the key is never left absent. */
    method Set(key: string, v: Value)
      modifies this
      ensures value == old(value)[key := Stored(v)]
      ensures Get(key) == (Stored(v), true)
      ensures forall k :: k != key ==> Get(k) == old(Get(k))
      ensures Length() == if key in old(value) then old(Length()) else old(Length()) + 1
    {
      if !IsNil(v) {
        value := value[key := v];
      } else {
        value := value[key := None];
      }
    }

    /** Deletes `key`; on an absent key nothing changes. */
    method Remove(key: string)
      modifies this
      ensures value == old(value) - {key}
      ensures !Get(key).1
      ensures forall k :: k != key ==> Get(k) == old(Get(k))
      ensures key !in old(value) ==> value == old(value)
      ensures Length() == if key in old(value) then old(Length()) - 1 else old(Length())
    {
      value := value - {key};
      assert value.Keys == old(value).Keys - {key};
    }

    /**
     A fresh object filled through `Set` with the same keys. Values are
     reused, not copied (a nested object is shared); a nil stored by
     `NewObjectWith` comes out as None because `Set` normalises it.
     */
    method Clone() returns (c: Object)
      ensures fresh(c)
      ensures c.value.Keys == value.Keys
      ensures forall k :: k in value ==> c.value[k] == Stored(value[k])
    {
      c := new Object();
      var rest := value.Keys;
      while rest != {}
        invariant fresh(c)
        invariant rest <= value.Keys
        invariant c.value == map k | k in value.Keys - rest :: Stored(value[k])
        decreases rest
      {
        var k :| k in rest;
        c.Set(k, value[k]);
        rest := rest - {k};
      }
    }

    /**
     `Compare(other)`, with `cmp` standing for the `Compare` of the entry
     values' own kinds. Only some results are determined: 1 against a
     non-object, 0 for two empty objects, 1 when exactly one is empty. For
     two non-empty objects the result is whatever the last element
     comparison returned, which depends on the enumeration order. Where Go
     panics (a nil `other`, or a nil entry value reaching the element
     comparison) the model excludes or abstracts the case.
     */
    method Compare(other: Value, cmp: (Value, Value) -> int) returns (res: int)
      requires !IsNil(other)
      ensures !other.Obj? ==> res == 1
      ensures other.Obj? && Length() == 0 && other.obj.Length() == 0 ==> res == 0
      ensures other.Obj? && (Length() == 0) != (other.obj.Length() == 0) ==> res == 1
      ensures other.Obj? && Length() > 0 && other.obj.Length() > 0 ==>
        exists a, b :: a in value && b in other.obj.value && res == cmp(value[a], other.obj.value[b])
    {
      if TypeOf(other) == ObjectType {
        var arr := other.obj;
        if Length() == 0 && arr.Length() == 0 {
          return 0;
        }
        res := 1;
        var rest := value.Keys;
        while rest != {}
          invariant rest <= value.Keys
          invariant rest == value.Keys || arr.value == map[] ==> res == 1
          invariant rest != value.Keys && arr.value != map[] ==>
            exists a, b :: a in value && b in arr.value && res == cmp(value[a], arr.value[b])
          decreases rest
        {
          var k :| k in rest;
          var val := value[k];
          var seen := arr.ForEach((otherVal: Value, key: string) => cmp(val, otherVal) != -1);
          if |seen| > 0 {
            var last := seen[|seen| - 1];
            res := cmp(val, arr.value[last]);
            assert k in value && last in arr.value && res == cmp(value[k], arr.value[last]);
          }
          rest := rest - {k};
        }
      } else {
        res := 1;
      }
    }
  }

  /**
   `NewObjectWith(props...)`: writes the properties into a fresh object in
   order, straight into the map (no nil conversion), so the stored map is
   the left fold `Collect(props)`.
   */
  method NewObjectWith(props: seq<ObjectProperty>) returns (o: Object)
    ensures fresh(o)
    ensures o.value == Collect(props)
  {
    o := new Object();
    var i := 0;
    while i < |props|
      invariant 0 <= i <= |props|
      invariant o.value == Collect(props[..i])
    {
      assert props[..i + 1][..i] == props[..i];
      o.value := o.value[props[i].name := props[i].value];
      i := i + 1;
    }
    assert props[..|props|] == props;
  }
}
