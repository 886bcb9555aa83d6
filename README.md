# Object container of the query-language runtime

This project models the `Object` value of the interpreter's runtime
(`pkg/runtime/values/object.go`). An `Object` is a string-keyed mapping from
names to runtime values. The evaluator builds objects from literals, reads and
writes their entries, removes keys, enumerates them, clones them and compares
them.

- Module `Values` (`values.dfy`):
  - the value datatype, which has a `None` sentinel and a separate `Nil` for
    a Go nil input;
  - the name/value pairs that seed `NewObjectWith`;
  - the `Object` class. Its only field is `value: map<string, Value>`, and
    `Set` and `Remove` update it in place.
- Module `ObjectScenarios` (`scenarios.dfy`): what a caller can derive from
  these contracts alone. Examples: a nil written with `Set` reads back as a
  present `None`; later duplicate properties win; a clone is independent at
  the top level but shares nested objects; `ForEach` visits every entry, or
  exactly one, depending on the predicate.

Go leaves map iteration order unspecified. Every loop over the map
(`Keys`, `ForEach`, `Clone`, `Compare`) picks its next key with a
nondeterministic choice, so each loop contract holds for every enumeration
order.

`ForEach` returns the keys the predicate was called on, in call order. That
trace is how the model states "at most once", "stops right after the first
false" and the visit counts.

`Compare` takes the `Compare` of the entry values' own kinds as a parameter
`cmp`, because those kinds are not part of this model. The closure that Go
passes to `ForEach` writes the shared variable `res`. The model gets the same
effect by taking the last comparison that the visited trace implies.

A deep clone or a sorted-key comparison would differ from the code; the model
follows the code:
- `Clone` is shallow. It writes each stored value into a fresh map through
  `Set`, so nested objects are shared.
- A nil stored by `NewObjectWith` comes out of `Clone` as `None`, because
  `Set` turns nil into `None`.
- `Compare` of two non-empty objects scans in map order. It is not a
  sorted-key comparison.
- Against a non-object, `Compare` always returns 1.

## Model

| member | source | states |
|---|---|---|
| `Values.TypeOf` | pkg/runtime/values/object.go:57-59 | a non-nil value has the Object kind exactly when it holds an object, so the type assertion in `Compare` succeeds on that branch |
| `Values.Stored` | pkg/runtime/values/object.go:155-161 | what `Set` stores is never nil: a nil input becomes `None`, and any other input is kept as given |
| `Values.CollectKeys` | pkg/runtime/values/object.go:28-36 | the keys of the map built from the properties are exactly the property names |
| `Values.CollectLastWins` | pkg/runtime/values/object.go:28-36 | a property that no later property of the same name follows decides its key's value, stored verbatim even when nil |
| `Values.NewObjectWith` | pkg/runtime/values/object.go:28-36 | the result is a fresh object whose map is the left-to-right, last-wins fold of the properties |
| `Values.Object.constructor` | pkg/runtime/values/object.go:24-26 | a new object has an empty map and length 0 |
| `Values.Object.Type` | pkg/runtime/values/object.go:42-44 | the object's kind is the kind of a value holding it (the Object kind) |
| `Values.Object.Length` | pkg/runtime/values/object.go:119-121 | the entry count; it is 0 exactly when the map is empty |
| `Values.Object.Keys` | pkg/runtime/values/object.go:123-131 | a duplicate-free sequence whose elements are exactly the map's keys, with length `Length()`, in every enumeration order |
| `Values.Object.ForEach` | pkg/runtime/values/object.go:133-139 | visits only present keys, each at most once; the predicate held on every visit but the last; the loop ends either after all entries or right after the first false; all `Length()` entries are visited when the predicate always holds; at least one is visited on a non-empty object; exactly one when the first call returns false |
| `Values.Object.Get` | pkg/runtime/values/object.go:141-149 | `found` holds exactly when the key is present; a present key gives its stored value; an absent key gives `None` |
| `Values.Object.Set` | pkg/runtime/values/object.go:155-161 | the key then holds the input, with nil replaced by `None`, and is present; every other key reads the same as before; the length grows by one exactly when the key was absent |
| `Values.Object.Remove` | pkg/runtime/values/object.go:163-165 | the key is then absent; every other key reads the same as before; an absent key leaves the map unchanged; the length drops by one exactly when the key was present |
| `Values.Object.Clone` | pkg/runtime/values/object.go:109-117 | a freshly allocated object with the same key set; each key holds the original's value itself (not a copy), with nil turned into `None` |
| `Values.Object.Compare` | pkg/runtime/values/object.go:56-79 | 1 against any non-object; 0 for two empty objects; 1 when exactly one of the two objects is empty; for two non-empty objects, the result of `cmp` on some pair of their values |
| `ObjectScenarios.NewObjectIsEmpty` | pkg/runtime/values/object.go:24-26 | a new object has length 0 and no keys |
| `ObjectScenarios.SetOnNewObject` | pkg/runtime/values/object.go:155-161 | after one `Set` with a non-nil value, the object has length 1 and `Get` returns that value with `found` true |
| `ObjectScenarios.NilInputs` | pkg/runtime/values/object.go:141-161 | a nil set with `Set` reads back as `(None, true)`; an untouched key reads as `(None, false)`; a nil seeded through `NewObjectWith` reads back as nil |
| `ObjectScenarios.LaterPropertyWins` | pkg/runtime/values/object.go:28-36 | two properties with the same name give one entry, holding the later value |
| `ObjectScenarios.ForEachCounts` | pkg/runtime/values/object.go:133-139 | an always-true predicate visits `Length()` entries; an always-false one visits one entry, or none on an empty object |
| `ObjectScenarios.CompareDeterministicCases` | pkg/runtime/values/object.go:56-79 | two empty objects compare as 0; an object against a scalar compares as 1 |
| `ObjectScenarios.CloneThenChange` | pkg/runtime/values/object.go:109-117 | a `Set` and a `Remove` on the clone show up in the clone and leave the original's map unchanged |
| `ObjectScenarios.OriginalThenChange` | pkg/runtime/values/object.go:109-117 | a `Set` and a `Remove` on the original after cloning show up in the original and leave the clone's map as it was at cloning |
| `ObjectScenarios.CloneSharesNested` | pkg/runtime/values/object.go:109-117 | the clone holds the same nested object as the original, so a change made through the clone is visible from the original |

## Left out

- `Hash` (object.go:91-107): it rests on `encoding/json` and `crypto/sha512`, which are not modelled. As written, it returns the byte count from the hash writer, that is the length of the JSON text, not a digest.
- `MarshalJSON` and `String` (object.go:38-54): thin wrappers over `encoding/json`. The only logic of their own is that `String` falls back to `"{}"` when marshalling fails.
- `Unwrap` (object.go:81-89): it builds a host structure by calling `Unwrap` on every other kind of value, and those kinds are not part of this model.
- `GetIn` and `SetIn` (object.go:151-153, 167-169): they delegate to package-level path functions that are not part of this model.
- `NewObjectProperty` (object.go:20-22): it is the `ObjectProperty` datatype constructor, with no behaviour of its own.
- Values.Object.Compare: for two non-empty objects it states only that the result is one of the element comparisons. The actual value depends on map iteration order and on the other kinds' `Compare`.
- Values.Object.Compare: Go panics in three cases that the model does not reproduce. First, a nil `other` makes `other.Type()` panic (object.go:57); the model excludes it with a precondition. Second, a nil entry value stored by `NewObjectWith` panics when `val.Compare` is called on it (object.go:69); the model instead returns whatever `cmp` gives for that value. Third, a nil property pointer passed to `NewObjectWith` panics (object.go:32); the `ObjectProperty` datatype cannot express it.
- Values.Object.ForEach: the predicate is a pure function of value and key. A Go closure's side effects are not modelled in general; `Compare` reconstructs the one side effect it relies on from the visited trace.
- Values.Object.Length: Go returns a 64-bit `Int`. The model's count is unbounded, because an in-memory map cannot come near that bound.
- Value kinds: only None, Boolean, Int, String and Object are modelled, plus `Nil` for a Go nil input. The other kinds matter to an object only through the `cmp` parameter of `Compare`.
- Concurrent use of one object from several goroutines is not modelled. The source does not synchronise access.
