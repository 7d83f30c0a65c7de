# phantasus vector base class

A model of `phantasus.AbstractVector`, the base class of the vectors that
phantasus uses for one row or one column of an expression matrix. A vector
has a name, a fixed element count and a mutable property bag (a
`phantasus.Map`). The base class stores no element values: its `getValue`
throws `'Not implemented'`, and subclasses supply the real accessor.

- `vectors.dfy`, module `Vectors`: the class `AbstractVector` with its
  constructor and the accessors `GetValue`, `GetProperties`, `Size` and
  `GetName`; the heap class `PropertyMap` for the bag; and three callers
  that show what the class guarantees to code holding vectors: a property
  write through `getProperties()`, a vector built beside an existing one,
  and two vectors whose bags stay independent.
- `vector_calls.dfy`, module `VectorCalls`: what a caller observes over
  any sequence of calls on one vector, including writes through the bag it
  hands out. `Run` plays a sequence of calls. The lemmas show that every
  `size()` and `getName()` reply is the constructor's argument, that every
  `getValue` throws, and that every `getProperties()` sees the last earlier
  write. `LastWrite` is a second definition of the bag's contents, read
  from the end of the sequence. `Replay` runs a sequence of calls on a
  vector object itself, a bag write being an assignment to the contents
  of the bag that `getProperties()` returns. It is proved to produce
  exactly the replies and the final observed state of `Run`, so the
  lemmas about `Run` hold of the object. `ObjectRepliesAsStep` states the
  same agreement for a single read accessor.

The fields `name`, `n` and `properties` are declared `const`. No code of
the class reassigns them after the constructor, so the accessors and any
write to a bag leave them unchanged by construction. Only the contents
`m` of a `PropertyMap` can change. Callers change them by assigning `m`,
which stands for any write made through the map's own API.

The class is documented as implementing `phantasus.VectorInterface`. The
interface is not modelled as a trait: the class's own members are the
capability.

The base class's `getValue` throws `'Not implemented'` for every index,
in range or not. `GetValue` models that, and `GetValueAlwaysThrows` proves
that it holds on every call.

## Model

| member | source | states |
|---|---|---|
| `Vectors.AbstractVector.constructor` | inst-raw/phantasus.js/src/matrix/abstract_vector.js:12-16 | construction always succeeds, with no check on name or size; afterwards `GetName()` is the given name, `Size()` is the given size, and `GetProperties()` is a newly allocated, empty bag |
| `Vectors.PropertyMap.constructor` | inst-raw/phantasus.js/src/matrix/abstract_vector.js:15 | a new property bag holds no properties |
| `Vectors.AbstractVector.GetValue` | inst-raw/phantasus.js/src/matrix/abstract_vector.js:19-21 | for every index, in range or not, the base `getValue` fails with the error whose message is `"Not implemented"` |
| `Vectors.AbstractVector.GetProperties` | inst-raw/phantasus.js/src/matrix/abstract_vector.js:22-24 | returns the `const` field `properties`, so every call hands out the same bag object the constructor allocated (constructor ensures: fresh and empty); writes through it are seen by later calls, proved by `Replay` with `PropertiesSeeLastWrite` |
| `Vectors.AbstractVector.Size` | inst-raw/phantasus.js/src/matrix/abstract_vector.js:25-27 | reads the `const` field `n`, so every call gives the size passed to the constructor (constructor ensures), proved over any call sequence on the object by `Replay` with `SizeOnEveryCall` |
| `Vectors.AbstractVector.GetName` | inst-raw/phantasus.js/src/matrix/abstract_vector.js:28-30 | reads the `const` field `name`, so every call gives the name passed to the constructor (constructor ensures), proved over any call sequence on the object by `Replay` with `NameOnEveryCall` |
| `Vectors.SetProperty` | inst-raw/phantasus.js/src/matrix/abstract_vector.js:22-24 | a write through the bag that `getProperties()` returns is a write to the vector's own bag; the new contents are the old ones with the key set; its frame names only that bag, so every other bag and every vector keeps its state |
| `Vectors.NewVector` | inst-raw/phantasus.js/src/matrix/abstract_vector.js:15 | a vector constructed while another exists is a different object and does not share that vector's bag |
| `Vectors.IndependentBags` | inst-raw/phantasus.js/src/matrix/abstract_vector.js:12-16 | two vectors built one after the other have distinct bags; a property set on the first is absent from the second, and both keep their constructor's name and size |
| `VectorCalls.ObjectRepliesAsStep` | inst-raw/phantasus.js/src/matrix/abstract_vector.js:19-30 | each accessor of a vector object replies as the call model's `Step` does on that object's observed state |
| `VectorCalls.Replay` | inst-raw/phantasus.js/src/matrix/abstract_vector.js:19-30 | running any sequence of calls on a vector object, writes through the bag it hands out included, gives exactly the replies and the final name, size and bag contents that `Run` gives from the object's starting state |
| `VectorCalls.RunKeepsNameAndSize` | inst-raw/phantasus.js/src/matrix/abstract_vector.js:22-30 | no sequence of calls, bag writes included, changes a vector's name or size |
| `VectorCalls.SizeOnEveryCall` | inst-raw/phantasus.js/src/matrix/abstract_vector.js:25-27 | in any sequence of calls, every `size()` replies with the size given to the constructor |
| `VectorCalls.NameOnEveryCall` | inst-raw/phantasus.js/src/matrix/abstract_vector.js:28-30 | in any sequence of calls, every `getName()` replies with the name given to the constructor |
| `VectorCalls.GetValueAlwaysThrows` | inst-raw/phantasus.js/src/matrix/abstract_vector.js:19-21 | in any sequence of calls, every `getValue`, whatever its index, throws `"Not implemented"` |
| `VectorCalls.PropertiesSeeLastWrite` | inst-raw/phantasus.js/src/matrix/abstract_vector.js:22-24 | every `getProperties()` sees the contents of the last earlier write to the bag, or the empty bag if there was none, so writes made by callers are visible to later calls |
| `VectorCalls.FinalBagIsLastWrite` | inst-raw/phantasus.js/src/matrix/abstract_vector.js:15-24 | after any sequence of calls the bag holds the contents of the last write, read off from the end of the sequence |

## Left out

- The operations of `phantasus.Map` are not part of this model. The bag is a heap object holding a finite map from string keys. It is assumed to be empty when new, and any write is modelled as replacing its contents.
- Vectors.AbstractVector.constructor: `size` is an unchecked JavaScript value. It is modelled as an unbounded integer, and negative integers are accepted as the code accepts them. Fractional, `NaN` and non-number sizes and non-string names are not modelled.
- JavaScript lets any code reassign `name`, `n` or `properties` directly. No code of the class does so, and the model declares them constant.
- Concrete vector subclasses and their storage-backed `getValue` are not part of this model. Range checks on indices are not modelled either: the base class performs none.
- The matrix container and the GEO dataset reader are not part of this model, nor is their test. The test needs network I/O, callbacks and timers, and it is disabled.
