# TupleDesc — the schema descriptor of the SimpleDB storage engine, in Dafny

`TupleDesc` describes a tuple's layout. It is an ordered list of `TDItem`s. Each
item has a field type and a field name, which may be empty. The descriptor
answers several queries: how many fields there are, the name or type at a
position, the first position that has a given name, and the fixed byte size of
a tuple. It can also concatenate two descriptors (`merge`), compare two
descriptors structurally (`equals`), and render itself as text.

The project has two modules:

- `Types` (Types.dfy) stands in for the engine's `Type`. A type is known only by
  an opaque kind tag and its byte length. `Len(t)` plays the role of `getLen()`.
- `Storage` (TupleDesc.dfy) holds these pieces:
  - the `TDItem` datatype;
  - the error and result datatypes;
  - the pure specification functions: `SumLen`, `FirstIndexOf`,
    `PairwiseEqual`/`SameSchema`, `Entry`/`Render`;
  - the class `TupleDesc` with its list of items as the field `items: seq<TDItem>`;
  - the lemmas.

The two array constructors fill `items` in a loop, `Copy` takes the other
descriptor's items, and `Merge` extends a fresh copy, just as the Java code
appends to its `ArrayList`. `GetSize`, `IndexForFieldName`,
`Equals` and `ToString` keep the source's loops. Each is proved against a
specification function. Java exceptions become `Err` values:

- `NoSuchElement(message)` for an index past the end or a name that no field has.
  The message is the exact text the source builds.
- `IndexOutOfBounds(i)` for a negative index. The source does not check for it,
  so the list's own `get` rejects it.

The model departs from the code in these places:

- **Constructor from types and names.** The source only `assert`s that the two
  arrays have equal length (line 71). The model makes equal length a
  precondition. It does not add a run-time error.
- **Negative indices.** `getFieldName` and `getFieldType` check only `i >= size`.
  A negative index therefore reaches `ArrayList.get` and raises its own
  exception. The model gives that case its own error, `IndexOutOfBounds`.
- **Equality.**
  - `equals` compares names with `!=`, which compares object identity. The model
    compares names by value.
  - The documented contract (lines 182-185) asks for the same number of items.
    The model checks that explicitly, after the size test. The Java loop runs
    over this descriptor's fields only, so the check changes two results, both
    of which need fields of byte length zero:
    - a shorter `other` that matches this descriptor's first fields, where the
      rest of this descriptor has total length zero, yields `false` where the
      source would throw;
    - a longer `other` that matches all of this descriptor's fields, whose extra
      fields have total length zero, yields `false` where the source returns
      `true`.
    When every field type has a positive length, equal byte sizes and
    matching fields force equal field counts, so the check changes nothing.
- **Rendering.** `toString` prints the literal placeholder `fieldType[0]` before
  each name. The model keeps that text exactly as the code writes it. It does
  not render the real type, because `Type`'s string form is not part of this
  model.

## Model

| member | source | states |
|---|---|---|
| `Storage.TupleDesc.Copy` | src/java/simpledb/storage/TupleDesc.java:55-58 | the new descriptor holds exactly the other descriptor's items, and is a distinct object |
| `Storage.TupleDesc.FromTypesAndNames` | src/java/simpledb/storage/TupleDesc.java:69-76 | for arrays of equal length, there are `typeAr.Length` fields, and item `i` is `(typeAr[i], fieldAr[i])` in order |
| `Storage.TupleDesc.FromTypes` | src/java/simpledb/storage/TupleDesc.java:85-91 | there are `typeAr.Length` fields, field `i` has type `typeAr[i]`, and every name is `""` |
| `Storage.TupleDesc.NumFields` | src/java/simpledb/storage/TupleDesc.java:96-98 | the number of fields is the length of the item list |
| `Storage.TupleDesc.GetFieldName` | src/java/simpledb/storage/TupleDesc.java:107-113 | succeeds exactly for `0 <= i < numFields`, with item `i`'s name; `i >= numFields` fails with `NoSuchElement("arg: i = " + i)`; a negative `i` fails with `IndexOutOfBounds(i)` |
| `Storage.TupleDesc.GetFieldType` | src/java/simpledb/storage/TupleDesc.java:123-130 | succeeds exactly for `0 <= i < numFields`, with item `i`'s type; `i >= numFields` fails with `NoSuchElement("arg : i = " + i)`; a negative `i` fails with `IndexOutOfBounds(i)` |
| `Storage.FirstIndexOf` | src/java/simpledb/storage/TupleDesc.java:132-153 | a returned position carries the name and every earlier field has a different name; no position is returned exactly when no field has the name |
| `Storage.TupleDesc.IndexForFieldName` | src/java/simpledb/storage/TupleDesc.java:139-153 | the scan returns the first matching position (`FirstIndexOf`), or fails with `NoSuchElement(name)` exactly when no field has that name; `""` is an ordinary name |
| `Storage.FirstUnique` | src/java/simpledb/storage/TupleDesc.java:136-137 | a matching position with no earlier match is the one the lookup returns, so the first match is unique |
| `Storage.LookupAgreesWithPosition` | src/java/simpledb/storage/TupleDesc.java:100-153 | looking up the name of field `i` gives a position at or before `i`, and that position carries the same name |
| `Storage.EmptyNameMatchesAnonymous` | src/java/simpledb/storage/TupleDesc.java:85-91 | for a descriptor built from types alone, looking up the empty name gives position 0 when there is at least one type, and fails with `NoSuchElement("")` when there are none |
| `Storage.TupleDesc.GetSize` | src/java/simpledb/storage/TupleDesc.java:159-165 | the accumulated size is the sum of `Len(fieldType)` over all fields, in order |
| `Storage.SumLenAppend` | src/java/simpledb/storage/TupleDesc.java:155-165 | the size of a concatenation of item lists is the sum of their sizes |
| `Storage.TupleDesc.Merge` | src/java/simpledb/storage/TupleDesc.java:175-179 | the result is a fresh descriptor whose items are `td1`'s followed by `td2`'s; neither input is modified |
| `Storage.MergeSizes` | src/java/simpledb/storage/TupleDesc.java:167-179 | a merge has `td1.numFields + td2.numFields` fields and byte size `td1.getSize + td2.getSize` |
| `Storage.MergeAccessors` | src/java/simpledb/storage/TupleDesc.java:167-179 | the first `td1.numFields` fields of a merge are `td1`'s, and the remaining fields are `td2`'s, shifted |
| `Storage.FirstIndexOfAppend` | src/java/simpledb/storage/TupleDesc.java:139-179 | a name lookup in a merge finds the first input's match if it has one, else the second input's match offset by `td1.numFields`, else nothing |
| `Storage.TupleDesc.Equals` | src/java/simpledb/storage/TupleDesc.java:191-215 | true exactly when `o` is this object, or `o` is a descriptor with the same byte size and position-by-position equal types and names; false for any other kind of object and for null |
| `Storage.PairwiseEqualIsEquality` | src/java/simpledb/storage/TupleDesc.java:204-208 | position-by-position equality of types and names holds exactly when the item lists are equal |
| `Storage.SameSchemaIsEquality` | src/java/simpledb/storage/TupleDesc.java:181-215 | two descriptors are equal exactly when their item lists are equal, so the size test never rejects matching fields |
| `Storage.SameSchemaIsEquivalence` | src/java/simpledb/storage/TupleDesc.java:181-215 | descriptor equality is reflexive, symmetric and transitive, so a copy equals its original |
| `Storage.DifferentSizesNotSame` | src/java/simpledb/storage/TupleDesc.java:200-202 | descriptors with different byte sizes are never equal |
| `Storage.Render` | src/java/simpledb/storage/TupleDesc.java:223-239 | the rendering is empty exactly when there are no fields |
| `Storage.TupleDesc.ToString` | src/java/simpledb/storage/TupleDesc.java:230-239 | the string built by the loop is `Render(items)`: one `fieldType[0](name)` entry per field, joined by `", "`, with no trailing separator |
| `Storage.RenderAppend` | src/java/simpledb/storage/TupleDesc.java:230-239 | rendering two non-empty lists one after the other yields the two renderings joined by a single `", "` |
| `Storage.RenderCons` | src/java/simpledb/storage/TupleDesc.java:230-239 | the rendering is the first field's entry, then `", "` and the rest's rendering when more fields follow |

## Left out

- `iterator()` (line 49-51) is not modelled. It hands out the backing list's iterator, which can mutate the list. Callers in this model read `items` directly.
- `hashCode` (line 217-221) is not modelled. It always throws "unimplemented", so there is no contract to state.
- Serialisation is not modelled. `Serializable` and `serialVersionUID` are Java I/O plumbing.
- `TDItem.toString` (line 38-40) is not modelled. It prints `Type`'s string form, which is not part of this model, and `TupleDesc.toString` does not use it.
- Null field names are not modelled. Names are plain strings. With a null name, `indexForFieldName` would throw a null-pointer exception.
- `Type` is not modelled. Its constants and `getLen` are not part of this model. A type is an opaque kind with a byte length `Len`.
- Storage.TupleDesc.GetSize: integers are unbounded. Java's 32-bit `int` overflow of `getSize` and `numFields` is not modelled.
- Storage.TupleDesc.Equals: the explicit field-count check replaces the source's loop over this descriptor's fields alone. A shorter `other` with the same byte size that matches this descriptor's first fields makes the source throw; here the result is `false`. A longer `other` that matches every field of this descriptor, whose extra fields have zero total length, is equal in the source and unequal here. Both cases need zero-length field types. Names are compared by value, not by identity.
- Storage.TupleDesc.Copy: the Java copy gets its own `ArrayList`. In the model, the items are a sequence value held by a fresh object, so list identity is represented by object freshness.
- Storage.TupleDesc.FromTypesAndNames: equal array lengths are a precondition, as the source's `assert` demands. There is no run-time `InvalidArgument` error. Java disables `assert` by default. The running code then ignores the extra names of a longer `fieldAr`, and throws `ArrayIndexOutOfBoundsException` for a shorter one. Neither behaviour is modelled.
