/**
 * The schema descriptor of the storage engine: an ordered list of
 * (type, name) items describing the layout of a tuple.
 *
 * The descriptor object holds its items in a list that its constructors and
 * `Merge` fill in place; here that list is the field `items`, a sequence that
 * those members reassign. The loops of the queries are verified against the
 * specification functions `SumLen`, `FirstIndexOf` and `Render` below, and
 * the properties the engine relies on are lemmas about those functions.
 */
module Storage {

  import opened Types

  /** One field of a schema: its type and its (possibly empty) name. */
  datatype TDItem = TDItem(fieldType: Type, fieldName: string)

  /** The exceptions the descriptor's operations raise. */
  datatype Error =
    | NoSuchElement(message: string)   // an index past the end, or a name no field has
    | IndexOutOfBounds(index: int)     // a negative index, rejected by the list itself

  datatype Result<T> = Ok(value: T) | Err(error: Error)

  datatype Option<T> = None | Some(value: T)

  // ---------------------------------------------------------------------------
  // Specification functions
  // ---------------------------------------------------------------------------

  /** The byte size of a tuple laid out by `items`: the sum of the field type lengths. */
  function SumLen(items: seq<TDItem>): (size: nat)
  {
    if items == [] then 0
    else SumLen(items[..|items| - 1]) + Len(items[|items| - 1].fieldType)
  }

  /** The position of the first item named `name`, if there is one. */
  function FirstIndexOf(items: seq<TDItem>, name: string): (r: Option<nat>)
    ensures r.Some? ==> r.value < |items| && items[r.value].fieldName == name
    ensures r.Some? ==> forall j :: 0 <= j < r.value ==> items[j].fieldName != name
    ensures r.None? <==> forall j :: 0 <= j < |items| ==> items[j].fieldName != name
  {
    if items == [] then None
    else if items[0].fieldName == name then Some(0)
    else match FirstIndexOf(items[1..], name)
      case None => None
      case Some(k) => Some(k + 1)
  }

  /** Positional equality of two item lists: same length, same types and names. */
  predicate PairwiseEqual(a: seq<TDItem>, b: seq<TDItem>)
  {
    |a| == |b| &&
    forall i :: 0 <= i < |a| ==> a[i].fieldType == b[i].fieldType && a[i].fieldName == b[i].fieldName
  }

  /** When two descriptors are equal: the same byte size and pairwise equal items. */
  predicate SameSchema(a: seq<TDItem>, b: seq<TDItem>)
  {
    SumLen(a) == SumLen(b) && PairwiseEqual(a, b)
  }

  /** The text shown for one field; the type part is a fixed placeholder. */
  function Entry(item: TDItem): (entry: string)
  {
    "fieldType[0](" + item.fieldName + ")"
  }

  /** The entries of all fields in order, separated by ", ", with no trailing separator. */
  function Render(items: seq<TDItem>): (r: string)
    ensures r == "" <==> items == []
  {
    if items == [] then ""
    else if |items| == 1 then Entry(items[0])
    else Render(items[..|items| - 1]) + ", " + Entry(items[|items| - 1])
  }

  /** Decimal digits of a non-negative integer, as Java's string concatenation prints it. */
  function NatToString(n: nat): (digits: string)
  {
    if n < 10 then ["0123456789"[n]]
    else NatToString(n / 10) + ["0123456789"[n % 10]]
  }

  // ---------------------------------------------------------------------------
  // The descriptor
  // ---------------------------------------------------------------------------

  class TupleDesc {

    /** The fields, in definition order. */
    var items: seq<TDItem>

    /** A descriptor holding the same items as `other`, in a list of its own. */
    constructor Copy(other: TupleDesc)
      ensures items == other.items
    {
      items := other.items;
    }

    /** One field per position, with type `typeAr[i]` and name `fieldAr[i]`. */
    constructor FromTypesAndNames(typeAr: array<Type>, fieldAr: array<string>)
      requires typeAr.Length == fieldAr.Length
      ensures |items| == typeAr.Length
      ensures forall i :: 0 <= i < |items| ==> items[i] == TDItem(typeAr[i], fieldAr[i])
    {
      items := [];
      new;
      for i := 0 to typeAr.Length
        invariant |items| == i
        invariant forall k :: 0 <= k < i ==> items[k] == TDItem(typeAr[k], fieldAr[k])
      {
        items := items + [TDItem(typeAr[i], fieldAr[i])];
      }
    }

    /** One anonymous field (empty name) per entry of `typeAr`. */
    constructor FromTypes(typeAr: array<Type>)
      ensures |items| == typeAr.Length
      ensures forall i :: 0 <= i < |items| ==> items[i].fieldType == typeAr[i]
      ensures forall i :: 0 <= i < |items| ==> items[i].fieldName == ""
    {
      items := [];
      new;
      for i := 0 to typeAr.Length
        invariant |items| == i
        invariant forall k :: 0 <= k < i ==> items[k] == TDItem(typeAr[k], "")
      {
        items := items + [TDItem(typeAr[i], "")];
      }
    }

    /** The number of fields. */
    function NumFields(): (n: nat)
      reads this
      ensures n == |items|
    {
      |items|
    }

    /** The name of field `i`; an error when `i` is not a field position. */
    function GetFieldName(i: int): (r: Result<string>)
      reads this
      ensures r.Ok? <==> 0 <= i < |items|
      ensures r.Ok? ==> r.value == items[i].fieldName
      ensures i >= |items| ==> r == Err(NoSuchElement("arg: i = " + NatToString(i)))
      ensures i < 0 ==> r == Err(IndexOutOfBounds(i))
    {
      if i >= |items| then Err(NoSuchElement("arg: i = " + NatToString(i)))
      else if i < 0 then Err(IndexOutOfBounds(i))
      else Ok(items[i].fieldName)
    }

    /** The type of field `i`; an error when `i` is not a field position. */
    function GetFieldType(i: int): (r: Result<Type>)
      reads this
      ensures r.Ok? <==> 0 <= i < |items|
      ensures r.Ok? ==> r.value == items[i].fieldType
      ensures i >= |items| ==> r == Err(NoSuchElement("arg : i = " + NatToString(i)))
      ensures i < 0 ==> r == Err(IndexOutOfBounds(i))
    {
      if i >= |items| then Err(NoSuchElement("arg : i = " + NatToString(i)))
      else if i < 0 then Err(IndexOutOfBounds(i))
      else Ok(items[i].fieldType)
    }

    /** The position of the first field named `name`; an error naming it when there is none. */
    method IndexForFieldName(name: string) returns (r: Result<int>)
      ensures r == match FirstIndexOf(items, name)
                   case Some(k) => Ok(k)
                   case None => Err(NoSuchElement(name))
    {
      var res := -1;
      for i := 0 to |items|
        invariant res == -1
        invariant forall k :: 0 <= k < i ==> items[k].fieldName != name
      {
        if items[i].fieldName == name {
          res := i;
          break;
        }
      }
      if res == -1 {
        return Err(NoSuchElement(name));
      }
      return Ok(res);
    }

    /** The byte size of every tuple with this schema. */
    method GetSize() returns (size: nat)
      ensures size == SumLen(items)
    {
      size := 0;
      for i := 0 to |items|
        invariant size == SumLen(items[..i])
      {
        assert items[..i + 1][..i] == items[..i];
        size := size + Len(items[i].fieldType);
      }
      assert items[..|items|] == items;
    }

    /** A new descriptor with the fields of `td1` followed by those of `td2`. */
    static method Merge(td1: TupleDesc, td2: TupleDesc) returns (res: TupleDesc)
      ensures fresh(res)
      ensures res.items == td1.items + td2.items
    {
      res := new TupleDesc.Copy(td1);
      res.items := res.items + td2.items;
    }

    /**
     * Structural equality: `o` is this very object, or a descriptor with the
     * same byte size whose fields agree with these position by position.
     */
    method Equals(o: object?) returns (eq: bool)
      ensures eq <==> o == this || (o is TupleDesc && SameSchema(items, (o as TupleDesc).items))
    {
      if o == this {
        return true;
      }
      if o is TupleDesc {
        var other := o as TupleDesc;
        var otherSize := other.GetSize();
        var size := GetSize();
        if otherSize != size {
          return false;
        }
        if other.NumFields() != NumFields() {
          return false;
        }
        for i := 0 to |items|
          invariant forall k :: 0 <= k < i ==>
            other.items[k].fieldType == items[k].fieldType && other.items[k].fieldName == items[k].fieldName
        {
          if other.GetFieldType(i) != GetFieldType(i) || other.GetFieldName(i) != GetFieldName(i) {
            return false;
          }
        }
        return true;
      }
      return false;
    }

    /** The entries of all fields, joined by ", ". */
    method ToString() returns (s: string)
      ensures s == Render(items)
    {
      s := "";
      for i := 0 to |items|
        invariant s == if i == 0 then "" else if i < |items| then Render(items[..i]) + ", " else Render(items)
      {
        assert items[..i + 1][..i] == items[..i];
        s := s + Entry(items[i]);
        if i != |items| - 1 {
          s := s + ", ";
        } else {
          assert items[..i + 1] == items;
        }
      }
    }
  }

  // ---------------------------------------------------------------------------
  // Properties
  // ---------------------------------------------------------------------------

  /** The size of a concatenation is the sum of the sizes. */
  lemma {:induction false} SumLenAppend(a: seq<TDItem>, b: seq<TDItem>)
    ensures SumLen(a + b) == SumLen(a) + SumLen(b)
    decreases |b|
  {
    if b == [] {
      assert a + b == a;
    } else {
      var b' := b[..|b| - 1];
      assert (a + b)[..|a + b| - 1] == a + b';
      SumLenAppend(a, b');
    }
  }

  /** Merging adds the field counts and the byte sizes of the two descriptors. */
  lemma MergeSizes(td1: TupleDesc, td2: TupleDesc, res: TupleDesc)
    requires res.items == td1.items + td2.items
    ensures res.NumFields() == td1.NumFields() + td2.NumFields()
    ensures SumLen(res.items) == SumLen(td1.items) + SumLen(td2.items)
  {
    SumLenAppend(td1.items, td2.items);
  }

  /** In a merge, a field of the merged descriptor is the corresponding field of the input it came from. */
  lemma MergeAccessors(td1: TupleDesc, td2: TupleDesc, res: TupleDesc, i: int)
    requires res.items == td1.items + td2.items
    requires 0 <= i < res.NumFields()
    ensures res.GetFieldName(i) == if i < td1.NumFields() then td1.GetFieldName(i) else td2.GetFieldName(i - td1.NumFields())
    ensures res.GetFieldType(i) == if i < td1.NumFields() then td1.GetFieldType(i) else td2.GetFieldType(i - td1.NumFields())
  {
  }

  /** Looking a name up in a merge finds it in the first input, or else in the second one shifted. */
  lemma FirstIndexOfAppend(a: seq<TDItem>, b: seq<TDItem>, name: string)
    ensures FirstIndexOf(a + b, name) ==
      match FirstIndexOf(a, name)
      case Some(k) => Some(k)
      case None =>
        match FirstIndexOf(b, name)
        case Some(k) => Some(|a| + k)
        case None => None
  {
    var ab := a + b;
    match FirstIndexOf(a, name)
    case Some(k) =>
      assert ab[k].fieldName == name;
      FirstUnique(ab, name, k);
    case None =>
      match FirstIndexOf(b, name)
      case Some(k) =>
        assert ab[|a| + k].fieldName == name;
        forall j | 0 <= j < |a| + k ensures ab[j].fieldName != name {
          if j >= |a| { assert ab[j] == b[j - |a|]; }
        }
        FirstUnique(ab, name, |a| + k);
      case None =>
        forall j | 0 <= j < |ab| ensures ab[j].fieldName != name {
          if j >= |a| { assert ab[j] == b[j - |a|]; }
        }
  }

  /** A position whose name matches and before which no name matches is what `FirstIndexOf` returns. */
  lemma FirstUnique(items: seq<TDItem>, name: string, k: nat)
    requires k < |items| && items[k].fieldName == name
    requires forall j :: 0 <= j < k ==> items[j].fieldName != name
    ensures FirstIndexOf(items, name) == Some(k)
  {
  }

  /** Name lookup and positional access agree: the found position carries the name, and it is the earliest one. */
  lemma LookupAgreesWithPosition(td: TupleDesc, i: int)
    requires 0 <= i < td.NumFields()
    ensures td.GetFieldName(i).Ok?
    ensures FirstIndexOf(td.items, td.GetFieldName(i).value).Some?
    ensures FirstIndexOf(td.items, td.GetFieldName(i).value).value <= i
    ensures td.GetFieldName(FirstIndexOf(td.items, td.GetFieldName(i).value).value) == td.GetFieldName(i)
  {
  }

  /**
   * A descriptor built from types alone has only anonymous fields, so looking
   * up the empty name finds its first field, and fails only when it has none.
   */
  method EmptyNameMatchesAnonymous(typeAr: array<Type>) returns (r: Result<int>)
    ensures typeAr.Length > 0 ==> r == Ok(0)
    ensures typeAr.Length == 0 ==> r == Err(NoSuchElement(""))
  {
    var td := new TupleDesc.FromTypes(typeAr);
    r := td.IndexForFieldName("");
  }

  /** Pairwise equality of types and names is equality of the item lists. */
  lemma PairwiseEqualIsEquality(a: seq<TDItem>, b: seq<TDItem>)
    ensures PairwiseEqual(a, b) <==> a == b
  {
  }

  /**
   * The size test of equality never rejects lists whose fields agree, so two
   * descriptors are equal exactly when their item lists are equal.
   */
  lemma SameSchemaIsEquality(a: seq<TDItem>, b: seq<TDItem>)
    ensures SameSchema(a, b) <==> a == b
  {
  }

  /** Equality of descriptors is reflexive, symmetric and transitive. */
  lemma SameSchemaIsEquivalence(a: seq<TDItem>, b: seq<TDItem>, c: seq<TDItem>)
    ensures SameSchema(a, a)
    ensures SameSchema(a, b) ==> SameSchema(b, a)
    ensures SameSchema(a, b) && SameSchema(b, c) ==> SameSchema(a, c)
  {
  }

  /** Descriptors of different byte sizes are never equal. */
  lemma DifferentSizesNotSame(a: seq<TDItem>, b: seq<TDItem>)
    requires SumLen(a) != SumLen(b)
    ensures !SameSchema(a, b)
  {
  }

  /** Rendering a concatenation joins the two renderings with one separator. */
  lemma {:induction false} RenderAppend(a: seq<TDItem>, b: seq<TDItem>)
    requires a != [] && b != []
    ensures Render(a + b) == Render(a) + ", " + Render(b)
    decreases |b|
  {
    var ab := a + b;
    var last := ab[|ab| - 1];
    var sep: string := ", ";
    if |b| == 1 {
      assert ab[..|ab| - 1] == a;
      assert last == b[0];
    } else {
      var b' := b[..|b| - 1];
      assert ab[..|ab| - 1] == a + b';
      assert last == b[|b| - 1];
      calc {
        Render(ab);
        Render(a + b') + sep + Entry(last);
        { RenderAppend(a, b'); }
        (Render(a) + sep + Render(b')) + sep + Entry(last);
        Render(a) + sep + (Render(b') + sep + Entry(last));
        Render(a) + sep + Render(b);
      }
    }
  }

  /** Rendering lists one entry per field, in order, separated by ", ". */
  lemma {:induction false} RenderCons(item: TDItem, rest: seq<TDItem>)
    ensures Render([item] + rest) == if rest == [] then Entry(item) else Entry(item) + ", " + Render(rest)
  {
    if rest != [] {
      RenderAppend([item], rest);
    }
  }
}
