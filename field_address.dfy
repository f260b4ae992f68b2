/**
 * Addresses of fields inside edited objects (src/application/setups/debugger/detail/field_address.h).
 * The type-id list is a template parameter in the source; here it is the type parameter `TypeId`.
 */
module FieldAddress {
  import opened Ints

  datatype FieldAddress<TypeId> = FieldAddress(offset: uint32, elementIndex: uint32, typeId: TypeId)

  /** A default-constructed address: offset and element index are `static_cast<unsigned>(-1)`. */
  function DefaultFieldAddress<TypeId>(typeId: TypeId): (r: FieldAddress<TypeId>)
    ensures r.offset == UINT32_MAX && r.elementIndex == UINT32_MAX
  {
    FieldAddress(UINT32_MAX, UINT32_MAX, typeId)
  }

  /**
   * `operator==` as written: equal offsets and type ids, and both element indices converted to
   * `bool`. The element indices are only tested for being non-zero, never compared with each other.
   */
  predicate EqualAsWritten<TypeId(==)>(a: FieldAddress<TypeId>, b: FieldAddress<TypeId>) {
    a.offset == b.offset && a.elementIndex != 0 && b.elementIndex != 0 && a.typeId == b.typeId
  }

  /** `operator==` as evidently intended: all three fields compared for equality. */
  predicate Equal<TypeId(==)>(a: FieldAddress<TypeId>, b: FieldAddress<TypeId>) {
    a.offset == b.offset && a.elementIndex == b.elementIndex && a.typeId == b.typeId
  }

  /**
   * `operator!=` as written negates the as-written `==`, so it inherits the same slip: an
   * address with element index 0 is unequal to itself.
   */
  predicate NotEqualAsWritten<TypeId(==)>(a: FieldAddress<TypeId>, b: FieldAddress<TypeId>) {
    !EqualAsWritten(a, b)
  }

  /** `operator!=` as evidently intended: the negation of the corrected `Equal`. */
  predicate NotEqual<TypeId(==)>(a: FieldAddress<TypeId>, b: FieldAddress<TypeId>) {
    !Equal(a, b)
  }

  /** As written, `==` demands equal offsets and type ids, and is false whenever either index is 0. */
  lemma EqualAsWrittenRequires<TypeId>(a: FieldAddress<TypeId>, b: FieldAddress<TypeId>)
    ensures EqualAsWritten(a, b) ==> a.offset == b.offset && a.typeId == b.typeId
    ensures a.elementIndex == 0 || b.elementIndex == 0 ==> !EqualAsWritten(a, b)
  {
  }

  /** The slip exhibited: an address with element index 0 is not equal to itself, and `!=` says it differs. */
  lemma EqualAsWrittenNotReflexive()
    ensures var a := FieldAddress(0, 0, 7); !EqualAsWritten(a, a) && NotEqualAsWritten(a, a)
  {
  }

  /** The slip exhibited: addresses of different elements of the same field compare equal. */
  lemma EqualAsWrittenConflatesElements()
    ensures var a, b := FieldAddress(8, 1, 7), FieldAddress(8, 2, 7); a != b && EqualAsWritten(a, b)
  {
  }

  /** The intended comparison is value equality, hence an equivalence; `!=` is its negation. */
  lemma EqualIsValueEquality<TypeId>(a: FieldAddress<TypeId>, b: FieldAddress<TypeId>)
    ensures Equal(a, b) <==> a == b
    ensures Equal(a, a)
    ensures NotEqual(a, b) <==> !Equal(a, b)
  {
  }

  /**
   * `make_field_address(offset)`: stores the offset truncated to 32 bits and the field's type id,
   * and leaves the element index at its default.
   */
  function MakeFieldAddress<TypeId>(offset: nat, typeId: TypeId): (r: FieldAddress<TypeId>)
    ensures r == DefaultFieldAddress(typeId).(offset := ToUint32(offset))
    ensures offset < UINT32_LIMIT ==> r.offset == offset
  {
    var result := DefaultFieldAddress(typeId);
    result.(offset := ToUint32(offset))
  }
}
