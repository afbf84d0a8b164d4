/** A finite stand-in for C++ types. A type is a tag that carries the trait
    facts the two containers consult (constructibility, assignability,
    streamability, size, alignment); cv-qualifiers and references are kept
    so that `std::remove_cv`, `std::remove_reference` and `std::decay` can be
    stated. Values are symbolic: an object's representation is an integer, a
    conversion of another value, or what a move left behind. */
module TypeTags {

  /** What the type's own special members and operators allow. */
  datatype Traits = Traits(
    copyConstructible: bool,
    moveConstructible: bool,   // false for a deleted move constructor
    copyAssignable: bool,
    moveAssignable: bool,
    streamable: bool,          // `os << value` is well-formed
    scalar: bool,              // a fundamental or enumeration type
    size: nat,
    align: nat)

  datatype Base =
    | Void
    | Named(name: nat, traits: Traits)
    | Array(elem: Base, extent: nat)

  datatype RefKind = NoRef | LValueRef | RValueRef

  datatype Type = Type(base: Base, isConst: bool, isVolatile: bool, ref: RefKind)

  /** The unqualified, non-reference type with this base. */
  function Plain(b: Base): Type {
    Type(b, false, false, NoRef)
  }

  const VoidType: Type := Plain(Void)

  predicate IsReference(t: Type) { t.ref != NoRef }

  predicate IsVoid(t: Type) { t.ref == NoRef && t.base.Void? }

  predicate IsArray(t: Type) { t.ref == NoRef && t.base.Array? }

  /** `std::is_enum<T> || std::is_fundamental<T>` (void is fundamental). */
  predicate IsScalar(t: Type) {
    t.ref == NoRef && (t.base.Void? || (t.base.Named? && t.base.traits.scalar))
  }

  /** A type that an object can have: neither a reference nor void. */
  predicate IsObjectType(t: Type) { !IsReference(t) && !t.base.Void? }

  /** `std::remove_cv<std::remove_reference<T>::type>::type`. */
  function RemoveCvr(t: Type): (r: Type)
    ensures !IsReference(r) && !r.isConst && !r.isVolatile && r.base == t.base
    ensures t == r <==> (!IsReference(t) && !t.isConst && !t.isVolatile)
  {
    Plain(t.base)
  }

  /** `std::remove_all_extents`: the innermost element of a (nested) array. */
  function RemoveAllExtents(b: Base): (r: Base)
    ensures !r.Array?
    ensures !b.Array? ==> r == b
    ensures b.Array? ==> r == RemoveAllExtents(b.elem)
    ensures BaseAlign(r) == BaseAlign(b)
  {
    if b.Array? then RemoveAllExtents(b.elem) else b
  }

  /** `std::is_copy_constructible<T>`. A reference type is constructible
      from an lvalue of itself only when it is an lvalue reference. */
  predicate CopyConstructible(t: Type) {
    match t.ref
    case LValueRef => true
    case RValueRef => false
    case NoRef => t.base.Named? && t.base.traits.copyConstructible
  }

  /** `std::is_move_constructible<T>`. An rvalue of `const T` binds only to
      the copy constructor. Arrays and void are not constructible. */
  predicate MoveConstructible(t: Type) {
    if IsReference(t) then
      true
    else
      t.base.Named? &&
      (if t.isConst then t.base.traits.copyConstructible else t.base.traits.moveConstructible)
  }

  /** `std::is_move_assignable<T>`: assignment to the referred-to object. */
  predicate MoveAssignable(t: Type) {
    t.base.Named? && !t.isConst && t.base.traits.moveAssignable
  }

  /** `std::is_copy_assignable<T>`. */
  predicate CopyAssignable(t: Type) {
    t.base.Named? && !t.isConst && t.base.traits.copyAssignable
  }

  /** `is_streamable<std::ostream, T>`. */
  predicate Streamable(t: Type) {
    t.base.Named? && t.base.traits.streamable
  }

  function BaseSize(b: Base): nat {
    match b
    case Void => 0
    case Named(_, traits) => traits.size
    case Array(elem, n) => n * BaseSize(elem)
  }

  function BaseAlign(b: Base): nat {
    match b
    case Void => 0
    case Named(_, traits) => traits.align
    case Array(elem, _) => BaseAlign(elem)
  }

  /** `sizeof(T)`; for a reference, the size of the referred-to type. */
  function SizeOf(t: Type): nat { BaseSize(t.base) }

  /** `alignof(T)`. */
  function AlignOf(t: Type): nat { BaseAlign(t.base) }

  /** The identity token `any::type_id<T>()` hands out: the address of a
      static object owned by T's instantiation, or the null address. */
  datatype TypeId = Null | Address(of: Type)

  /** `any::type_id<T>()`. */
  function TypeIdOf(t: Type): (r: TypeId)
    ensures r != Null
  {
    Address(t)
  }

  /** Distinct types never share a token. */
  lemma TypeIdInjective(a: Type, b: Type)
    ensures TypeIdOf(a) == TypeIdOf(b) <==> a == b
  {
  }

  /** The abstract content of an object: its type and representation. */
  datatype Value = Value(ty: Type, repr: Repr)

  /** The object an argument `v` initialises at its stripped type
      `remove_cvr<V>` (which is also `std::decay<V>` for a non-array): the
      same content at the unqualified type. */
  function Stored(v: Value): Value {
    Value(RemoveCvr(v.ty), v.repr)
  }

  datatype Repr =
    | Datum(n: int)
    | Converted(from: Value)     // an object constructed from another value
    | MovedFrom(was: Value)      // what moving `was` away leaves in its source
}
