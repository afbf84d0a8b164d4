/** `generic::any`: a type-erased holder owning at most one heap control
    block (`holder<ValueType>`) that stores the value, its type id and the
    function used to clone it. Blocks are objects, so the pointer comparison
    of the copy assignment is object identity; a ghost flag on each block
    records that it has been deleted, and the class invariant keeps a
    deleted block out of reach. */
module TypeErased {
  import opened Exceptions
  import opened TypeTags

  /** Which static function a block's `cloner_` points to. */
  datatype Cloner = Cloning | Throwing

  /** The element type whose assignability the array constructors of
      `holder` consult: `remove_const<remove_all_extents<U>>`. */
  function ElementOf(t: Type): Type {
    Plain(RemoveAllExtents(t.base))
  }

  /** The cloner installed by the `holder<U>` constructor that overload
      resolution picks for a `U` argument of the given value category, or
      None when no constructor is viable. */
  function SelectCloner(u: Type, rvalue: bool): (c: Option<Cloner>)
    ensures !IsArray(u) ==> c == Some(if CopyConstructible(u) then Cloning else Throwing)
    ensures IsArray(u) && rvalue ==> (c.Some? <==> MoveAssignable(ElementOf(u))) && c != Some(Cloning)
    ensures IsArray(u) && !rvalue ==> (c.Some? <==> CopyAssignable(ElementOf(u))) && c != Some(Throwing)
  {
    if !IsArray(u) then
      Some(if CopyConstructible(u) then Cloning else Throwing)
    else if rvalue && MoveAssignable(ElementOf(u)) then
      Some(Throwing)
    else if !rvalue && CopyAssignable(ElementOf(u)) then
      Some(Cloning)
    else
      None
  }

  /** `holder<remove_cvr<V>>` can be built from this argument: a
      constructor is viable and, for a non-array, `held` can be
      initialised from it (an lvalue or a const rvalue needs the copy
      constructor, a non-const rvalue the move constructor). */
  predicate CanHold(v: Value, rvalue: bool) {
    var u := RemoveCvr(v.ty);
    && IsObjectType(v.ty)
    && SelectCloner(u, rvalue).Some?
    && (!IsArray(u) ==>
          if rvalue && !v.ty.isConst then MoveConstructible(u) else CopyConstructible(u))
  }

  /** `any::holder<ValueType>`, the heap control block. */
  class Holder {
    const typeId: TypeId
    const cloner: Cloner
    const held: Value
    ghost var released: bool

    /** The block's type id is that of the held value's type, which carries
        no qualifiers, and a cloning block can run its copy constructor. */
    ghost predicate WellFormed() {
      && held.ty == RemoveCvr(held.ty)
      && IsObjectType(held.ty)
      && typeId == TypeIdOf(held.ty)
      && (cloner == Cloning ==> CanHold(held, false) && SelectCloner(held.ty, false) == Some(Cloning))
    }

    /** `holder(T&& value)`, whichever of its four overloads applies. */
    constructor (v: Value, rvalue: bool)
      requires CanHold(v, rvalue)
      ensures WellFormed() && !released
      ensures held == Stored(v) && typeId == TypeIdOf(RemoveCvr(v.ty))
      ensures cloner == SelectCloner(RemoveCvr(v.ty), rvalue).value
    {
      typeId := TypeIdOf(RemoveCvr(v.ty));
      cloner := SelectCloner(RemoveCvr(v.ty), rvalue).value;
      held := Stored(v);
      released := false;
    }

    /** `cloner_(this)`: `cloner` allocates a block copy-constructed from
        `held`; `throwing_cloner` throws `logic_error`. */
    method Clone() returns (r: Result<Holder>)
      requires WellFormed()
      ensures r.Success? <==> cloner == Cloning
      ensures r.Failure? ==> r.error == LogicError
      ensures r.Success? ==>
        && fresh(r.value) && r.value.WellFormed() && !r.value.released
        && r.value.held == held && r.value.typeId == typeId && r.value.cloner == Cloning
    {
      if cloner == Cloning {
        var h := new Holder(held, false);
        r := Success(h);
      } else {
        r := Failure(LogicError);
      }
    }
  }

  class Any {
    var content: Holder?

    /** An `any` owns either nothing or one live, well-formed block. */
    ghost predicate Valid()
      reads this, content
    {
      content != null ==> content.WellFormed() && !content.released
    }

    /** `any() = default`: empty. */
    constructor ()
      ensures Valid() && content == null
    {
      content := null;
    }

    /** `any(ValueType&& value)`: a fresh block holding the value, with the
        cloner chosen from the stored type and the value category. */
    constructor FromValue(v: Value, rvalue: bool)
      requires CanHold(v, rvalue)
      ensures Valid() && content != null && fresh(content)
      ensures content.held == Stored(v) && content.typeId == TypeIdOf(RemoveCvr(v.ty))
      ensures content.cloner == SelectCloner(RemoveCvr(v.ty), rvalue).value
    {
      content := new Holder(v, rvalue);
    }

    /** `any(any&& other)`: starts empty, then move-assigns, which swaps;
        so the source is left empty. */
    constructor MoveFrom(other: Any)
      requires other.Valid()
      modifies other
      ensures Valid() && other.Valid()
      ensures content == old(other.content) && other.content == null
    {
      content := null;
      new;
      MoveAssign(other);
    }

    /** `any(any const& other)`: the block's cloner, or empty for an empty
        source. The copy constructor cannot return an error in Dafny, so it
        is a method that yields the copy or the `logic_error` thrown by a
        throwing cloner. */
    static method CopyOf(other: Any) returns (r: Result<Any>)
      requires other.Valid()
      ensures r.Failure? <==> other.content != null && other.content.cloner == Throwing
      ensures r.Failure? ==> r.error == LogicError
      ensures r.Success? ==>
        && fresh(r.value) && r.value.Valid()
        && (other.content == null ==> r.value.content == null)
        && (other.content != null ==>
              && fresh(r.value.content)
              && r.value.content.held == other.content.held
              && r.value.content.typeId == other.content.typeId
              && r.value.content.cloner == other.content.cloner)
    {
      var copy := new Any();
      if other.content != null {
        var c := other.content.Clone();
        if c.Failure? {
          return Failure(c.error);
        }
        copy.content := c.value;
      }
      r := Success(copy);
    }

    /** `~any()`: `delete content` (nothing for an empty `any`). */
    method Destroy()
      requires Valid()
      modifies content
      ensures content != null ==> content.released
    {
      if content != null {
        content.released := true;
      }
    }

    /** `swap(other)`, for lvalue and rvalue `other` alike. */
    method Swap(other: Any)
      requires Valid() && other.Valid()
      modifies this, other
      ensures Valid() && other.Valid()
      ensures content == old(other.content) && other.content == old(content)
    {
      content, other.content := other.content, content;
    }

    /** `operator=(any&& rhs)`: swaps the two contents and so does NOT
        empty the source; it is left with this `any`'s old content. */
    method MoveAssign(rhs: Any)
      requires Valid() && rhs.Valid()
      modifies this, rhs
      ensures Valid() && rhs.Valid()
      ensures content == old(rhs.content) && rhs.content == old(content)
    {
      Swap(rhs);
    }

    /** `clear()`: swaps with an empty temporary, whose destruction deletes
        the old block. */
    method Clear()
      requires Valid()
      modifies this, content
      ensures Valid() && content == null
      ensures old(content) != null ==> old(content).released
    {
      var empty := new Any();
      Swap(empty);
      empty.Destroy();
    }

    /** `operator=(any const& rhs)`: nothing when both share `content`;
        otherwise copy `rhs` first (a throwing cloner leaves this `any` as
        it was), move-assign the copy in, and let the temporary delete the
        old block. */
    method CopyAssign(rhs: Any) returns (o: Outcome)
      requires Valid() && rhs.Valid()
      modifies this, content
      ensures Valid() && rhs.Valid() && rhs.content == old(rhs.content)
      ensures old(content) == old(rhs.content) ==> o == Pass && content == old(content)
      ensures o.Fail? <==>
        old(content) != old(rhs.content) && rhs.content != null && rhs.content.cloner == Throwing
      ensures o.Fail? ==> o.error == LogicError && content == old(content)
      ensures o.Pass? && old(content) != old(rhs.content) ==>
        && (rhs.content == null ==> content == null)
        && (rhs.content != null ==>
              && fresh(content) && content.held == rhs.content.held
              && content.typeId == rhs.content.typeId && content.cloner == rhs.content.cloner)
        && (old(content) != null ==> old(content).released)
    {
      if content == rhs.content {
        return Pass;
      }
      var copy := CopyOf(rhs);
      if copy.Failure? {
        return Fail(copy.error);
      }
      var tmp := copy.value;
      MoveAssign(tmp);
      tmp.Destroy();
      o := Pass;
    }

    /** `operator=(ValueType&& rhs)`: `*this = any(rhs)`, so the new value
        and its type id replace the old ones and the old block is deleted. */
    method AssignValue(v: Value, rvalue: bool)
      requires Valid() && CanHold(v, rvalue)
      modifies this, content
      ensures Valid() && content != null && fresh(content)
      ensures content.held == Stored(v) && content.typeId == TypeIdOf(RemoveCvr(v.ty))
      ensures content.cloner == SelectCloner(RemoveCvr(v.ty), rvalue).value
      ensures old(content) != null ==> old(content).released
    {
      var tmp := new Any.FromValue(v, rvalue);
      MoveAssign(tmp);
      tmp.Destroy();
    }

    /** `explicit operator bool()`: true exactly when a block is owned,
        which `get` at the held type then reads. */
    function IsNonEmpty(): (r: bool)
      reads this, content
      requires Valid()
      ensures r <==> content != null
      ensures r ==> Get(this, content.held.ty) == Success(content.held)
    {
      content != null
    }

    /** `empty()`. */
    function Empty(): (r: bool)
      reads this, content
      requires Valid()
      ensures r <==> StoredTypeId() == Null
    {
      !IsNonEmpty()
    }

    /** `type_id()` (and its alias `type()`): the null id when empty, else
        the id of the stored, cv- and reference-stripped type. */
    function StoredTypeId(): (r: TypeId)
      reads this, content
      requires Valid()
      ensures r == Null <==> content == null
      ensures content != null ==> r == TypeIdOf(content.held.ty)
    {
      if IsNonEmpty() then content.typeId else Null
    }
  }

  /** `any_cast<ValueType>(any*)` (and its const overload): the held value
      when the operand is non-null and its type id is that of
      `remove_cvr<ValueType>`, else null. It never throws. */
  function AnyCastPtr(operand: Any?, t: Type): (r: Option<Value>)
    reads operand
    ensures r.Some? <==>
      operand != null && operand.content != null && operand.content.typeId == TypeIdOf(RemoveCvr(t))
    ensures r.Some? ==> r.value == operand.content.held
  {
    if operand != null && operand.content != null && operand.content.typeId == TypeIdOf(RemoveCvr(t)) then
      Some(operand.content.held)
    else
      None
  }

  /** Checked `any_cast<ValueType>(any&)` (and its const overload): the held
      value through the pointer form, or `bad_cast`. */
  function AnyCastRef(operand: Any, t: Type): (r: Result<Value>)
    reads operand
    ensures r.Success? <==> operand.content != null && operand.content.typeId == TypeIdOf(RemoveCvr(t))
    ensures r.Success? ==> r.value == operand.content.held
    ensures r.Failure? ==> r.error == BadCast
  {
    var p := AnyCastPtr(operand, RemoveCvr(t));
    if p.Some? then Success(p.value) else Failure(BadCast)
  }

  /** Checked `get<U>(any&)` (and its const overload): the held value when
      the `any` is non-empty and its type id is that of `remove_cvr<U>`,
      else `bad_cast`. */
  function Get(a: Any, u: Type): (r: Result<Value>)
    reads a
    ensures r.Success? <==> a.content != null && a.content.typeId == TypeIdOf(RemoveCvr(u))
    ensures r.Success? ==> r.value == a.content.held
    ensures r.Failure? ==> r.error == BadCast
  {
    if a.content != null && a.content.typeId == TypeIdOf(RemoveCvr(u)) then
      Success(a.content.held)
    else
      Failure(BadCast)
  }

  /** `cget<U>(any const&)` for a `U` that is neither fundamental nor an
      enumeration: `get<U const&>`, which strips the same qualifiers. */
  function CGet(a: Any, u: Type): (r: Result<Value>)
    reads a
    requires !IsScalar(u)
    ensures r.Success? <==> a.content != null && a.content.typeId == TypeIdOf(RemoveCvr(u))
    ensures r.Success? ==> r.value == a.content.held
    ensures r.Failure? ==> r.error == BadCast
  {
    Get(a, Type(u.base, true, u.isVolatile, LValueRef))
  }

  /** `unsafe_any_cast<ValueType>`, and what `get` and the reference
      `any_cast` reduce to under `NDEBUG`: no check, so the caller must
      know the held type. It agrees with the checked accessors. */
  function UnsafeAnyCast(operand: Any, t: Type): (r: Value)
    reads operand, operand.content
    requires operand.Valid() && operand.content != null
    requires operand.content.held.ty == RemoveCvr(t)
    ensures r.ty == RemoveCvr(t)
    ensures Get(operand, t) == Success(r) && AnyCastRef(operand, t) == Success(r)
  {
    operand.content.held
  }

  /** For a valid `any`, a type id match is a type match: access at `t`
      succeeds exactly when the stored type is `remove_cvr<t>`. */
  lemma AccessMeansTypeMatch(a: Any, t: Type)
    requires a.Valid()
    ensures AnyCastPtr(a, t).Some? <==> a.content != null && a.content.held.ty == RemoveCvr(t)
    ensures Get(a, t) == AnyCastRef(a, t)
  {
    if a.content != null {
      TypeIdInjective(a.content.held.ty, RemoveCvr(t));
    }
  }

  /** Round trip: an `any` constructed from `v` yields `v`, at its stripped
      type, through both `get` and the reference `any_cast` at `v`'s type;
      access at any other stripped type throws `bad_cast`. */
  method RoundTrip(v: Value, rvalue: bool, other: Type) returns (g: Result<Value>, c: Result<Value>, wrong: Result<Value>)
    requires CanHold(v, rvalue) && RemoveCvr(other) != RemoveCvr(v.ty)
    ensures g == Success(Stored(v)) && c == g
    ensures RemoveCvr(v.ty) == v.ty ==> g == Success(v)
    ensures wrong == Failure(BadCast)
  {
    var a := new Any.FromValue(v, rvalue);
    g := Get(a, v.ty);
    c := AnyCastRef(a, v.ty);
    TypeIdInjective(RemoveCvr(other), RemoveCvr(v.ty));
    wrong := Get(a, other);
  }

  /** A default-constructed `any` is empty, has the null type id and
      rejects access at every type. */
  method DefaultRejectsAccess(u: Type) returns (e: bool, id: TypeId, g: Result<Value>, p: Option<Value>)
    ensures e && id == Null && g == Failure(BadCast) && p == None
  {
    var a := new Any();
    e := a.Empty();
    id := a.StoredTypeId();
    g := Get(a, u);
    p := AnyCastPtr(a, u);
  }

  /** An `any` holding a move-only value is built and moved without error;
      the moved-to `any` holds the value, the moved-from one is empty, and
      only copying throws `logic_error`. */
  method MoveOnlyCopyFails(v: Value) returns (moved: Result<Value>, sourceEmpty: bool, copyError: Option<Exception>)
    requires CanHold(v, true) && !IsArray(v.ty) && !CopyConstructible(RemoveCvr(v.ty))
    ensures moved == Success(Stored(v)) && sourceEmpty
    ensures copyError == Some(LogicError)
  {
    var a := new Any.FromValue(v, true);
    var b := new Any.MoveFrom(a);
    moved := Get(b, v.ty);
    sourceEmpty := a.Empty();
    var c := Any.CopyOf(b);
    copyError := if c.Failure? then Some(c.error) else None;
  }
}
