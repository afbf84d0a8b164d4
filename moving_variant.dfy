/** The run-time layer of `generic::moving_variant<T...>`: one inline buffer
    shared by a closed list of member types, the index of the active member
    (-1 when empty) and three function-pointer slots bound to it. The buffer
    is modelled by the value of its live object, if any; a ghost history of
    the special member calls made on it records constructions, destructions
    and in-place move assignments. */
module Variant {
  import opened Exceptions
  import opened TypeTags
  import opened Detail
  import opened Lifetime

  /** A function-pointer slot: never written (the default constructor leaves
      the three slots uninitialised), null, or the stub instantiated for a
      member type. */
  datatype Slot = Indeterminate | NullFn | StubFor(ty: Type)

  /** `get_mover<U>()`: `mover_stub<U>` for a move-constructible `U`, else
      null. */
  function GetMover(u: Type): (s: Slot)
    ensures s != Indeterminate
    ensures s == NullFn <==> !MoveConstructible(u)
    ensures s != NullFn ==> s == StubFor(u)
  {
    if MoveConstructible(u) then StubFor(u) else NullFn
  }

  /** `get_streamer<S, U>()`: `streamer_stub<S, U>` for a streamable `U`,
      else null. */
  function GetStreamer(u: Type): (s: Slot)
    ensures s != Indeterminate
    ensures s == NullFn <==> !Streamable(u)
    ensures s != NullFn ==> s == StubFor(u)
  {
    if Streamable(u) then StubFor(u) else NullFn
  }

  /** What `cget<U>()` returns: a copy for fundamental and enumeration
      types, a const reference otherwise. */
  datatype Access = ByValue(v: Value) | ByConstRef(v: Value)

  /** The arguments the rvalue `operator=(U&&)` and the converting
      constructor accept: an rvalue, const or not, whose decayed type is a
      member. The new occupant is initialised from it, by the move
      constructor or, for a const rvalue, the copy constructor; and when the
      member is move-assignable, the in-place branch assigns from it, which
      for a const rvalue is the copy assignment. */
  predicate Assignable(members: seq<Type>, v: Value) {
    var u := RemoveCvr(v.ty);
    && !IsReference(v.ty) && !v.ty.isVolatile
    && u in members
    && MoveConstructible(v.ty)
    && (v.ty.isConst && MoveAssignable(u) ==> CopyAssignable(u))
  }

  class MovingVariant {
    const members: seq<Type>
    var deleter: Slot
    var mover: Slot
    var streamer: Slot
    var storeType: int
    var store: Option<Value>
    ghost var log: seq<Event>

    /** The class invariant: the member list passed the static assertions;
        the index is -1 exactly when the buffer holds no live object; the
        live object has the active member type; the slots are the ones
        installed for that type; the call history is sound and ends in the
        buffer's current state. */
    ghost predicate Valid()
      reads this
    {
      && Admissible(members)
      && -1 <= storeType < |members|
      && (storeType == -1 <==> store == None)
      && Replay(log) == (if storeType == -1 then Vacant else Occupied(members[storeType]))
      && (storeType != -1 ==>
            var u := members[storeType];
            && store.value.ty == u
            && deleter == StubFor(u)
            && mover == GetMover(u)
            && streamer == GetStreamer(u))
    }

    /** The calls that destroy the occupant at index `i`, if any. */
    ghost function Vacate(i: int): seq<Event>
      requires -1 <= i < |members|
    {
      if i == -1 then [] else [Destroyed(members[i])]
    }

    /** The calls that moving the occupant at index `src` into a buffer
        whose active index is `dst` makes: one in-place move assignment
        when the indices match and the type is move-assignable, otherwise
        destroy the old occupant (if any) and construct a new one. */
    ghost function Replacement(dst: int, src: nat): seq<Event>
      requires -1 <= dst < |members| && src < |members|
    {
      var u := members[src];
      if dst == src && MoveAssignable(u) then [MoveAssigned(u)] else Vacate(dst) + [Constructed(u)]
    }

    /** `moving_variant() = default`: empty, with the slots unwritten. */
    constructor (members: seq<Type>)
      requires Admissible(members)
      ensures Valid() && this.members == members
      ensures storeType == -1 && store == None && log == []
      ensures deleter == Indeterminate && mover == Indeterminate && streamer == Indeterminate
    {
      this.members := members;
      deleter, mover, streamer := Indeterminate, Indeterminate, Indeterminate;
      storeType := -1;
      store := None;
      log := [];
    }

    /** `explicit moving_variant(U&& f)`: default-initialise, then assign. */
    constructor FromValue(members: seq<Type>, v: Value)
      requires Admissible(members) && Assignable(members, v)
      ensures Valid() && this.members == members
      ensures storeType == IndexOf(RemoveCvr(v.ty), members) && store == Some(Stored(v))
      ensures log == [Constructed(RemoveCvr(v.ty))]
    {
      this.members := members;
      deleter, mover, streamer := Indeterminate, Indeterminate, Indeterminate;
      storeType := -1;
      store := None;
      log := [];
      new;
      Assign(v);
    }

    /** `explicit operator bool()`: true exactly when the buffer holds a
        live object, which `get` at its type then returns. */
    function IsActive(): (r: bool)
      reads this
      requires Valid()
      ensures r <==> store.Some?
      ensures r ==> store.value.ty in members && Get(store.value.ty) == Success(store.value)
    {
      -1 != storeType
    }

    /** `empty()`: no live object in the buffer. */
    function Empty(): (r: bool)
      reads this
      requires Valid()
      ensures r <==> store == None
      ensures r <==> Replay(log) == Vacant
    {
      !IsActive()
    }

    /** `type_index()`: the active index, or -1. */
    function TypeIndex(): (r: int)
      reads this
      requires Valid()
      ensures -1 <= r < |members|
      ensures r == -1 <==> store == None
      ensures r >= 0 ==> store.value.ty == members[r] && IndexOf(members[r], members) == r
    {
      AdmissibleIndices(members);
      storeType
    }

    /** The static `type_index<U>()`: `index_of<U, T...>`. */
    function TypeIndexOf(u: Type): (r: int)
      requires Admissible(members)
      ensures -1 <= r < |members|
      ensures r == -1 <==> u !in members
      ensures r >= 0 ==> members[r] == u
      ensures forall j :: 0 <= j < r ==> members[j] != u
    {
      IndexOf(u, members)
    }

    /** `contains<U>()`: `index_of<U, T...> == store_type_`. For a member it
        says whether that member is active; for a non-member it holds
        exactly when the variant is empty. */
    function Contains(u: Type): (r: bool)
      reads this
      requires Valid()
      ensures u in members ==> (r <==> store.Some? && store.value.ty == u)
      ensures u !in members ==> (r <==> store == None)
    {
      AdmissibleIndices(members);
      IndexOf(u, members) == storeType
    }

    /** Checked access `get<U>()` (both the mutable and the const overload)
        for a member `U`: the live object when `U` is active, `bad_typeid`
        otherwise, and in particular when empty. */
    function Get(u: Type): (r: Result<Value>)
      reads this
      requires Valid() && u in members
      ensures r.Success? <==> store.Some? && store.value.ty == u
      ensures r.Success? ==> r.value == store.value
      ensures r.Failure? ==> r.error == BadTypeid
    {
      AdmissibleIndices(members);
      if IndexOf(u, members) == storeType then Success(store.value) else Failure(BadTypeid)
    }

    /** `cget<U>()`: like `get`, returning a copy for a fundamental or
        enumeration `U` and a const reference otherwise. */
    function CGet(u: Type): (r: Result<Access>)
      reads this
      requires Valid() && u in members
      ensures r.Success? <==> store.Some? && store.value.ty == u
      ensures r.Success? ==> r.value.v == store.value && (r.value.ByValue? <==> IsScalar(u))
      ensures r.Failure? ==> r.error == BadTypeid
    {
      AdmissibleIndices(members);
      if IndexOf(u, members) == storeType then
        Success(if IsScalar(u) then ByValue(store.value) else ByConstRef(store.value))
      else
        Failure(BadTypeid)
    }

    /** The coercive `get<U>()` for a fundamental or enumeration `U` that is
        not a member but is constructible from one: it succeeds exactly when
        the FIRST member `U` is constructible from is active, and returns a
        `U` constructed from the live object. */
    function CoerciveGet(u: Type, constructible: (Type, Type) -> bool): (r: Result<Value>)
      reads this
      requires Valid() && u !in members && IsScalar(u)
      requires CompatibleIndexOf(u, members, constructible) != -1
      ensures r.Success? <==> storeType == CompatibleIndexOf(u, members, constructible)
      ensures r.Success? ==>
        && store.Some?
        && store.value.ty == CompatibleType(u, members, constructible)
        && constructible(u, store.value.ty)
        && (forall i :: 0 <= i < storeType ==> !constructible(u, members[i]))
        && r.value == Value(u, Converted(store.value))
      ensures r.Failure? ==> r.error == BadTypeid
    {
      CompatibleTypeAt(u, members, constructible);
      if CompatibleIndexOf(u, members, constructible) == storeType then
        Success(Value(u, Converted(store.value)))
      else
        Failure(BadTypeid)
    }

    /** `destructor_stub<U>`, reached through `deleter_`: runs `~U()` on the
        buffer, which must hold a `U`. The index is left to the caller. */
    method DestructorStub(u: Type)
      requires store.Some? && store.value.ty == u
      modifies this`store, this`log
      ensures store == None && log == old(log) + [Destroyed(u)]
      ensures Replay(log) == Step(Replay(old(log)), Destroyed(u))
    {
      ReplayAppend(log, Destroyed(u));
      store := None;
      log := log + [Destroyed(u)];
    }

    /** The rvalue `operator=(U&&)` for a move-assignable member `U`
        (movingvariant.hpp:264-301): when `U` is already active the
        argument is assigned to it in place (by `U`'s move assignment, or
        by its copy assignment when the argument is a const rvalue);
        otherwise the occupant, if any, is
        destroyed, a `U` is constructed into the buffer from the argument,
        and the slots and index are set for `U`. */
    method AssignWhenMoveAssignable(v: Value)
      requires Valid() && Assignable(members, v) && MoveAssignable(RemoveCvr(v.ty))
      modifies this
      ensures Valid()
      ensures storeType == IndexOf(RemoveCvr(v.ty), members) && store == Some(Stored(v))
      ensures old(storeType) == storeType ==>
        log == old(log) + [MoveAssigned(RemoveCvr(v.ty))] &&
        deleter == old(deleter) && mover == old(mover) && streamer == old(streamer)
      ensures old(storeType) != storeType ==>
        var u := RemoveCvr(v.ty);
        log == old(log) + Vacate(old(storeType)) + [Constructed(u)] &&
        deleter == StubFor(u) && mover == GetMover(u) && streamer == GetStreamer(u)
    {
      var u := RemoveCvr(v.ty);
      if IndexOf(u, members) == storeType {
        AdmissibleIndex(members, storeType);
        ReplayAppend(log, MoveAssigned(u));
        store := Some(Stored(v));
        log := log + [MoveAssigned(u)];
      } else {
        Replace(Stored(v));
      }
    }

    /** The rvalue `operator=(U&&)` for a member `U` that is not
        move-assignable (movingvariant.hpp:303-334): always destroys the
        occupant, if any, and constructs a `U` from the argument, even when
        `U` is already active. */
    method AssignWhenNotMoveAssignable(v: Value)
      requires Valid() && Assignable(members, v) && !MoveAssignable(RemoveCvr(v.ty))
      modifies this
      ensures Valid()
      ensures storeType == IndexOf(RemoveCvr(v.ty), members) && store == Some(Stored(v))
      ensures var u := RemoveCvr(v.ty);
        && log == old(log) + Vacate(old(storeType)) + [Constructed(u)]
        && deleter == StubFor(u) && mover == GetMover(u) && streamer == GetStreamer(u)
    {
      Replace(Stored(v));
    }

    /** The destroy-then-construct sequence both overloads share, for the
        object `w` the new occupant is initialised to. */
    method Replace(w: Value)
      requires Valid() && w.ty in members
      modifies this
      ensures Valid()
      ensures storeType == IndexOf(w.ty, members) && store == Some(w)
      ensures log == old(log) + Vacate(old(storeType)) + [Constructed(w.ty)]
      ensures deleter == StubFor(w.ty) && mover == GetMover(w.ty) && streamer == GetStreamer(w.ty)
    {
      ghost var before := log;
      if IsActive() {
        DestructorStub(deleter.ty);
      }
      assert log == before + Vacate(old(storeType));
      assert Replay(log) == Vacant;
      ReplayAppend(log, Constructed(w.ty));
      store := Some(w);
      log := log + [Constructed(w.ty)];
      deleter := StubFor(w.ty);
      mover := GetMover(w.ty);
      streamer := GetStreamer(w.ty);
      storeType := IndexOf(w.ty, members);
    }

    /** `assign<S>(U&&)`: `operator=` for an rvalue of a member type, of
        which overload resolution picks one of the two overloads above
        according to whether `std::decay<U>` is move-assignable. */
    method Assign(v: Value)
      requires Valid() && Assignable(members, v)
      modifies this
      ensures Valid()
      ensures storeType == IndexOf(RemoveCvr(v.ty), members) && store == Some(Stored(v))
      ensures mover == GetMover(RemoveCvr(v.ty))
      ensures log == old(log) + Replacement(old(storeType), IndexOf(RemoveCvr(v.ty), members))
    {
      if MoveAssignable(RemoveCvr(v.ty)) {
        AssignWhenMoveAssignable(v);
      } else {
        AssignWhenNotMoveAssignable(v);
      }
    }

    /** `mover_stub<U>(dst, src)`, reached through `src.mover_`. For a
        move-assignable `U` already active in `dst`, `dst` is move-assigned
        from `src` in place; otherwise `dst`'s occupant, if any, is
        destroyed, a `U` is move-constructed from `src`'s, and `src`'s slots
        and index are copied. `src` keeps its index and is left holding a
        moved-from `U`. A self-move of a type that is not move-assignable
        would destroy the object it then reads, so it is excluded. */
    static method MoverStub(u: Type, dst: MovingVariant, src: MovingVariant)
      requires dst.Valid() && src.Valid() && dst.members == src.members
      requires src.storeType != -1 && src.members[src.storeType] == u && MoveConstructible(u)
      requires dst == src ==> MoveAssignable(u)
      modifies dst, src
      ensures dst.Valid() && src.Valid()
      ensures dst.storeType == old(src.storeType) && src.storeType == old(src.storeType)
      ensures dst != src ==> dst.store == old(src.store) && src.log == old(src.log)
      ensures src.store == Some(Value(u, MovedFrom(old(src.store).value)))
      ensures dst.log == old(dst.log) + dst.Replacement(old(dst.storeType), old(src.storeType))
    {
      if MoveAssignable(u) && src.storeType == dst.storeType {
        MoveInPlace(u, dst, src);
      } else {
        MoveConstructInto(u, dst, src);
      }
    }

    /** The first branch of the move-assignable `mover_stub<U>`
        (movingvariant.hpp:520-524): `U`'s move assignment into `dst`'s
        live object; no slot and no index changes. */
    static method MoveInPlace(u: Type, dst: MovingVariant, src: MovingVariant)
      requires dst.Valid() && src.Valid() && dst.members == src.members
      requires src.storeType != -1 && dst.storeType == src.storeType
      requires src.members[src.storeType] == u && MoveAssignable(u)
      modifies dst`store, dst`log, src`store
      ensures dst.Valid() && src.Valid()
      ensures dst != src ==> dst.store == old(src.store)
      ensures src.store == Some(Value(u, MovedFrom(old(src.store).value)))
      ensures dst.log == old(dst.log) + [MoveAssigned(u)]
    {
      var moved := src.store.value;
      ReplayAppend(dst.log, MoveAssigned(u));
      dst.store := Some(moved);
      src.store := Some(Value(u, MovedFrom(moved)));
      dst.log := dst.log + [MoveAssigned(u)];
    }

    /** The destroy-then-construct branch of either `mover_stub<U>`
        (movingvariant.hpp:527-542 and 553-568), between two distinct
        variants: `dst` takes `src`'s object, slots and index. */
    static method MoveConstructInto(u: Type, dst: MovingVariant, src: MovingVariant)
      requires dst.Valid() && src.Valid() && dst.members == src.members && dst != src
      requires src.storeType != -1 && src.members[src.storeType] == u
      modifies dst, src`store
      ensures dst.Valid() && src.Valid()
      ensures dst.storeType == old(src.storeType)
      ensures dst.store == old(src.store)
      ensures src.store == Some(Value(u, MovedFrom(old(src.store).value)))
      ensures dst.log == old(dst.log) + dst.Vacate(old(dst.storeType)) + [Constructed(u)]
    {
      var moved := src.store.value;
      ghost var before := dst.log;
      if dst.IsActive() {
        dst.DestructorStub(dst.deleter.ty);
      }
      assert dst.log == before + dst.Vacate(old(dst.storeType));
      ReplayAppend(dst.log, Constructed(u));
      dst.store := Some(moved);
      src.store := Some(Value(u, MovedFrom(moved)));
      dst.log := dst.log + [Constructed(u)];
      dst.deleter := src.deleter;
      dst.mover := src.mover;
      dst.streamer := src.streamer;
      dst.storeType := src.storeType;
    }

    /** The move `operator=(moving_variant&&)`: from an empty source, empty
        this variant (destroying its occupant, if any); from a non-empty
        source, dispatch to the source's mover; a non-empty source with a
        null mover throws `bad_typeid` and changes nothing. */
    method MoveAssign(rhs: MovingVariant) returns (o: Outcome)
      requires Valid() && rhs.Valid() && rhs.members == members
      requires rhs == this && storeType != -1 && mover.StubFor? ==> MoveAssignable(members[storeType])
      modifies this, rhs
      ensures Valid() && rhs.Valid()
      ensures o.Fail? <==> old(rhs.storeType) != -1 && old(rhs.mover) == NullFn
      ensures o.Fail? ==> o.error == BadTypeid && unchanged(this, rhs)
      ensures old(rhs.storeType) == -1 ==>
        storeType == -1 && log == old(log) + Vacate(old(storeType)) &&
        (rhs != this ==> unchanged(rhs))
      ensures o.Pass? && old(rhs.storeType) != -1 ==>
        && storeType == old(rhs.storeType)
        && rhs.storeType == old(rhs.storeType)
        && (rhs != this ==> store == old(rhs.store) && rhs.log == old(rhs.log))
        && rhs.store == Some(Value(members[old(rhs.storeType)], MovedFrom(old(rhs.store).value)))
        && log == old(log) + Replacement(old(storeType), old(rhs.storeType))
    {
      if !rhs.IsActive() {
        if IsActive() {
          DestructorStub(deleter.ty);
          storeType := -1;
        }
        o := Pass;
      } else if rhs.mover.StubFor? {
        MoverStub(rhs.mover.ty, this, rhs);
        o := Pass;
      } else {
        o := Fail(BadTypeid);
      }
    }

    /** `moving_variant(moving_variant&&)`: a fresh, empty variant
        move-assigned from `other`. The move constructor cannot return an
        error in Dafny, so it is a method that yields the new variant or the
        exception the move assignment threw. */
    static method MoveConstruct(other: MovingVariant) returns (r: Result<MovingVariant>)
      requires other.Valid()
      modifies other
      ensures other.Valid()
      ensures r.Failure? <==> old(other.storeType) != -1 && old(other.mover) == NullFn
      ensures r.Failure? ==> r.error == BadTypeid && unchanged(other)
      ensures r.Success? ==>
        && fresh(r.value) && r.value.Valid() && r.value.members == other.members
        && r.value.storeType == old(other.storeType) && other.storeType == old(other.storeType)
        && r.value.store == old(other.store)
        && (old(other.storeType) != -1 ==>
              other.store == Some(Value(other.members[old(other.storeType)], MovedFrom(old(other.store).value)))
              && r.value.log == [Constructed(other.members[old(other.storeType)])]
              && other.log == old(other.log))
        && (old(other.storeType) == -1 ==> r.value.log == [] && other.store == old(other.store))
    {
      var v := new MovingVariant(other.members);
      var o := v.MoveAssign(other);
      if o.Fail? {
        r := Failure(o.error);
      } else {
        r := Success(v);
      }
    }

    /** What a replacement adds to the counts of the history: the in-place
        move assignment constructs and destroys nothing; otherwise one
        object is constructed and the previous occupant, if any, destroyed. */
    lemma ReassignCounts(log: seq<Event>, dst: int, src: nat)
      requires -1 <= dst < |members| && src < |members|
      ensures var inPlace := dst == src && MoveAssignable(members[src]);
        && Constructions(log + Replacement(dst, src)) == Constructions(log) + (if inPlace then 0 else 1)
        && Destructions(log + Replacement(dst, src)) == Destructions(log) + (if inPlace || dst == -1 then 0 else 1)
    {
      var r := Replacement(dst, src);
      CountsAppend(log, r);
      if !(dst == src && MoveAssignable(members[src])) {
        CountsAppend(Vacate(dst), [Constructed(members[src])]);
        assert [Constructed(members[src])][..0] == [];
        if dst != -1 {
          assert Vacate(dst)[..0] == [];
        }
      } else {
        assert r[..0] == [];
      }
    }

    /** `~moving_variant()`: runs `deleter_` once when non-empty. After it,
        every object ever constructed in the buffer was destroyed exactly
        once. */
    method Destroy()
      requires Valid()
      modifies this
      ensures store == None && Replay(log) == Vacant
      ensures log == old(log) + Vacate(old(storeType))
      ensures Constructions(log) == Destructions(log)
    {
      if IsActive() {
        DestructorStub(deleter.ty);
      }
      ReplayBalanced(log);
    }
  }

  /** Assigning two member values in turn into a fresh variant and then
      destroying it: each value comes back through `get`, the index follows
      the assigned type, a same-type reassignment of a move-assignable type
      constructs nothing new, and every object constructed is destroyed
      once. */
  method ReassignThenGet(members: seq<Type>, first: Value, second: Value)
    returns (g1: Result<Value>, i1: int, g2: Result<Value>, i2: int, stale: Result<Value>, ghost made: nat, ghost destroyed: nat)
    requires Admissible(members) && Assignable(members, first) && Assignable(members, second)
    ensures g1 == Success(Stored(first)) && 0 <= i1 < |members| && members[i1] == RemoveCvr(first.ty)
    ensures g2 == Success(Stored(second)) && 0 <= i2 < |members| && members[i2] == RemoveCvr(second.ty)
    ensures stale == (if RemoveCvr(first.ty) == RemoveCvr(second.ty) then Success(Stored(second)) else Failure(BadTypeid))
    ensures made == destroyed
    ensures made == (if RemoveCvr(first.ty) == RemoveCvr(second.ty) && MoveAssignable(RemoveCvr(first.ty)) then 1 else 2)
  {
    var u1, u2 := RemoveCvr(first.ty), RemoveCvr(second.ty);
    var mv := new MovingVariant.FromValue(members, first);
    g1 := mv.Get(u1);
    i1 := mv.TypeIndex();
    ghost var before := mv.log;
    mv.Assign(second);
    g2 := mv.Get(u2);
    i2 := mv.TypeIndex();
    stale := mv.Get(u1);
    ghost var during := mv.log;
    mv.Destroy();
    mv.ReassignCounts(before, i1, i2);
    CountsAppend(during, mv.log[|during|..]);
    assert during + mv.log[|during|..] == mv.log;
    assert before[..0] == [];
    made, destroyed := Constructions(mv.log), Destructions(mv.log);
  }

  /** A member that is copy-constructible but not move-constructible can
      still become active, from a const rvalue, which the copy constructor
      takes; its mover is then null, so moving the variant throws
      `bad_typeid` and leaves the source as it was. */
  method MoveWithoutMover(members: seq<Type>, v: Value) returns (o: Outcome, kept: Result<Value>)
    requires Admissible(members) && Assignable(members, v) && !MoveConstructible(RemoveCvr(v.ty))
    ensures o == Fail(BadTypeid)
    ensures kept == Success(Stored(v))
  {
    var source := new MovingVariant.FromValue(members, v);
    var target := new MovingVariant(members);
    o := target.MoveAssign(source);
    kept := source.Get(RemoveCvr(v.ty));
  }

  /** A default-constructed variant is empty, reports index -1 and
      rejects access at every member type. */
  method DefaultRejectsAccess(members: seq<Type>, u: Type) returns (e: bool, i: int, g: Result<Value>)
    requires Admissible(members) && u in members
    ensures e && i == -1 && g == Failure(BadTypeid)
  {
    var mv := new MovingVariant(members);
    e := mv.Empty();
    i := mv.TypeIndex();
    g := mv.Get(u);
  }
}
