# moving_variant and any, modelled in Dafny

This project models the two containers of the `generic` namespace:

- `moving_variant<T...>` is a tagged union over a closed list of member types. It has one inline buffer sized and aligned for the largest member, the index of the active member (-1 when empty), and three function pointers bound at assignment time: the deleter, the mover and the streamer. It cannot be copied, only moved. Checked access throws `std::bad_typeid`.
- `any` is a type-erased value. It owns at most one heap control block (`holder<V>`), which stores the value, a per-type identity token and a clone function. The clone function throws `std::logic_error` for a type that cannot be copied. Checked access throws `std::bad_cast`.

The modules are:

- `Exceptions` (`exceptions.dfy`): `Option`, and `Result`/`Outcome` in place of the thrown exceptions. It also defines the three exception kinds.
- `TypeTags` (`type_tags.dfy`): a C++ type as a tag. The tag has a base (void, a named type carrying its trait facts, or an array), cv-qualifiers and reference kind. It provides the standard traits the containers consult, `sizeof`/`alignof`, and the identity token `any::type_id<T>()`. Values are symbolic: a type plus a representation.
- `Detail` (`type_list.dfy`): the compile-time metafunctions of `generic::detail`, as recursive functions over the member list with the templates' own recursion. It also has the four static assertions (`Admissible`) and the buffer's size and alignment.
- `Lifetime` (`lifetime.dfy`): a ghost history of the special member calls made on the variant's buffer. A replay of it gives the buffer's occupancy and says whether the history ever went wrong.
- `Variant` (`moving_variant.dfy`): the class `MovingVariant`, whose fields are the slots, the index, the buffer's live object and the ghost history.
- `TypeErased` (`type_erased.dfy`): the classes `Holder` (the control block) and `Any`, and the free casting functions.

Some of the code's behaviour is easy to misread. The model follows the code:

- Moving a `moving_variant` does not empty the source. The source keeps its index and holds a moved-from object (`MoverStub`, movingvariant.hpp:513-569).
- Move assignment of an `any` swaps the two contents, so the source receives the target's old content (any.hpp:77). Only the move constructor leaves the source empty, because it starts from an empty `any` (any.hpp:46).
- The coercive `get` does not reject a member list with several compatible members. It uses the first one (`compatible_index_of`, movingvariant.hpp:97-113).
- A block built by the value constructor `any(ValueType&&)` (any.hpp:55-59) from an array rvalue always gets the throwing cloner (any.hpp:175-191), even when the array's elements could be copied. The holder constructor it reaches for an array rvalue (any.hpp:175-191) exists only when the element type, without `const`, is move-assignable; when it does not, `any(ValueType&&)` does not compile. An array lvalue reaches the fourth holder constructor (any.hpp:193-207) instead; that one needs a copy-assignable element and installs the copying cloner.
- A member that can be copied but not moved can still become active, from a const rvalue, which the copy constructor takes (movingvariant.hpp:289, 323). Its mover is null (movingvariant.hpp:478-485), so moving such a variant throws `bad_typeid` (movingvariant.hpp:246).

## Model

| member | source | states |
|---|---|---|
| TypeTags.RemoveCvr | any.hpp:23-26 | the result has no reference and no cv-qualifier, keeps the base, and equals the input exactly when the input was unqualified |
| TypeTags.RemoveAllExtents | any.hpp:178-183 | the innermost element type is not an array; a non-array is its own element type; an array's is its element's; the alignment is the array's |
| TypeTags.TypeIdOf | any.hpp:30-37 | a type's identity token is never the null token |
| TypeTags.TypeIdInjective | any.hpp:30-37 | two tokens are equal exactly when their types are equal |
| Detail.MaxAlignType | movingvariant.hpp:21-42 | the chosen type is a member, and no member has a larger alignment |
| Detail.MaxAlignTypeIsLastLargest | movingvariant.hpp:21-42 | ties go to the later member: every member after the chosen one has a strictly smaller alignment |
| Detail.MaxSizeType | movingvariant.hpp:44-65 | the chosen type is a member, and no member is larger |
| Detail.MaxSizeTypeIsLastLargest | movingvariant.hpp:44-65 | ties go to the later member: every member after the chosen one is strictly smaller |
| Detail.IndexOf | movingvariant.hpp:67-81 | the result is -1 exactly when the type is absent; otherwise it is the position of the type's first occurrence |
| Detail.HasDuplicates | movingvariant.hpp:83-95 | true exactly when some type occurs twice |
| Detail.CompatibleIndexOf | movingvariant.hpp:97-113 | -1 exactly when no member is constructible-from; otherwise the first member the type is constructible from |
| Detail.CompatibleType | movingvariant.hpp:115-130 | the result is void or a member the type is constructible from |
| Detail.TypeAt | movingvariant.hpp:144-153 | the member at the given position |
| Detail.CompatibleTypeAt | movingvariant.hpp:431-435 | the static assertion of the coercive get holds: the member at `compatible_index_of` is `compatible_type`, and with no compatible member the latter is void |
| Detail.AllOf | movingvariant.hpp:158-166 | true exactly when every flag holds |
| Detail.AnyOf | movingvariant.hpp:168-176 | true exactly when some flag holds |
| Detail.StoreSize | movingvariant.hpp:589 | the buffer size is at least every member's size, and some member attains it |
| Detail.StoreAlign | movingvariant.hpp:205-209 | the buffer alignment is at least every member's alignment, and some member attains it |
| Detail.BufferSuitsEveryMember | movingvariant.hpp:589 | when alignments are powers of two, every member fits the buffer and the buffer's alignment is a multiple of its alignment |
| Detail.IsMoveOrCopyConstructible | movingvariant.hpp:178-183 | every reference passes; otherwise only a named type passes, a const one only by its copy constructor, a non-const one by either constructor |
| Detail.AdmissibleMeans | movingvariant.hpp:195-203 | the static assertions accept a list exactly when it is non-empty, has no reference, void or unmovable member, and no duplicate |
| Detail.AdmissibleIndex | movingvariant.hpp:195-203 | in an accepted list every member is an object type, and `index_of` of a member is its position |
| Detail.AdmissibleIndices | movingvariant.hpp:195-203 | in an accepted list, `index_of` of every member is its position |
| Lifetime.ReplayBalanced | movingvariant.hpp:213-220 | in a sound history, constructions equal destructions plus one if an object is still live |
| Variant.GetMover | movingvariant.hpp:469-485 | the mover is null exactly when the type is not move-constructible; otherwise it is the stub for that type |
| Variant.GetStreamer | movingvariant.hpp:487-505 | the streamer is null exactly when the type is not streamable; otherwise it is the stub for that type |
| Variant.MovingVariant.constructor | movingvariant.hpp:211 | a default variant is empty, its history is empty, and its slots are unwritten |
| Variant.MovingVariant.FromValue | movingvariant.hpp:252-262 | from an rvalue, const or not, of a member type: the variant holds the value at its member index, after exactly one construction |
| Variant.MovingVariant.IsActive | movingvariant.hpp:336 | true exactly when a live object is held, and `get` at its type then returns it |
| Variant.MovingVariant.Empty | movingvariant.hpp:350 | empty exactly when the buffer holds no live object, which is when the history replays to a vacant buffer |
| Variant.MovingVariant.TypeIndex | movingvariant.hpp:454 | the index is -1 exactly when empty; otherwise it is the position of the live object's type |
| Variant.MovingVariant.TypeIndexOf | movingvariant.hpp:448-452 | the result lies in -1 .. |members|-1; -1 exactly for a non-member; otherwise the position of the member's first (and only) occurrence |
| Variant.MovingVariant.Contains | movingvariant.hpp:344-348 | for a member, whether it is the active type; for a non-member, whether the variant is empty |
| Variant.MovingVariant.Get | movingvariant.hpp:388-420 | succeeds exactly when the requested member is active and returns the live object; otherwise bad_typeid |
| Variant.MovingVariant.CGet | movingvariant.hpp:352-386 | as `get`, returning a copy exactly when the type is fundamental or an enumeration |
| Variant.MovingVariant.CoerciveGet | movingvariant.hpp:422-446 | succeeds exactly when the first compatible member is active, and returns a conversion of the live object; otherwise bad_typeid |
| Variant.MovingVariant.DestructorStub | movingvariant.hpp:507-511 | the live object is destroyed and the history records it |
| Variant.MovingVariant.AssignWhenMoveAssignable | movingvariant.hpp:264-301 | the same active type is move-assigned in place with the slots kept; otherwise the old occupant is destroyed, the value is constructed, and the slots and index are set for it |
| Variant.MovingVariant.AssignWhenNotMoveAssignable | movingvariant.hpp:303-334 | the old occupant is always destroyed and the value constructed, even when the type is already active |
| Variant.MovingVariant.Replace | movingvariant.hpp:317-331 | the destroy-then-construct sequence: the history grows by the destruction, if any, and one construction |
| Variant.MovingVariant.Assign | movingvariant.hpp:338-342 | from an rvalue, const or not, of a member type: the variant holds the value at its member index, the mover is that type's (null when it cannot be moved), and the history grows by the replacement the overload choice implies |
| Variant.MovingVariant.MoverStub | movingvariant.hpp:513-569 | the destination takes the source's object and index; the source keeps its index and holds a moved-from object; the history is the in-place move or destroy-then-construct |
| Variant.MovingVariant.MoveInPlace | movingvariant.hpp:520-524 | the destination's live object is move-assigned from the source's; no slot or index changes, and the history records one move assignment |
| Variant.MovingVariant.MoveConstructInto | movingvariant.hpp:527-542 | between distinct variants, the destination's occupant is destroyed if any, a new one is constructed from the source's, and the source's slots and index are copied |
| Variant.MovingVariant.MoveAssign | movingvariant.hpp:228-250 | from an empty source, the target is emptied; otherwise the mover runs; it fails with bad_typeid and changes nothing exactly when the source is active with a null mover |
| Variant.MovingVariant.MoveConstruct | movingvariant.hpp:224 | the new variant holds what the source held, with one construction and no event on the source's own log; an empty source gives an empty variant with an empty log and leaves its own store alone; a source with no mover gives the move's exception and is unchanged |
| Variant.MovingVariant.ReassignCounts | movingvariant.hpp:277-297 | an in-place reassignment adds no construction or destruction; any other adds one construction, and one destruction when the buffer was occupied |
| Variant.MovingVariant.Destroy | movingvariant.hpp:213-220 | the live object, if any, is destroyed, after which every object constructed was destroyed exactly once |
| Variant.ReassignThenGet | movingvariant.hpp:264-334 | after assigning two member values in turn, `get` returns each, the index follows, and the construction and destruction counts balance at one (in place) or two |
| Variant.MoveWithoutMover | movingvariant.hpp:240-247 | a variant holding a copyable but unmovable member, set from a const rvalue, cannot be moved: the move throws bad_typeid and the source keeps its value |
| Variant.DefaultRejectsAccess | movingvariant.hpp:388-403 | a default variant is empty, reports -1, and rejects `get` at every member with bad_typeid |
| TypeErased.SelectCloner | any.hpp:153-207 | a non-array gets the copying cloner exactly when it is copy-constructible, the throwing one otherwise; a moved-in array is accepted exactly when its element is move-assignable and gets the throwing cloner; an lvalue array is accepted exactly when its element is copy-assignable and gets the copying cloner |
| TypeErased.Holder.constructor | any.hpp:153-207 | the block holds the stripped value, the token of the stripped type, and the cloner the chosen overload installs |
| TypeErased.Holder.Clone | any.hpp:211-219 | fails with logic_error exactly for the throwing cloner; otherwise it yields a fresh block with the same value and token |
| TypeErased.Any.constructor | any.hpp:39 | a default `any` is empty |
| TypeErased.Any.FromValue | any.hpp:48-59 | a fresh block holding the value at its stripped type, with that type's token |
| TypeErased.Any.MoveFrom | any.hpp:46 | the new `any` takes the source's block, and the source is left empty |
| TypeErased.Any.CopyOf | any.hpp:41-44 | an empty source gives an empty copy; otherwise a fresh block with the same value, token and cloner, or logic_error exactly when the cloner throws |
| TypeErased.Any.Destroy | any.hpp:61 | the owned block, if any, is deleted |
| TypeErased.Any.Swap | any.hpp:68-70 | the two contents are exchanged |
| TypeErased.Any.MoveAssign | any.hpp:77 | the two contents are exchanged; the source is not emptied |
| TypeErased.Any.Clear | any.hpp:64 | the `any` becomes empty and its old block is deleted |
| TypeErased.Any.CopyAssign | any.hpp:72-75 | self and shared-block assignment does nothing; otherwise this `any` takes a fresh copy with the source's value, token and cloner and its old block is deleted, or, when the copy throws, it stays as it was |
| TypeErased.Any.AssignValue | any.hpp:79-89 | the new value, its token and the cloner chosen for it replace the old content, whose block is deleted |
| TypeErased.Any.IsNonEmpty | any.hpp:93 | true exactly when a block is owned, and `get` at the held type then returns the held value |
| TypeErased.Any.Empty | any.hpp:66 | empty exactly when the token is null |
| TypeErased.Any.StoredTypeId | any.hpp:95-100 | the null token exactly when empty; otherwise the token of the held type |
| TypeErased.AnyCastPtr | any.hpp:256-270 | the held value exactly when the operand is non-null and holds the token of the stripped requested type; otherwise null |
| TypeErased.AnyCastRef | any.hpp:272-308 | the held value under the same condition; otherwise bad_cast |
| TypeErased.Get | any.hpp:310-352 | the held value exactly when non-empty and the tokens match; otherwise bad_cast |
| TypeErased.CGet | any.hpp:354-363 | for a non-fundamental type, the same outcome as `get` |
| TypeErased.UnsafeAnyCast | any.hpp:244-254 | under its precondition, the unchecked access has the requested stripped type and agrees with both checked accessors |
| TypeErased.AccessMeansTypeMatch | any.hpp:256-264 | in a valid `any`, a token match is exactly a type match, and `get` agrees with the reference `any_cast` |
| TypeErased.RoundTrip | any.hpp:310-330 | an `any` built from a value returns it, at its stripped type, through `get` and `any_cast`, and throws bad_cast at any other type |
| TypeErased.DefaultRejectsAccess | any.hpp:310-330 | a default `any` is empty, has the null token, and rejects every access |
| TypeErased.MoveOnlyCopyFails | any.hpp:153-162 | a move-only value is stored and moved without error; only copying it throws logic_error |

## Left out

- `operator<<` and `streamer_stub` (movingvariant.hpp:460-467, 571-578) write to a stream, which is I/O. The streamer slot is modelled; running it is not. The stream type parameter `S` of the assignment operators is left out too.
- The buffer's raw bytes, placement new, and the `static_cast` through `void*` are left out. The buffer is modelled by the value of its live object, plus the ghost history of calls made on it.
- Types are tags. Whether a type is copy- or move-constructible, assignable, streamable or fundamental is a fact carried by the tag, not derived from class definitions. `volatile` is kept, but it does not affect the modelled traits.
- `std::is_constructible<U, W>` for the coercive `get` is a parameter of the model. The conversion `U(w)` itself is not computed: its result is the symbolic value `Converted(w)`.
- The identity token is modelled by the type itself. The address of a function-local static, and its thread-safe lazy initialisation, are left out.
- Exceptions thrown by the members' own constructors, assignments or destructors are left out. std::bad_alloc from `new` is left out too. What this loses: in `operator=` and in both `mover_stub`s the old occupant is destroyed before the new one is constructed, and `store_type_` and `deleter_` are updated only after that construction (movingvariant.hpp:285-289, 319-323, 529-533, 555-559). A constructor that throws there leaves the variant pointing at an occupant already destroyed, and `~moving_variant` then destroys that occupant a second time. Variant.MovingVariant.Destroy's "each constructed object is destroyed exactly once" therefore holds only because such throws are not modelled.
- Writing through the reference that `get` returns is left out: the model returns the value.
- The `any` array helpers `begin`/`end` (any.hpp:106-130) are left out: the model copies a whole array value at once.
- The fundamental-type overload of `cget` for `any` (any.hpp:365-374) is not modelled. It calls `get<U>()` without the `any`, which is ill-formed, so no instantiation of it compiles.
- The `NDEBUG` branches of `get` and the reference `any_cast` are represented by `UnsafeAnyCast`. This is a precondition-only accessor: an empty or mismatched `any` is undefined behaviour there, not an error.
- cify.hpp is not part of this model.
- Variant.MovingVariant.Assign: a volatile rvalue argument is not modelled, because the traits of volatile types are not modelled.
- Variant.MovingVariant.FromValue: a volatile rvalue argument is not modelled, for the same reason.
- Variant.MovingVariant.MoveAssign: self-move-assignment while a type is active that can be moved but not move-assigned is excluded by the precondition. The mover would destroy the object (movingvariant.hpp:553-556) and then construct from it (movingvariant.hpp:559-560), which is undefined behaviour.
- Variant.MovingVariant.MoverStub: the same self-move of a non-move-assignable type is excluded, for the same reason.
- Concurrency is left out. Neither container synchronises.
