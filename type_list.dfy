/** The compile-time layer of `moving_variant` (namespace `generic::detail`):
    metafunctions over the member type list, written with the same recursion
    as the templates. Like the templates, each needs at least one type in the
    list (the primary templates take a first parameter `A`). */
module Detail {
  import opened TypeTags

  /** No type occurs twice in the list. */
  ghost predicate Distinct(ts: seq<Type>) {
    forall i, j :: 0 <= i < j < |ts| ==> ts[i] != ts[j]
  }

  /** `index_of<A, T...>`: the 0-based position of `a` in `ts`, or -1. */
  function IndexOf(a: Type, ts: seq<Type>): (r: int)
    requires |ts| >= 1
    ensures -1 <= r < |ts|
    ensures r == -1 <==> a !in ts
    ensures r >= 0 ==> ts[r] == a && a !in ts[..r]
    decreases |ts|
  {
    if |ts| == 1 then
      (if a == ts[0] then 0 else -1)
    else if a == ts[0] then
      0
    else
      var rest := IndexOf(a, ts[1..]);
      assert ts == [ts[0]] + ts[1..];
      assert rest >= 0 ==> ts[..1 + rest] == [ts[0]] + ts[1..][..rest];
      if -1 == rest then -1 else 1 + rest
  }

  /** `has_duplicates<T...>`: some type occurs twice. */
  function HasDuplicates(ts: seq<Type>): (r: bool)
    requires |ts| >= 1
    ensures r <==> !Distinct(ts)
    decreases |ts|
  {
    if |ts| == 1 then
      false
    else
      var tail := ts[1..];
      var found := IndexOf(ts[0], tail);
      assert forall j :: 1 <= j < |ts| ==> ts[j] == tail[j - 1];
      if -1 == found then
        HasDuplicates(tail)
      else
        assert ts[0] == ts[1 + found];
        true
  }

  /** `compatible_index_of<A, T...>`: the position of the FIRST member that
      `a` is constructible from, or -1. A later compatible member is not an
      error here. */
  function CompatibleIndexOf(a: Type, ts: seq<Type>, constructible: (Type, Type) -> bool): (r: int)
    requires |ts| >= 1
    ensures -1 <= r < |ts|
    ensures r == -1 <==> forall i :: 0 <= i < |ts| ==> !constructible(a, ts[i])
    ensures r >= 0 ==> constructible(a, ts[r]) && forall i :: 0 <= i < r ==> !constructible(a, ts[i])
    decreases |ts|
  {
    if |ts| == 1 then
      (if constructible(a, ts[0]) then 0 else -1)
    else if constructible(a, ts[0]) then
      0
    else
      var tail := ts[1..];
      var rest := CompatibleIndexOf(a, tail, constructible);
      assert forall j :: 1 <= j < |ts| ==> ts[j] == tail[j - 1];
      if -1 == rest then -1 else 1 + rest
  }

  /** `compatible_type<A, T...>`: the first member `a` is constructible
      from, or void. */
  function CompatibleType(a: Type, ts: seq<Type>, constructible: (Type, Type) -> bool): (r: Type)
    requires |ts| >= 1
    ensures r == VoidType || (r in ts && constructible(a, r))
    decreases |ts|
  {
    if |ts| == 1 then
      (if constructible(a, ts[0]) then ts[0] else VoidType)
    else if constructible(a, ts[0]) then
      ts[0]
    else
      CompatibleType(a, ts[1..], constructible)
  }

  /** `type_at<I, T...>`: the member at position `i`. */
  function TypeAt(i: nat, ts: seq<Type>): (r: Type)
    requires i < |ts|
    ensures r == ts[i]
    decreases i
  {
    if i == 0 then ts[0] else TypeAt(i - 1, ts[1..])
  }

  /** The check behind the "internal error" static assertion of the
      coercive `get`: the type at `compatible_index_of` is
      `compatible_type`; with no compatible member, the latter is void. */
  lemma {:induction false} CompatibleTypeAt(a: Type, ts: seq<Type>, constructible: (Type, Type) -> bool)
    requires |ts| >= 1
    ensures CompatibleIndexOf(a, ts, constructible) >= 0 ==>
      TypeAt(CompatibleIndexOf(a, ts, constructible), ts) == CompatibleType(a, ts, constructible)
    ensures CompatibleIndexOf(a, ts, constructible) == -1 ==>
      CompatibleType(a, ts, constructible) == VoidType
    decreases |ts|
  {
    if |ts| > 1 && !constructible(a, ts[0]) {
      CompatibleTypeAt(a, ts[1..], constructible);
    }
  }

  /** `max_size_type<T...>`: a member of largest size; on a tie the later
      member wins, because the comparison is strict. */
  function MaxSizeType(ts: seq<Type>): (r: Type)
    requires |ts| >= 1
    ensures r in ts
    ensures forall t :: t in ts ==> SizeOf(t) <= SizeOf(r)
    decreases |ts|
  {
    if |ts| == 1 then
      ts[0]
    else
      var m := MaxSizeType(ts[1..]);
      assert ts == [ts[0]] + ts[1..];
      if SizeOf(ts[0]) > SizeOf(m) then ts[0] else m
  }

  /** `max_align_type<T...>`: a member of largest alignment; on a tie the
      later member wins. */
  function MaxAlignType(ts: seq<Type>): (r: Type)
    requires |ts| >= 1
    ensures r in ts
    ensures forall t :: t in ts ==> AlignOf(t) <= AlignOf(r)
    decreases |ts|
  {
    if |ts| == 1 then
      ts[0]
    else
      var m := MaxAlignType(ts[1..]);
      assert ts == [ts[0]] + ts[1..];
      if AlignOf(ts[0]) > AlignOf(m) then ts[0] else m
  }

  /** The tie rule of `max_size_type`: the chosen type sits at a position
      after which every member is strictly smaller. */
  lemma {:induction false} MaxSizeTypeIsLastLargest(ts: seq<Type>) returns (k: nat)
    requires |ts| >= 1
    ensures k < |ts| && ts[k] == MaxSizeType(ts)
    ensures forall j :: k < j < |ts| ==> SizeOf(ts[j]) < SizeOf(MaxSizeType(ts))
    decreases |ts|
  {
    if |ts| == 1 {
      k := 0;
    } else {
      var m := MaxSizeType(ts[1..]);
      if SizeOf(ts[0]) > SizeOf(m) {
        k := 0;
        forall j | 0 < j < |ts| ensures SizeOf(ts[j]) < SizeOf(ts[0]) {
          assert ts[j] in ts[1..];
        }
      } else {
        var k' := MaxSizeTypeIsLastLargest(ts[1..]);
        k := k' + 1;
        forall j | k < j < |ts| ensures SizeOf(ts[j]) < SizeOf(m) {
          assert ts[j] == ts[1..][j - 1];
        }
      }
    }
  }

  /** The tie rule of `max_align_type`. */
  lemma {:induction false} MaxAlignTypeIsLastLargest(ts: seq<Type>) returns (k: nat)
    requires |ts| >= 1
    ensures k < |ts| && ts[k] == MaxAlignType(ts)
    ensures forall j :: k < j < |ts| ==> AlignOf(ts[j]) < AlignOf(MaxAlignType(ts))
    decreases |ts|
  {
    if |ts| == 1 {
      k := 0;
    } else {
      var m := MaxAlignType(ts[1..]);
      if AlignOf(ts[0]) > AlignOf(m) {
        k := 0;
        forall j | 0 < j < |ts| ensures AlignOf(ts[j]) < AlignOf(ts[0]) {
          assert ts[j] in ts[1..];
        }
      } else {
        var k' := MaxAlignTypeIsLastLargest(ts[1..]);
        k := k' + 1;
        forall j | k < j < |ts| ensures AlignOf(ts[j]) < AlignOf(m) {
          assert ts[j] == ts[1..][j - 1];
        }
      }
    }
  }

  /** `sizeof(max_size_type)`: the size of the shared inline buffer. */
  function StoreSize(ts: seq<Type>): (n: nat)
    requires |ts| >= 1
    ensures forall t :: t in ts ==> SizeOf(t) <= n
    ensures exists t :: t in ts && SizeOf(t) == n
  {
    SizeOf(MaxSizeType(ts))
  }

  /** `max_align`, the alignment of the shared inline buffer. */
  function StoreAlign(ts: seq<Type>): (n: nat)
    requires |ts| >= 1
    ensures forall t :: t in ts ==> AlignOf(t) <= n
    ensures exists t :: t in ts && AlignOf(t) == n
  {
    AlignOf(MaxAlignType(ts))
  }

  /** C++ alignments are powers of two. */
  predicate IsPowerOfTwo(n: nat)
    decreases n
  {
    n == 1 || (n >= 2 && n % 2 == 0 && IsPowerOfTwo(n / 2))
  }

  /** Of two powers of two, the larger is a multiple of the smaller. */
  lemma {:induction false} PowerOfTwoMultiple(a: nat, b: nat) returns (k: nat)
    requires IsPowerOfTwo(a) && IsPowerOfTwo(b) && a <= b
    ensures b == k * a
    decreases a
  {
    if a == 1 {
      k := b;
    } else {
      assert b != 1;
      var h := a / 2;
      var k' := PowerOfTwoMultiple(h, b / 2);
      k := k';
      assert b == 2 * (k * h) && a == 2 * h;
      assert 2 * (k * h) == k * (2 * h);
    }
  }

  /** The buffer is large enough for every member, and its alignment, the
      largest member alignment, is a multiple of every member's alignment,
      so the buffer is suitably placed for whichever member is active. */
  lemma BufferSuitsEveryMember(ts: seq<Type>, t: Type) returns (k: nat)
    requires |ts| >= 1 && t in ts
    requires forall m :: m in ts ==> IsPowerOfTwo(AlignOf(m))
    ensures SizeOf(t) <= StoreSize(ts)
    ensures StoreAlign(ts) == k * AlignOf(t)
  {
    k := PowerOfTwoMultiple(AlignOf(t), StoreAlign(ts));
  }

  /** `all_of<B...>` over the trait values. */
  function AllOf(bs: seq<bool>): (r: bool)
    requires |bs| >= 1
    ensures r <==> forall i :: 0 <= i < |bs| ==> bs[i]
    decreases |bs|
  {
    if |bs| == 1 then
      bs[0]
    else
      assert forall j :: 1 <= j < |bs| ==> bs[j] == bs[1..][j - 1];
      bs[0] && AllOf(bs[1..])
  }

  /** `any_of<B...>` over the trait values. */
  function AnyOf(bs: seq<bool>): (r: bool)
    requires |bs| >= 1
    ensures r <==> exists i :: 0 <= i < |bs| && bs[i]
    decreases |bs|
  {
    if |bs| == 1 then
      bs[0]
    else
      assert forall j :: 1 <= j < |bs| ==> bs[j] == bs[1..][j - 1];
      bs[0] || AnyOf(bs[1..])
  }

  /** `is_move_or_copy_constructible<T>`: every reference passes; void
      and arrays never do; a const object type needs its copy constructor. */
  function IsMoveOrCopyConstructible(t: Type): (r: bool)
    ensures r <==> (IsReference(t) ||
                    (t.base.Named? && (t.base.traits.copyConstructible || (!t.isConst && t.base.traits.moveConstructible))))
  {
    CopyConstructible(t) || MoveConstructible(t)
  }

  /** The four static assertions of `moving_variant<T...>`, written with the
      metafunctions they use. */
  predicate Admissible(ts: seq<Type>) {
    && |ts| >= 1
    && !AnyOf(seq(|ts|, i requires 0 <= i < |ts| => IsReference(ts[i])))
    && !AnyOf(seq(|ts|, i requires 0 <= i < |ts| => IsVoid(ts[i])))
    && AllOf(seq(|ts|, i requires 0 <= i < |ts| => IsMoveOrCopyConstructible(ts[i])))
    && !HasDuplicates(ts)
  }

  /** What the static assertions accept, stated member by member. */
  lemma AdmissibleMeans(ts: seq<Type>)
    ensures Admissible(ts) <==>
      && |ts| >= 1
      && (forall i :: 0 <= i < |ts| ==>
            !IsReference(ts[i]) && !IsVoid(ts[i]) && IsMoveOrCopyConstructible(ts[i]))
      && Distinct(ts)
  {
    if |ts| >= 1 {
      var refs := seq(|ts|, i requires 0 <= i < |ts| => IsReference(ts[i]));
      var voids := seq(|ts|, i requires 0 <= i < |ts| => IsVoid(ts[i]));
      var movable := seq(|ts|, i requires 0 <= i < |ts| => IsMoveOrCopyConstructible(ts[i]));
      assert forall i :: 0 <= i < |ts| ==> refs[i] == IsReference(ts[i]);
      assert forall i :: 0 <= i < |ts| ==> voids[i] == IsVoid(ts[i]);
      assert forall i :: 0 <= i < |ts| ==> movable[i] == IsMoveOrCopyConstructible(ts[i]);
    }
  }

  /** Admissible lists hold object types only, at distinct positions, so
      `index_of` of a member is its one and only position. */
  lemma AdmissibleIndex(ts: seq<Type>, i: nat)
    requires Admissible(ts) && i < |ts|
    ensures IsObjectType(ts[i])
    ensures IndexOf(ts[i], ts) == i
  {
    AdmissibleMeans(ts);
  }

  lemma AdmissibleIndices(ts: seq<Type>)
    requires Admissible(ts)
    ensures forall i :: 0 <= i < |ts| ==> IndexOf(ts[i], ts) == i
  {
    forall i | 0 <= i < |ts| ensures IndexOf(ts[i], ts) == i {
      AdmissibleIndex(ts, i);
    }
  }
}
