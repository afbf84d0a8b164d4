/** Object lifetimes in the variant's inline buffer, as a history of the
    special member calls made on it. Replaying the history says whether the
    buffer holds a live object, which type it has, and whether the history
    ever went wrong (destroying nothing, constructing over a live object,
    or using an object at the wrong type). */
module Lifetime {
  import opened TypeTags

  datatype Event =
    | Constructed(ty: Type)    // placement-new of a `ty` into the buffer
    | Destroyed(ty: Type)      // `~ty()` run on the buffer
    | MoveAssigned(ty: Type)   // assignment from an rvalue into the live `ty`: its move assignment, or its copy assignment for a const rvalue

  datatype Occupancy = Vacant | Occupied(ty: Type) | Corrupt

  function Step(o: Occupancy, e: Event): Occupancy {
    match e
    case Constructed(t) => if o == Vacant then Occupied(t) else Corrupt
    case Destroyed(t) => if o == Occupied(t) then Vacant else Corrupt
    case MoveAssigned(t) => if o == Occupied(t) then o else Corrupt
  }

  /** The buffer's state after `log`, starting from an empty buffer. */
  function Replay(log: seq<Event>): Occupancy
    decreases |log|
  {
    if log == [] then Vacant else Step(Replay(log[..|log| - 1]), log[|log| - 1])
  }

  lemma ReplayAppend(log: seq<Event>, e: Event)
    ensures Replay(log + [e]) == Step(Replay(log), e)
  {
    assert (log + [e])[..|log|] == log;
  }

  function Constructions(log: seq<Event>): nat
    decreases |log|
  {
    if log == [] then 0
    else Constructions(log[..|log| - 1]) + (if log[|log| - 1].Constructed? then 1 else 0)
  }

  function Destructions(log: seq<Event>): nat
    decreases |log|
  {
    if log == [] then 0
    else Destructions(log[..|log| - 1]) + (if log[|log| - 1].Destroyed? then 1 else 0)
  }

  /** In a history that never went wrong, every object constructed is
      destroyed exactly once, except the one still live. */
  lemma {:induction false} ReplayBalanced(log: seq<Event>)
    requires Replay(log) != Corrupt
    ensures Constructions(log) == Destructions(log) + (if Replay(log).Occupied? then 1 else 0)
    decreases |log|
  {
    if log != [] {
      var prefix := log[..|log| - 1];
      assert Replay(prefix) != Corrupt;
      ReplayBalanced(prefix);
    }
  }

  /** The counts are additive over concatenated histories. */
  lemma {:induction false} CountsAppend(log: seq<Event>, more: seq<Event>)
    ensures Constructions(log + more) == Constructions(log) + Constructions(more)
    ensures Destructions(log + more) == Destructions(log) + Destructions(more)
    decreases |more|
  {
    if more == [] {
      assert log + more == log;
    } else {
      var init := more[..|more| - 1];
      CountsAppend(log, init);
      assert (log + more)[..|log + more| - 1] == log + init;
    }
  }
}
