/** The event-loop group (src/network/group.hpp): descriptors are spread over the loops by a
    cursor that persists between registrations. */
module LoopGroup {
  import opened Basics
  import opened DivMod

  class LoopThreadGroup {
    const loops: Pos           // size of dmpes_
    var cursor: nat            // iter_
    var registered: seq<int>   // loop chosen by each registration, in order

    /** Registration k has gone to loop k mod n, and the cursor is where the next one goes. */
    ghost predicate Valid()
      reads this
    {
      && cursor == |registered| % loops
      && forall k :: 0 <= k < |registered| ==> registered[k] == k % loops
    }

    constructor (n: Pos)
      ensures Valid() && loops == n && registered == []
    {
      loops, cursor, registered := n, 0, [];
    }

    method RegisterFd() returns (loop: nat)
      requires Valid()
      modifies this
      ensures Valid() && loop == old(|registered|) % loops
      ensures registered == old(registered) + [loop]
    {
      CountStep(|registered|, loops);
      loop := cursor;
      cursor := cursor + 1;
      if cursor == loops {
        cursor := 0;
      }
      registered := registered + [loop];
    }
  }

  /** How many of the registrations went to loop `j`. */
  function CountOf(registered: seq<int>, j: nat): nat {
    if |registered| == 0 then 0
    else CountOf(registered[..|registered| - 1], j) + if registered[|registered| - 1] == j then 1 else 0
  }

  lemma {:induction false} CountIsShare(registered: seq<int>, n: nat, j: nat)
    requires j < n && forall k :: 0 <= k < |registered| ==> registered[k] == k % n
    ensures CountOf(registered, j) == Share(|registered|, n, j)
  {
    if |registered| > 0 {
      CountIsShare(registered[..|registered| - 1], n, j);
    }
  }

  /** After any number of registrations no two loops differ by more than one. */
  lemma LoopsWithinOne(registered: seq<int>, n: nat, i: nat, j: nat)
    requires i < n && j < n && forall k :: 0 <= k < |registered| ==> registered[k] == k % n
    ensures -1 <= CountOf(registered, i) - CountOf(registered, j) <= 1
    ensures CountOf(registered, j) == (|registered| + n - 1 - j) / n
  {
    CountIsShare(registered, n, i);
    CountIsShare(registered, n, j);
    ShareIs(|registered|, n, i);
    ShareIs(|registered|, n, j);
  }
}
