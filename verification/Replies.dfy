// What a worker learns of a statement that it sent, and what a batch loop makes of it.
module Replies {

  // A lost reply reads as a failure, whether or not the statement took effect.
  datatype Reply = Answered | LostAfterCommit | LostBeforeCommit

  // In a loop whose catch block sends an update, the i-th turn throws when it did not succeed and
  // that update is not answered.
  predicate Throws(flags: seq<bool>, replies: nat -> Reply, i: nat)
    requires i < |flags|
  {
    !flags[i] && replies(i) != Answered
  }

  predicate NoneThrows(flags: seq<bool>, replies: nat -> Reply) {
    forall i :: 0 <= i < |flags| ==> !Throws(flags, replies, i)
  }

  // The loop goes on to the next of its items exactly while no turn throws.
  predicate StopsRightly(flags: seq<bool>, replies: nat -> Reply, items: nat, thrown: bool) {
    && |flags| <= items
    && (forall i :: 0 <= i < |flags| - 1 ==> !Throws(flags, replies, i))
    && (thrown <==> flags != [] && Throws(flags, replies, |flags| - 1))
    && (!thrown ==> |flags| == items)
  }

  lemma StopsNext(flags: seq<bool>, done: bool, replies: nat -> Reply, items: nat, thrown: bool)
    requires NoneThrows(flags, replies) && |flags| < items
    requires thrown <==> !done && replies(|flags|) != Answered
    ensures if thrown then StopsRightly(flags + [done], replies, items, true)
            else NoneThrows(flags + [done], replies)
  {
    forall i | 0 <= i < |flags|
      ensures !Throws(flags + [done], replies, i)
    {
      assert !Throws(flags, replies, i);
    }
  }

  lemma StopsAtTheEnd(flags: seq<bool>, replies: nat -> Reply)
    requires NoneThrows(flags, replies)
    ensures StopsRightly(flags, replies, |flags|, false)
  {
  }

  /** A round ends early exactly when a turn that did not succeed could not record that either, and
      then with that turn. */
  lemma EndsEarlyExactlyWhen(flags: seq<bool>, replies: nat -> Reply, items: nat, thrown: bool)
    requires StopsRightly(flags, replies, items, thrown)
    ensures thrown <==> exists i :: 0 <= i < |flags| && !flags[i] && replies(i) in {LostAfterCommit, LostBeforeCommit}
    ensures |flags| < items ==> thrown
    ensures forall i :: 0 <= i < |flags| - 1 ==> flags[i] || replies(i) == Answered
  {
    if thrown {
      assert Throws(flags, replies, |flags| - 1);
    }
    forall i | 0 <= i < |flags| - 1
      ensures flags[i] || replies(i) == Answered
    {
      assert !Throws(flags, replies, i);
    }
  }
}
