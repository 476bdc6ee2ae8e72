// Counting successes, as the batch loops do.
module Flags {

  function CountTrue(flags: seq<bool>): nat {
    if flags == [] then 0 else CountTrue(flags[..|flags| - 1]) + if flags[|flags| - 1] then 1 else 0
  }

  lemma CountNext(flags: seq<bool>, flag: bool)
    ensures CountTrue(flags + [flag]) == CountTrue(flags) + if flag then 1 else 0
  {
    assert (flags + [flag])[..|flags|] == flags;
  }
}
