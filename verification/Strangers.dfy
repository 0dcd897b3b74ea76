/** Names for as many strangers as a run needs, none of them short. */
module Strangers {
  import opened Ordered

  /** Each stranger has a name of its own, longer than one letter. */
  function Name(j: nat): (name: string)
    ensures |name| == j + 2
  {
    if j == 0 then "bb" else Name(j - 1) + "b"
  }

  function Names(n: nat): seq<string> {
    if n == 0 then [] else Names(n - 1) + [Name(n - 1)]
  }

  lemma {:induction false} NamesCount(n: nat)
    ensures |Names(n)| == n
  {
    if n > 0 {
      NamesCount(n - 1);
    }
  }

  lemma {:induction false} NamesAreLong(n: nat, name: string)
    requires name in KeySet(Names(n))
    ensures 2 <= |name| < n + 2
  {
    if n > 0 {
      KeySetSplits(Names(n - 1), [Name(n - 1)]);
      if name in KeySet(Names(n - 1)) {
        NamesAreLong(n - 1, name);
      }
    }
  }
}
