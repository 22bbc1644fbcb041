/** The pool of readers that all consumers draw from and give back to. */
module ReaderPools {
  import opened TextMachine
  import opened Readers

  class ReaderPool {
    var free: seq<Reader>

    /** Every pooled reader is fully reset, and none is in the pool twice. */
    ghost predicate Valid()
      reads this, free, set r | r in free :: r.buf
    {
      && (forall r :: r in free ==> r.Valid() && r.src == FRESH)
      && (forall i, j :: 0 <= i < j < |free| ==> free[i] != free[j])
    }

    constructor ()
      ensures Valid() && free == []
    {
      free := [];
    }

    /** Any pooled reader, or a new one: a sync.Pool promises no order and may forget its items. */
    method Get() returns (r: Reader)
      requires Valid()
      modifies this
      ensures Valid() && r.Valid() && r.src == FRESH && r !in free
      ensures r in old(free) || (fresh(r) && fresh(r.buf))
      ensures forall s :: s in free ==> s in old(free)
    {
      var pick: int := *;
      if 0 <= pick < |free| {
        r := free[pick];
        free := free[..pick] + free[pick + 1..];
      } else {
        r := new Reader();
      }
    }

    method Put(r: Reader)
      modifies `free
      ensures free == old(free) + [r]
    {
      free := free + [r];
    }
  }
}
