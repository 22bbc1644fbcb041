/**
 * All connections of the process with the pool their readers come from. A reader is held by one
 * slot of one consumer or lies in the pool once, fully reset.
 */
module Connections {
  import opened TextMachine
  import opened Readers
  import opened ReaderPools
  import opened Consumers

  /** Two consumers never hold the same reader. */
  ghost predicate Apart(c: Consumer, d: Consumer)
    reads c, d
  {
    && c != d
    && (c.client != null ==> c.client != d.client && c.client != d.server)
    && (c.server != null ==> c.server != d.client && c.server != d.server)
  }

  ghost predicate Settled(c: Consumer, pool: ReaderPool)
    reads c, c.client, if c.client == null then {} else {c.client.buf}
    reads c.server, if c.server == null then {} else {c.server.buf}
    reads pool
  {
    c.pool == pool && c.Valid() && c.client !in pool.free && c.server !in pool.free
  }

  /** Everything that a consumer may change, apart from the pool. */
  ghost function Footprint(c: Consumer): set<object>
    reads c
  {
    {c} + Objects(c.client) + Objects(c.server)
  }

  lemma Distinct(c: Consumer, d: Consumer)
    requires c.Valid() && d.Valid() && (Apart(c, d) || Apart(d, c))
    ensures Footprint(c) !! Footprint(d)
  {
  }

  lemma AddApart(cs: seq<Consumer>, c: Consumer)
    requires forall i, j :: 0 <= i < j < |cs| ==> Apart(cs[i], cs[j])
    requires forall i :: 0 <= i < |cs| ==> Apart(cs[i], c)
    ensures forall i, j :: 0 <= i < j < |cs + [c]| ==> Apart((cs + [c])[i], (cs + [c])[j])
  {
  }

  class Connections {
    const pool: ReaderPool
    var consumers: seq<Consumer>

    ghost predicate Valid()
      reads *
    {
      && pool.Valid()
      && (forall i :: 0 <= i < |consumers| ==> Settled(consumers[i], pool))
      && (forall i, j :: 0 <= i < j < |consumers| ==> Apart(consumers[i], consumers[j]))
    }

    constructor ()
      ensures Valid() && consumers == []
    {
      pool := new ReaderPool();
      consumers := [];
    }

    method Open()
      requires Valid()
      modifies this, pool
      ensures Valid() && |consumers| == |old(consumers)| + 1 && consumers[..|old(consumers)|] == old(consumers)
      ensures consumers[|old(consumers)|].View() == NEW
    {
      var c := Create();
      AddApart(consumers, c);
      consumers := consumers + [c];
    }

    method Create() returns (c: Consumer)
      requires Valid()
      modifies pool
      ensures pool.Valid() && Settled(c, pool) && c.View() == NEW
      ensures forall i :: 0 <= i < |consumers| ==> Settled(consumers[i], pool)
      ensures forall i, j :: 0 <= i < j < |consumers| ==> Apart(consumers[i], consumers[j])
      ensures forall i :: 0 <= i < |consumers| ==> Apart(consumers[i], c)
    {
      c := new Consumer(pool);
      forall i | 0 <= i < |consumers|
        ensures Settled(consumers[i], pool) && Apart(consumers[i], c)
      {
        assert old(Settled(consumers[i], pool));
      }
    }

    /** Consumer i and its readers are all that has changed, apart from readers that went to the pool. */
    twostate predicate OnlyChanged(i: nat)
      requires i < |old(consumers)|
      reads *
    {
      && consumers == old(consumers)
      && consumers[i].Valid() && consumers[i].Released()
      && (forall r :: r in old(pool.free) ==> r.src == old(r.src) && r.Valid())
      && (forall j :: 0 <= j < |consumers| && j != i ==>
            && consumers[j].client == old(consumers[j].client) && consumers[j].server == old(consumers[j].server)
            && consumers[j].Valid() && consumers[j].View() == old(consumers[j].View()))
    }

    twostate lemma PoolKept(i: nat)
      requires old(Valid()) && i < |old(consumers)| && OnlyChanged(i)
      ensures pool.Valid() && consumers[i].client !in pool.free && consumers[i].server !in pool.free
    {
      var c := consumers[i];
      assert old(Settled(c, pool));
    }

    twostate lemma OthersApart(i: nat)
      requires old(Valid()) && i < |old(consumers)| && OnlyChanged(i)
      ensures forall j :: 0 <= j < |consumers| && j != i ==>
                Apart(consumers[i], consumers[j]) && Apart(consumers[j], consumers[i])
    {
      var c := consumers[i];
      forall j | 0 <= j < |consumers| && j != i
        ensures Apart(c, consumers[j]) && Apart(consumers[j], c)
      {
        assert old(Apart(c, consumers[j])) || old(Apart(consumers[j], c));
      }
    }

    twostate lemma OthersSettled(i: nat)
      requires old(Valid()) && i < |old(consumers)| && OnlyChanged(i)
      ensures forall j :: 0 <= j < |consumers| ==> Settled(consumers[j], pool)
    {
      var c := consumers[i];
      assert old(Settled(c, pool));
      forall j | 0 <= j < |consumers|
        ensures Settled(consumers[j], pool)
      {
        assert old(Settled(consumers[j], pool));
        assert j != i ==> old(Apart(c, consumers[j])) || old(Apart(consumers[j], c));
      }
    }

    /** Whatever consumer i did to its own readers, the others and the pool are as they should be. */
    twostate lemma OthersKept(i: nat)
      requires old(Valid()) && i < |old(consumers)| && OnlyChanged(i)
      ensures Valid()
    {
      PoolKept(i);
      OthersApart(i);
      OthersSettled(i);
    }

    lemma AllDistinct(i: nat)
      requires Valid() && i < |consumers|
      ensures forall j :: 0 <= j < |consumers| && j != i ==> Footprint(consumers[i]) !! Footprint(consumers[j])
    {
      forall j | 0 <= j < |consumers| && j != i
        ensures Footprint(consumers[i]) !! Footprint(consumers[j])
      {
        Distinct(consumers[i], consumers[j]);
      }
    }

    method ClientReassembled(i: nat, rs: seq<Segment>)
      requires Valid() && i < |consumers|
      modifies consumers[i], Objects(consumers[i].client), Objects(consumers[i].server), pool
      ensures Valid() && consumers[i].View() == FeedClientAll(old(consumers[i].View()), rs)
      ensures forall j :: 0 <= j < |consumers| && j != i ==> consumers[j].View() == old(consumers[j].View())
    {
      var c := consumers[i];
      AllDistinct(i);
      c.ClientReassembled(rs);
      forall j | 0 <= j < |consumers| && j != i
        ensures consumers[j].Valid() && consumers[j].View() == old(consumers[j].View())
      {
        assert old(Settled(consumers[j], pool)) && old(Footprint(c)) !! old(Footprint(consumers[j]));
      }
      OthersKept(i);
    }

    method ServerReassembled(i: nat, rs: seq<Segment>)
      requires Valid() && i < |consumers|
      modifies consumers[i], Objects(consumers[i].client), Objects(consumers[i].server), pool
      ensures Valid() && consumers[i].View() == FeedServerAll(old(consumers[i].View()), rs)
      ensures forall j :: 0 <= j < |consumers| && j != i ==> consumers[j].View() == old(consumers[j].View())
    {
      var c := consumers[i];
      AllDistinct(i);
      c.ServerReassembled(rs);
      forall j | 0 <= j < |consumers| && j != i
        ensures consumers[j].Valid() && consumers[j].View() == old(consumers[j].View())
      {
        assert old(Settled(consumers[j], pool)) && old(Footprint(c)) !! old(Footprint(consumers[j]));
      }
      OthersKept(i);
    }

    method ClientComplete(i: nat)
      requires Valid() && i < |consumers|
      modifies consumers[i], Objects(consumers[i].client), pool
      ensures Valid() && consumers[i].View() == old(consumers[i].View()).(client := EofSource)
      ensures forall j :: 0 <= j < |consumers| && j != i ==> consumers[j].View() == old(consumers[j].View())
    {
      var c := consumers[i];
      AllDistinct(i);
      c.ClientComplete();
      forall j | 0 <= j < |consumers| && j != i
        ensures consumers[j].Valid() && consumers[j].View() == old(consumers[j].View())
      {
        assert old(Settled(consumers[j], pool)) && old(Footprint(c)) !! old(Footprint(consumers[j]));
      }
      OthersKept(i);
    }

    method ServerComplete(i: nat)
      requires Valid() && i < |consumers|
      modifies consumers[i], Objects(consumers[i].server), pool
      ensures Valid() && consumers[i].View() == old(consumers[i].View()).(server := EofSource)
      ensures forall j :: 0 <= j < |consumers| && j != i ==> consumers[j].View() == old(consumers[j].View())
    {
      var c := consumers[i];
      AllDistinct(i);
      c.ServerComplete();
      forall j | 0 <= j < |consumers| && j != i
        ensures consumers[j].Valid() && consumers[j].View() == old(consumers[j].View())
      {
        assert old(Settled(consumers[j], pool)) && old(Footprint(c)) !! old(Footprint(consumers[j]));
      }
      OthersKept(i);
    }
  }
}
