/** The site's data plane as a whole: the pool of listeners and connections together with the bridges. */
module Sites {
  import opened Pools
  import opened Bridges
  import Shuttles

  class Site {
    const pool: DataPlane
    const bridges: Shuttles.Shuttle

    /** Both see the same connections and the same sockets. */
    ghost predicate Valid()
      reads this, pool, bridges
    {
      pool.Valid() && bridges.Valid() && bridges.conns.Keys == pool.conns.Keys && bridges.sockets == pool.sockets
    }

    constructor ()
      ensures Valid() && fresh(pool) && fresh(bridges) && pool.listeners == [] && pool.conns == map[]
    {
      pool := new DataPlane();
      bridges := new Shuttles.Shuttle();
    }

    /** Every connection without a bridge gets a new one. */
    method Adopt()
      requires pool.Valid() && bridges.Valid() && bridges.conns.Keys <= pool.conns.Keys
      modifies bridges
      ensures Valid()
      ensures bridges.conns == Adopted(pool.conns.Keys, old(bridges.conns))
    {
      hide Inv;
      NewBridgeInv();
      bridges.conns := map h | h in pool.conns.Keys :: if h in bridges.conns then bridges.conns[h] else NewBridge();
      bridges.sockets := pool.sockets;
    }

    /**
      One round: active listeners become connections with new bridges, every bridge is served, and the
      closed ones go. Live sockets stay the disjoint union of listeners and connections, each
      connection keeps its bridge and its target, and the multiset of (port, target) stays.
    */
    method Round(active: Handle -> bool, sock: Handle -> Socket)
      requires Valid()
      modifies pool, bridges
      ensures Valid()
      ensures multiset(Pairs(pool.listeners)) == multiset(Pairs(old(pool.listeners)))
      ensures OnePerPort(old(pool.listeners)) ==> OnePerPort(pool.listeners)
      ensures forall h :: h in pool.conns ==>
                if h in old(pool.conns) then pool.conns[h] == old(pool.conns)[h]
                else h in Handles(old(pool.listeners)) && active(h)
      ensures forall h :: h in pool.conns ==>
                bridges.conns[h] == Serve(if h in old(bridges.conns) then old(bridges.conns)[h] else NewBridge(), sock(h))
      ensures forall h :: h in old(pool.conns) && h !in pool.conns ==> !Serve(old(bridges.conns)[h], sock(h)).open
    {
      hide Inv, Serve, Pairs, OnePerPort;
      pool.AcceptNew(active);
      Adopt();
      bridges.Pump(sock);
      pool.Reap(pool.conns.Keys - bridges.conns.Keys);
    }
  }

  /** The bridges of these connections: the old ones, and new ones for the others. */
  ghost function Adopted(hs: set<Handle>, old': map<Handle, Bridge>): (r: map<Handle, Bridge>) {
    map h | h in hs :: if h in old' then old'[h] else NewBridge()
  }

  lemma NewBridgeInv()
    ensures Inv(NewBridge()) && !NewBridge().permit
  {}
}
