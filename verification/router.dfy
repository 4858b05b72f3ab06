// The router that holds the live snapshot: it builds the clients a new table
// needs, moves the snapshot only when all of them exist, and releases what no
// longer serves.
module Routers {
  import opened RouterSpec

  // An upstream client; released says whether its connection pool was let go.
  class Client {
    const key: ClientKey
    var released: bool

    constructor (key: ClientKey)
      ensures this.key == key && !released
    {
      this.key := key;
      released := false;
    }
  }

  // The front of one store, created with its client and carried with it.
  class Guard {
    const store: nat
    const inner: Client

    constructor (store: nat, inner: Client)
      ensures this.store == store && this.inner == inner
    {
      this.store := store;
      this.inner := inner;
    }
  }

  // One immutable routing snapshot, replaced wholesale.
  datatype RouterState = RouterState(table: seq<Backend>, clients: map<string, Guard>, byKey: map<ClientKey, Guard>)

  function StoresByKey(m: map<ClientKey, Guard>): map<ClientKey, nat> {
    map k | k in m :: m[k].store
  }

  function StoresByName(m: map<string, Guard>): map<string, nat> {
    map n | n in m :: m[n].store
  }

  function Stores(s: RouterState): Snapshot {
    Snapshot(StoresByName(s.clients), StoresByKey(s.byKey))
  }

  lemma StoresUpdate(clients: map<string, Guard>, byKey: map<ClientKey, Guard>, b: Backend, g: Guard)
    ensures StoresByName(clients[b.name := g]) == StoresByName(clients)[b.name := g.store]
    ensures StoresByKey(byKey[b.key := g]) == StoresByKey(byKey)[b.key := g.store]
    ensures b.key in byKey <==> b.key in StoresByKey(byKey)
    ensures b.key in byKey ==> byKey[b.key].store == StoresByKey(byKey)[b.key]
  {
  }

  lemma KeysAgree(byKey: map<ClientKey, Guard>, prev: map<ClientKey, Guard>, k: ClientKey)
    ensures k in byKey <==> k in StoresByKey(byKey)
    ensures k in prev <==> k in StoresByKey(prev)
  {
  }

  lemma BuildNothing(table: seq<Backend>, prev: map<ClientKey, nat>, next: nat, accepts: nat -> bool)
    ensures Build(table[..0], prev, next, accepts) == Built(Snapshot(StoresByName(map[]), StoresByKey(map[])), next)
  {
    assert StoresByName(map[]) == map[] && StoresByKey(map[]) == map[];
  }

  lemma BuildExtends(table: seq<Backend>, i: nat, prev: map<ClientKey, nat>, next: nat, accepts: nat -> bool)
    requires i < |table|
    requires Build(table[..i], prev, next, accepts).Built?
    ensures var o := Build(table[..i], prev, next, accepts);
            Build(table[..i + 1], prev, next, accepts) == BuildOne(table[i], prev, o.snap, o.next, accepts(i))
  {
    assert table[..i + 1][..i] == table[..i];
  }

  ghost function ClientsOf(m: map<ClientKey, Guard>): set<Client> {
    set k | k in m :: m[k].inner
  }

  // Every guard fronts a client made for its own identity, and no two
  // identities share a client.
  ghost predicate Fronts(m: map<ClientKey, Guard>) {
    && (forall k :: k in m ==> m[k].inner.key == k)
    && Injective(StoresByKey(m))
  }

  class Router {
    var state: RouterState
    var nextStore: nat
    // Every client the factory ever returned.
    ghost var built: set<Client>

    // A client the factory returned either serves the live snapshot or has had
    // its pool released, and never both.
    ghost predicate Valid()
      reads this, built
    {
      && Fronts(state.byKey)
      && Bounded(StoresByKey(state.byKey), nextStore)
      && ClientsOf(state.byKey) <= built
      && forall c :: c in built ==> (c.released <==> c !in ClientsOf(state.byKey))
    }

    constructor ()
      ensures Valid() && state == RouterState([], map[], map[]) && nextStore == 0 && built == {}
    {
      state := RouterState([], map[], map[]);
      nextStore := 0;
      built := {};
    }

    // The first table of a router. On failure every client made is released
    // and the caller gets no router.
    static method New(table: seq<Backend>, accepts: nat -> bool) returns (r: Router?, ghost made: set<Client>)
      requires UniqueNames(table)
      ensures r == null <==> table == [] || Build(table, map[], 0, accepts).Failed?
      ensures r == null ==> forall c :: c in made ==> c.released
      ensures r != null ==> r.Valid() && r.state.table == table && r.built == made
      ensures r != null ==> Stores(r.state) == Build(table, map[], 0, accepts).snap
    {
      made := {};
      if table == [] {
        return null, made;
      }
      var router := new Router();
      assert StoresByKey(map[]) == map[];
      var ok, st, fresh1 := router.BuildState(table, map[], accepts);
      made := fresh1;
      if !ok {
        return null, made;
      }
      router.state := st;
      router.built := made;
      r := router;
    }

    // Replace the live table. Nothing an observer can see moves on failure.
    method Swap(table: seq<Backend>, accepts: nat -> bool) returns (ok: bool)
      requires Valid() && UniqueNames(table)
      modifies this, built
      ensures Valid() && built >= old(built) && fresh(built - old(built))
      ensures var outcome := Build(table, StoresByKey(old(state.byKey)), old(nextStore), accepts);
              && (ok <==> table != [] && outcome.Built?)
              && (table != [] ==> nextStore == outcome.next)
              && (ok ==> state.table == table && Stores(state) == outcome.snap)
      ensures !ok ==> state == old(state) && forall c :: c in old(built) ==> c.released == old(c.released)
      ensures ok ==> forall k :: k in state.byKey && k in old(state.byKey) ==> state.byKey[k] == old(state.byKey[k])
      ensures ok ==> forall c :: c in old(built) && !old(c.released) ==>
                       (c.released <==> c.key !in state.byKey)
    {
      if table == [] {
        return false;
      }
      var prev := state.byKey;
      var next: RouterState;
      ghost var fresh1: set<Client>;
      ok, next, fresh1 := BuildState(table, prev, accepts);
      BuildAllocates(table, StoresByKey(prev), old(nextStore), accepts);
      assert forall c :: c in fresh1 ==> c !in old(built);
      built := built + fresh1;
      if !ok {
        return;
      }
      state := next;
      ReleaseRetired(prev, next.byKey);
    }

    // Realise every client the table needs, reusing prev's wherever the
    // identity is unchanged; a failure releases the ones this build made.
    method BuildState(table: seq<Backend>, prev: map<ClientKey, Guard>, accepts: nat -> bool)
      returns (ok: bool, st: RouterState, ghost made: set<Client>)
      requires UniqueNames(table) && Fronts(prev) && Bounded(StoresByKey(prev), nextStore)
      modifies this`nextStore
      ensures fresh(made)
      ensures var outcome := Build(table, StoresByKey(prev), old(nextStore), accepts);
              && nextStore == outcome.next
              && (ok <==> outcome.Built?)
              && (ok ==> Stores(st) == outcome.snap)
      ensures ok ==> st.table == table && Fronts(st.byKey) && Bounded(StoresByKey(st.byKey), nextStore)
      ensures ok ==> Carried(prev, st.byKey, made)
      ensures forall c :: c in made ==> (c.released <==> !ok)
    {
      hide Build, Bounded, Injective, UniqueNames, StoresByKey, StoresByName;
      var clients: map<string, Guard>, byKey: map<ClientKey, Guard> := map[], map[];
      var freshClients: seq<Client> := [];
      made := {};
      ghost var prevIds, n0 := StoresByKey(prev), nextStore;
      var i := 0;
      BuildNothing(table, prevIds, n0, accepts);
      while i < |table|
        invariant 0 <= i <= |table|
        invariant Build(table[..i], prevIds, n0, accepts)
                  == Built(Snapshot(StoresByName(clients), StoresByKey(byKey)), nextStore)
        invariant Carried(prev, byKey, made)
        invariant forall k :: k in byKey ==> byKey[k].inner.key == k
        invariant fresh(made) && forall c :: c in made ==> !c.released
        invariant forall j :: 0 <= j < |freshClients| ==> freshClients[j] in made
        invariant forall c :: c in made ==> c in freshClients
      {
        var b := table[i];
        BuildExtends(table, i, prevIds, n0, accepts);
        if b.key in byKey {
          StoresUpdate(clients, byKey, b, byKey[b.key]);
          clients := clients[b.name := byKey[b.key]];
        } else if b.key in prev {
          StoresUpdate(clients, byKey, b, prev[b.key]);
          StoresUpdate(clients, prev, b, prev[b.key]);
          byKey := byKey[b.key := prev[b.key]];
          clients := clients[b.name := prev[b.key]];
        } else if !accepts(i) {
          KeysAgree(byKey, prev, b.key);
          FailurePersists(table, i + 1, prevIds, n0, accepts);
          CloseAll(freshClients);
          return false, RouterState([], map[], map[]), made;
        } else {
          var q := new Client(b.key);
          freshClients := freshClients + [q];
          made := made + {q};
          nextStore := nextStore + 1;
          var g := new Guard(nextStore, q);
          KeysAgree(byKey, prev, b.key);
          StoresUpdate(clients, byKey, b, g);
          byKey := byKey[b.key := g];
          clients := clients[b.name := g];
        }
        i := i + 1;
      }
      assert table[..i] == table;
      BuildAllocates(table, prevIds, n0, accepts);
      return true, RouterState(table, clients, byKey), made;
    }

    method CloseAll(cs: seq<Client>)
      modifies cs
      ensures forall j :: 0 <= j < |cs| ==> cs[j].released
    {
      for j := 0 to |cs|
        invariant forall m :: 0 <= m < j ==> cs[m].released
      {
        cs[j].released := true;
      }
    }

    // Release the clients whose identity the next snapshot no longer holds.
    method ReleaseRetired(prev: map<ClientKey, Guard>, next: map<ClientKey, Guard>)
      requires Fronts(prev)
      modifies ClientsOf(prev)
      ensures forall k :: k in prev ==> prev[k].inner.released == (old(prev[k].inner.released) || k !in next)
    {
      var todo := prev.Keys;
      while todo != {}
        invariant todo <= prev.Keys
        invariant forall k :: k in prev && k !in todo ==>
                    prev[k].inner.released == (old(prev[k].inner.released) || k !in next)
        invariant forall k :: k in todo ==> prev[k].inner.released == old(prev[k].inner.released)
        decreases todo
      {
        var key :| key in todo;
        if key !in next {
          prev[key].inner.released := true;
        }
        todo := todo - {key};
      }
    }
  }

  // What a build keeps from prev and what it makes: every made client serves
  // its own identity, which prev did not hold.
  ghost predicate Carried(prev: map<ClientKey, Guard>, byKey: map<ClientKey, Guard>, made: set<Client>) {
    && (forall k :: k in byKey ==> if k in prev then byKey[k] == prev[k] else byKey[k].inner in made)
    && (forall c :: c in made ==> c.key !in prev && c.key in byKey && byKey[c.key].inner == c)
  }
}
