// What one routing-table build does, on values: which store identity each
// backend ends up with. The Router class is proved against it, and the guard's
// state machine takes it as its Swap step.
module RouterSpec {

  // A backend's client identity: two backends sharing it may share a client.
  datatype ClientKey = ClientKey(url: string, username: string, password: string)

  datatype Backend = Backend(name: string, key: ClientKey)

  // Stores by backend name, and by client identity.
  datatype Snapshot = Snapshot(clients: map<string, nat>, byKey: map<ClientKey, nat>)

  datatype Outcome = Built(snap: Snapshot, next: nat) | Failed(next: nat)

  const EMPTY: Snapshot := Snapshot(map[], map[])

  // One backend: share within this build, else carry over, else create.
  function BuildOne(b: Backend, prev: map<ClientKey, nat>, s: Snapshot, next: nat, accepted: bool): Outcome {
    if b.key in s.byKey then
      Built(s.(clients := s.clients[b.name := s.byKey[b.key]]), next)
    else if b.key in prev then
      Built(Snapshot(s.clients[b.name := prev[b.key]], s.byKey[b.key := prev[b.key]]), next)
    else if !accepted then
      Failed(next)
    else
      Built(Snapshot(s.clients[b.name := next + 1], s.byKey[b.key := next + 1]), next + 1)
  }

  // accepts(i) is whether the client factory succeeds for the i-th backend.
  function Build(backends: seq<Backend>, prev: map<ClientKey, nat>, next: nat, accepts: nat -> bool): Outcome {
    if backends == [] then Built(EMPTY, next)
    else
      var n := |backends| - 1;
      match Build(backends[..n], prev, next, accepts)
      case Failed(x) => Failed(x)
      case Built(s, x) => BuildOne(backends[n], prev, s, x, accepts(n))
  }

  ghost function KeysOf(backends: seq<Backend>): set<ClientKey> {
    set b | b in backends :: b.key
  }

  ghost function NamesOf(backends: seq<Backend>): set<string> {
    set b | b in backends :: b.name
  }

  // A validated table names every backend once.
  ghost predicate UniqueNames(backends: seq<Backend>) {
    forall i, j :: 0 <= i < j < |backends| ==> backends[i].name != backends[j].name
  }

  lemma Listed(backends: seq<Backend>)
    ensures forall i :: 0 <= i < |backends| ==>
              backends[i].key in KeysOf(backends) && backends[i].name in NamesOf(backends)
  {
    forall i | 0 <= i < |backends|
      ensures backends[i].key in KeysOf(backends) && backends[i].name in NamesOf(backends)
    {
      assert backends[i] in backends;
    }
  }

  lemma SplitLast(backends: seq<Backend>)
    requires backends != []
    ensures var shorter, last := backends[..|backends| - 1], backends[|backends| - 1];
            && KeysOf(backends) == KeysOf(shorter) + {last.key}
            && NamesOf(backends) == NamesOf(shorter) + {last.name}
            && (UniqueNames(backends) ==> UniqueNames(shorter) && last.name !in NamesOf(shorter))
  {
    var shorter, last := backends[..|backends| - 1], backends[|backends| - 1];
    assert backends == shorter + [last];
    assert forall b :: b in backends <==> b in shorter || b == last;
  }

  ghost predicate Injective(m: map<ClientKey, nat>) {
    forall k, k' :: k in m && k' in m && k != k' ==> m[k] != m[k']
  }

  ghost predicate Bounded(m: map<ClientKey, nat>, next: nat) {
    forall k :: k in m ==> m[k] <= next
  }

  lemma {:induction false} FailurePersists(backends: seq<Backend>, i: nat, prev: map<ClientKey, nat>, next: nat, accepts: nat -> bool)
    requires i <= |backends|
    requires Build(backends[..i], prev, next, accepts).Failed?
    ensures Build(backends, prev, next, accepts) == Build(backends[..i], prev, next, accepts)
    decreases |backends| - i
  {
    if i == |backends| {
      assert backends[..i] == backends;
    } else {
      assert backends[..i + 1][..i] == backends[..i];
      FailurePersists(backends, i + 1, prev, next, accepts);
    }
  }

  // Stores of kept identities are carried over; the rest are new, and distinct.
  ghost predicate Allocated(m: map<ClientKey, nat>, prev: map<ClientKey, nat>, next: nat, x: nat) {
    && Injective(m) && Bounded(m, x)
    && (forall k :: k in m && k in prev ==> m[k] == prev[k])
    && (forall k :: k in m && k !in prev ==> next < m[k] <= x)
  }

  lemma BuildOneAllocates(b: Backend, prev: map<ClientKey, nat>, s: Snapshot, x: nat, accepted: bool, next: nat)
    requires Injective(prev) && Bounded(prev, next) && next <= x
    requires Allocated(s.byKey, prev, next, x)
    ensures BuildOne(b, prev, s, x, accepted).next >= x
    ensures var o := BuildOne(b, prev, s, x, accepted);
            o.Built? ==> Allocated(o.snap.byKey, prev, next, o.next)
  {
  }

  // A build never reuses a store id it did not carry over, and never lets the
  // counter go back, whether it succeeds or fails.
  lemma {:induction false} BuildAllocates(backends: seq<Backend>, prev: map<ClientKey, nat>, next: nat, accepts: nat -> bool)
    requires Injective(prev) && Bounded(prev, next)
    ensures Build(backends, prev, next, accepts).next >= next
    ensures match Build(backends, prev, next, accepts)
            case Failed(_) => true
            case Built(s, x) => Allocated(s.byKey, prev, next, x)
  {
    if backends != [] {
      var n := |backends| - 1;
      BuildAllocates(backends[..n], prev, next, accepts);
      if Build(backends[..n], prev, next, accepts).Built? {
        var shorter := Build(backends[..n], prev, next, accepts);
        BuildOneAllocates(backends[n], prev, shorter.snap, shorter.next, accepts(n), next);
      }
    }
  }

  // The snapshot holds exactly the table's identities, and every backend is
  // served by the store of its own identity.
  ghost predicate Serves(s: Snapshot, backends: seq<Backend>) {
    && s.byKey.Keys == KeysOf(backends)
    && s.clients.Keys == NamesOf(backends)
    && forall i :: 0 <= i < |backends| ==>
         && backends[i].name in s.clients && backends[i].key in s.byKey
         && s.clients[backends[i].name] == s.byKey[backends[i].key]
  }

  lemma {:induction false} BuildOneServes(backends: seq<Backend>, b: Backend, prev: map<ClientKey, nat>, s: Snapshot, next: nat, accepted: bool)
    requires UniqueNames(backends + [b]) && Serves(s, backends)
    requires BuildOne(b, prev, s, next, accepted).Built?
    ensures Serves(BuildOne(b, prev, s, next, accepted).snap, backends + [b])
  {
    hide KeysOf, NamesOf;
    var s' := BuildOne(b, prev, s, next, accepted).snap;
    SplitLast(backends + [b]);
    assert (backends + [b])[..|backends|] == backends;
    Listed(backends);
    forall i | 0 <= i < |backends|
      ensures s'.clients[backends[i].name] == s'.byKey[backends[i].key]
    {
    }
  }

  lemma ServesNothing()
    ensures Serves(EMPTY, []) && KeysOf([]) == {}
  {
  }

  lemma {:induction false} BuildServes(backends: seq<Backend>, prev: map<ClientKey, nat>, next: nat, accepts: nat -> bool)
    requires UniqueNames(backends)
    requires Build(backends, prev, next, accepts).Built?
    ensures Serves(Build(backends, prev, next, accepts).snap, backends)
  {
    hide KeysOf, NamesOf, Serves, BuildOne, UniqueNames;
    if backends == [] {
      ServesNothing();
    } else {
      var n := |backends| - 1;
      SplitLast(backends);
      BuildServes(backends[..n], prev, next, accepts);
      var shorter := Build(backends[..n], prev, next, accepts);
      assert backends == backends[..n] + [backends[n]];
      BuildOneServes(backends[..n], backends[n], prev, shorter.snap, shorter.next, accepts(n));
    }
  }

  // Two backends of one table share a store exactly when their identities agree.
  lemma SharesStoreIff(backends: seq<Backend>, prev: map<ClientKey, nat>, next: nat, accepts: nat -> bool, i: nat, j: nat)
    requires UniqueNames(backends) && Injective(prev) && Bounded(prev, next)
    requires Build(backends, prev, next, accepts).Built?
    requires i < |backends| && j < |backends|
    ensures var s := Build(backends, prev, next, accepts).snap;
            && backends[i].name in s.clients && backends[j].name in s.clients
            && (s.clients[backends[i].name] == s.clients[backends[j].name] <==> backends[i].key == backends[j].key)
  {
    hide KeysOf, NamesOf;
    BuildServes(backends, prev, next, accepts);
    BuildAllocates(backends, prev, next, accepts);
  }

  // The i-th backend is the first of an identity the live snapshot lacks.
  ghost predicate NeedsClient(backends: seq<Backend>, prev: map<ClientKey, nat>, i: nat)
    requires i < |backends|
  {
    backends[i].key !in prev && backends[i].key !in KeysOf(backends[..i])
  }

  // A build fails exactly when the factory refuses a client it needs.
  lemma {:induction false} FailsIff(backends: seq<Backend>, prev: map<ClientKey, nat>, next: nat, accepts: nat -> bool)
    ensures Build(backends, prev, next, accepts).Failed? <==>
              exists i: nat :: i < |backends| && NeedsClient(backends, prev, i) && !accepts(i)
    ensures Build(backends, prev, next, accepts).Built? ==>
              Build(backends, prev, next, accepts).snap.byKey.Keys == KeysOf(backends)
  {
    hide KeysOf, NamesOf;
    ServesNothing();
    if backends != [] {
      var n := |backends| - 1;
      var shorter := backends[..n];
      FailsIff(shorter, prev, next, accepts);
      SplitLast(backends);
      forall i: nat | i < n ensures NeedsClient(backends, prev, i) <==> NeedsClient(shorter, prev, i) {
        assert backends[..i] == shorter[..i];
      }
      if Build(shorter, prev, next, accepts).Failed? {
        var i: nat :| i < n && NeedsClient(shorter, prev, i) && !accepts(i);
        assert NeedsClient(backends, prev, i);
      }
    }
  }
}
