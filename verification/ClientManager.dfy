/** The reference-counted cache of backup clients, as in pkg/service/client_manager.go. */
module ClientManager {
  import opened Wrappers

  /** Identities of cluster configurations and of clients (pointers in the program). */
  type Cluster = nat
  type Client = nat

  datatype ClientInfo = ClientInfo(client: Client, count: int)

  /** The cache, and how often each client's connection has been closed. */
  datatype Cache = Cache(clients: map<Cluster, ClientInfo>, closed: multiset<Client>)

  /** Different entries hold different clients. */
  predicate Distinct(clients: map<Cluster, ClientInfo>) {
    forall a, b :: a in clients && b in clients && clients[a].client == clients[b].client ==> a == b
  }

  predicate Holds(clients: map<Cluster, ClientInfo>, client: Client) {
    exists k :: k in clients && clients[k].client == client
  }

  /** Handing out the cached client of a cluster, or the one just created. */
  function Got(c: Cache, cluster: Cluster, created: Option<Client>): (Cache, Option<Client>) {
    if cluster in c.clients then
      var info := c.clients[cluster];
      (c.(clients := c.clients[cluster := info.(count := info.count + 1)]), Some(info.client))
    else if created.None? then (c, None)
    else (c.(clients := c.clients[cluster := ClientInfo(created.value, 1)]), created)
  }

  /** Giving back the client held by entry `k`. */
  function Released(c: Cache, k: Cluster): Cache
    requires k in c.clients
  {
    var info := c.clients[k];
    if info.count - 1 == 0 then Cache(c.clients - {k}, c.closed + multiset{info.client})
    else c.(clients := c.clients[k := info.(count := info.count - 1)])
  }

  /** `d` is the cache after closing `client`: its entry is released, or, if there is none, the client is closed. */
  ghost predicate Closes(c: Cache, client: Client, d: Cache) {
    if Holds(c.clients, client) then exists k :: k in c.clients && c.clients[k].client == client && d == Released(c, k)
    else d == c.(closed := c.closed + multiset{client})
  }

  class ClientManagerImpl {
    var clients: map<Cluster, ClientInfo>
    var closed: multiset<Client>

    function Contents(): Cache
      reads this
    {
      Cache(clients, closed)
    }

    constructor ()
      ensures Contents() == Cache(map[], multiset{})
    {
      clients, closed := map[], multiset{};
    }

    /** `created` is what connecting to the cluster yields, if it comes to that. */
    method GetClient(cluster: Cluster, created: Option<Client>) returns (client: Option<Client>)
      modifies this
      ensures (Contents(), client) == Got(old(Contents()), cluster, created)
      ensures closed == old(closed)
      ensures cluster in old(clients) ==>
                && client == Some(old(clients)[cluster].client)
                && clients == old(clients)[cluster := ClientInfo(old(clients)[cluster].client, old(clients)[cluster].count + 1)]
      ensures cluster !in old(clients) ==> client == created
      ensures cluster !in old(clients) && created.Some? ==> clients == old(clients)[cluster := ClientInfo(created.value, 1)]
      ensures cluster !in old(clients) && created.None? ==> clients == old(clients)
    {
      if cluster in clients {
        var info := clients[cluster];
        clients := clients[cluster := info.(count := info.count + 1)];
        return Some(info.client);
      }
      if created.None? {
        return None;
      }
      clients := clients[cluster := ClientInfo(created.value, 1)];
      return created;
    }

    /** Looks through the entries in an arbitrary order. */
    method Close(client: Client)
      modifies this
      ensures Closes(old(Contents()), client, Contents())
      ensures (forall k :: k in old(clients) ==> old(clients)[k].client != client) ==>
                clients == old(clients) && closed == old(closed) + multiset{client}
      ensures (exists k :: k in old(clients) && old(clients)[k].client == client) ==>
                exists k :: k in old(clients) && old(clients)[k].client == client
                  && (if old(clients)[k].count == 1 then clients == old(clients) - {k} && closed == old(closed) + multiset{client}
                      else clients == old(clients)[k := ClientInfo(client, old(clients)[k].count - 1)] && closed == old(closed))
    {
      var ids := clients.Keys;
      while ids != {}
        invariant ids <= clients.Keys
        invariant unchanged(this)
        invariant forall k :: k in clients && k !in ids ==> clients[k].client != client
        decreases ids
      {
        var id :| id in ids;
        var info := clients[id];
        if info.client == client {
          if info.count - 1 == 0 {
            closed := closed + multiset{info.client};
            clients := clients - {id};
          } else {
            clients := clients[id := info.(count := info.count - 1)];
          }
          assert Contents() == Released(old(Contents()), id);
          return;
        }
        ids := ids - {id};
      }
      closed := closed + multiset{client};
    }
  }

  // ----- whole traces of calls -----

  datatype Op = Get(cluster: Cluster, created: Option<Client>) | Close(client: Client)

  /** A cache together with what its users have done: the Gets not yet matched by a Close, and
      the clients created so far with the clusters they were created for. */
  datatype Trace = Trace(cache: Cache, outstanding: multiset<Client>, created: map<Client, Cluster>)

  function Start(): Trace {
    Trace(Cache(map[], multiset{}), multiset{}, map[])
  }

  /** Creating a client yields a new one. */
  predicate Possible(t: Trace, op: Op) {
    op.Get? && op.created.Some? ==> op.created.value !in t.created && op.created.value !in t.cache.closed
  }

  /** A client of the cache is closed only by someone who holds it. */
  predicate Matched(t: Trace, op: Op) {
    op.Close? ==> op.client in t.outstanding || op.client !in t.created
  }

  ghost predicate Next(t: Trace, op: Op, u: Trace) {
    && Possible(t, op)
    && match op
       case Get(cluster, created) =>
         var (cache, client) := Got(t.cache, cluster, created);
         && u.cache == cache
         && u.outstanding == (if client.Some? then t.outstanding + multiset{client.value} else t.outstanding)
         && u.created == (if cluster !in t.cache.clients && created.Some? then t.created[created.value := cluster] else t.created)
       case Close(client) =>
         && Closes(t.cache, client, u.cache)
         && u.outstanding == t.outstanding - multiset{client}
         && u.created == t.created
  }

  /** `u` results from the operations in order, each Close matched by an earlier Get. */
  ghost predicate Reaches(ops: seq<Op>, u: Trace)
    decreases |ops|
  {
    if ops == [] then u == Start()
    else
      var n := |ops| - 1;
      exists t :: Reaches(ops[..n], t) && Matched(t, ops[n]) && Next(t, ops[n], u)
  }

  /** Each entry's count is the number of its outstanding Gets, and at least one. */
  ghost predicate Counted(t: Trace) {
    forall k :: k in t.cache.clients ==> t.cache.clients[k].count == t.outstanding[t.cache.clients[k].client] >= 1
  }

  /** An outstanding client is the one its cluster's entry holds, and conversely. */
  ghost predicate Placed(t: Trace) {
    && (forall k :: k in t.cache.clients ==> t.cache.clients[k].client in t.created && t.created[t.cache.clients[k].client] == k)
    && (forall x :: x in t.outstanding ==>
          x in t.created && t.created[x] in t.cache.clients && t.cache.clients[t.created[x]].client == x)
  }

  /** A created client has been closed exactly once when nobody holds it any more, and not before. */
  ghost predicate ClosedOnce(t: Trace) {
    forall x :: x in t.created ==> t.cache.closed[x] == if t.outstanding[x] == 0 then 1 else 0
  }

  ghost predicate Inv(t: Trace) {
    Placed(t) && Counted(t) && ClosedOnce(t)
  }

  lemma GetCachedKeepsInv(t: Trace, k: Cluster, u: Trace)
    requires Inv(t) && k in t.cache.clients
    requires var info := t.cache.clients[k];
             u == t.(cache := t.cache.(clients := t.cache.clients[k := info.(count := info.count + 1)]),
                     outstanding := t.outstanding + multiset{info.client})
    ensures Inv(u)
  {
    var x := t.cache.clients[k].client;
    assert forall y :: u.outstanding[y] == t.outstanding[y] + (if y == x then 1 else 0);
  }

  /** The trace after a client was created for the cluster. */
  function WithNew(t: Trace, k: Cluster, x: Client): Trace {
    t.(cache := t.cache.(clients := t.cache.clients[k := ClientInfo(x, 1)]),
       outstanding := t.outstanding + multiset{x}, created := t.created[x := k])
  }

  lemma NewIsPlaced(t: Trace, k: Cluster, x: Client)
    requires Placed(t) && k !in t.cache.clients && x !in t.created
    ensures Placed(WithNew(t, k, x))
  {
    assert forall y :: y in WithNew(t, k, x).outstanding ==> y == x || y in t.outstanding;
  }

  lemma NewIsCounted(t: Trace, k: Cluster, x: Client)
    requires Placed(t) && Counted(t) && k !in t.cache.clients && x !in t.created
    ensures Counted(WithNew(t, k, x))
  {
    assert t.outstanding[x] == 0 by {
      assert x !in t.outstanding;
    }
  }

  lemma NewIsOpen(t: Trace, k: Cluster, x: Client)
    requires ClosedOnce(t) && x !in t.created && x !in t.cache.closed
    ensures ClosedOnce(WithNew(t, k, x))
  {
    assert t.cache.closed[x] == 0;
  }

  lemma GetNewKeepsInv(t: Trace, k: Cluster, x: Client)
    requires Inv(t) && k !in t.cache.clients && x !in t.created && x !in t.cache.closed
    ensures Inv(WithNew(t, k, x))
  {
    NewIsPlaced(t, k, x);
    NewIsCounted(t, k, x);
    NewIsOpen(t, k, x);
  }

  lemma GetKeepsInv(t: Trace, op: Op, u: Trace)
    requires Inv(t) && op.Get? && Next(t, op, u)
    ensures Inv(u)
  {
    if op.cluster in t.cache.clients {
      GetCachedKeepsInv(t, op.cluster, u);
    } else if op.created.Some? {
      GetNewKeepsInv(t, op.cluster, op.created.value);
    } else {
      assert u == t;
    }
  }

  /** The trace after a holder of the client of entry `k` has closed it. */
  function WithReleased(t: Trace, k: Cluster): Trace
    requires k in t.cache.clients
  {
    t.(cache := Released(t.cache, k), outstanding := t.outstanding - multiset{t.cache.clients[k].client})
  }

  lemma ReleaseIsPlaced(t: Trace, k: Cluster)
    requires Placed(t) && Counted(t) && k in t.cache.clients
    ensures Placed(WithReleased(t, k))
  {
    var x, u := t.cache.clients[k].client, WithReleased(t, k);
    assert u.outstanding[x] == t.outstanding[x] - 1;
    assert forall y :: y in u.outstanding ==> y in t.outstanding;
  }

  lemma ReleaseIsCounted(t: Trace, k: Cluster)
    requires Placed(t) && Counted(t) && k in t.cache.clients
    ensures Counted(WithReleased(t, k))
  {
    var x, u := t.cache.clients[k].client, WithReleased(t, k);
    assert forall y :: u.outstanding[y] == t.outstanding[y] - (if y == x then 1 else 0);
  }

  lemma ReleaseClosesOnce(t: Trace, k: Cluster)
    requires Placed(t) && Counted(t) && ClosedOnce(t) && k in t.cache.clients
    ensures ClosedOnce(WithReleased(t, k))
  {
    var x, u := t.cache.clients[k].client, WithReleased(t, k);
    assert forall y :: u.outstanding[y] == t.outstanding[y] - (if y == x then 1 else 0);
    assert t.cache.clients[k].count == t.outstanding[x];
  }

  lemma ReleaseKeepsInv(t: Trace, k: Cluster)
    requires Inv(t) && k in t.cache.clients
    ensures Inv(WithReleased(t, k))
  {
    ReleaseIsPlaced(t, k);
    ReleaseIsCounted(t, k);
    ReleaseClosesOnce(t, k);
  }

  lemma CloseKeepsInv(t: Trace, x: Client, u: Trace)
    requires Inv(t) && Next(t, Close(x), u) && Matched(t, Close(x))
    ensures Inv(u)
  {
    if x in t.outstanding {
      var k := t.created[x];
      assert k in t.cache.clients && t.cache.clients[k].client == x;
      assert forall j :: j in t.cache.clients && t.cache.clients[j].client == x ==> j == k;
      assert u.cache == Released(t.cache, k);
      ReleaseKeepsInv(t, k);
    } else {
      assert !Holds(t.cache.clients, x);
      assert u == t.(cache := t.cache.(closed := t.cache.closed + multiset{x}));
    }
  }

  /** Closing keeps the invariant exactly when the closer holds the client or the cache never created it. */
  lemma CloseKeepsInvIff(t: Trace, x: Client, u: Trace)
    requires Inv(t) && Next(t, Close(x), u)
    ensures Inv(u) <==> Matched(t, Close(x))
  {
    if Matched(t, Close(x)) {
      CloseKeepsInv(t, x, u);
    } else {
      assert !Holds(t.cache.clients, x) by {
        forall k | k in t.cache.clients
          ensures t.cache.clients[k].client != x
        {
        }
      }
      assert u.cache.closed[x] == 2;
    }
  }

  /** Over every trace of matched calls: counts equal outstanding Gets, entries hold distinct
      clients, no outstanding client is closed, and every created client is closed exactly once,
      when its last holder closes it. */
  lemma {:induction false} TracesKeepInv(ops: seq<Op>, u: Trace)
    requires Reaches(ops, u)
    ensures Inv(u) && Distinct(u.cache.clients)
    ensures forall k :: k in u.cache.clients ==> u.cache.clients[k].count == u.outstanding[u.cache.clients[k].client] >= 1
    ensures forall x :: x in u.outstanding ==> x in u.created && u.cache.closed[x] == 0
    ensures forall x :: x in u.created && x !in u.outstanding ==> u.cache.closed[x] == 1
    decreases |ops|
  {
    if ops != [] {
      var n := |ops| - 1;
      var t :| Reaches(ops[..n], t) && Matched(t, ops[n]) && Next(t, ops[n], u);
      TracesKeepInv(ops[..n], t);
      if ops[n].Get? {
        GetKeepsInv(t, ops[n], u);
      } else {
        CloseKeepsInv(t, ops[n].client, u);
      }
    }
  }

  /** While somebody holds the client of a cluster, another Get of that cluster succeeds with the
      same client, whatever connecting would have given, and leaves it with one more holder. */
  lemma HeldClientIsShared(ops: seq<Op>, t: Trace, cluster: Cluster, created: Option<Client>, x: Client, u: Trace)
    requires Reaches(ops, t) && x in t.outstanding && x in t.created && t.created[x] == cluster
    requires Next(t, Get(cluster, created), u)
    ensures Got(t.cache, cluster, created) == (u.cache, Some(x))
    ensures u.outstanding == t.outstanding + multiset{x} && u.created == t.created && u.cache.closed == t.cache.closed
    ensures cluster in u.cache.clients && u.cache.clients[cluster] == ClientInfo(x, t.outstanding[x] + 1)
  {
    TracesKeepInv(ops, t);
  }

  /** When every holder has closed, the cache is empty and no connection is left open. */
  lemma NothingLeaks(ops: seq<Op>, u: Trace)
    requires Reaches(ops, u) && u.outstanding == multiset{}
    ensures u.cache.clients == map[] && forall x :: x in u.created ==> u.cache.closed[x] == 1
  {
    TracesKeepInv(ops, u);
  }
}
