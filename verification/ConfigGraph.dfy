/** The service configuration as the program holds it, routines pointing to the objects they use,
    and the name-keyed configuration it stands for, as in pkg/model/config.go. */
module ConfigGraph {
  import opened Wrappers
  import opened ConfigModel
  import opened StorageModel

  datatype Error = AlreadyExists | NotFound | InUse | TooManySets

  class Cluster {
    const value: ClusterModel
    constructor (value: ClusterModel) ensures this.value == value { this.value := value; }
  }

  class Storage {
    const value: StorageModel
    constructor (value: StorageModel) ensures this.value == value { this.value := value; }
  }

  class Policy {
    const value: PolicyModel
    constructor (value: PolicyModel) ensures this.value == value { this.value := value; }
  }

  class Agent {
    const value: AgentModel
    constructor (value: AgentModel) ensures this.value == value { this.value := value; }
  }

  /** What a routine points to. */
  datatype Pointers = Pointers(policy: Policy, cluster: Cluster, storage: Storage, agent: Agent?, schedule: Schedule)

  class Routine {
    var policy: Policy
    var cluster: Cluster
    var storage: Storage
    var agent: Agent?
    const schedule: Schedule

    function Fields(): Pointers
      reads this
    {
      Pointers(policy, cluster, storage, agent, schedule)
    }

    constructor (p: Pointers)
      ensures Fields() == p
    {
      policy, cluster, storage, agent, schedule := p.policy, p.cluster, p.storage, p.agent, p.schedule;
    }
  }

  /** The object graph at one moment. */
  datatype Graph = Graph(
    clusters: map<string, Cluster>,
    storage: map<string, Storage>,
    policies: map<string, Policy>,
    agents: map<string, Agent>,
    routines: map<string, Pointers>)

  // ----- the name-keyed configuration -----

  /** A routine as a configuration file describes it. */
  datatype Names = Names(policy: string, cluster: string, storage: string, agent: Option<string>, schedule: Schedule)

  datatype Db = Db(
    clusters: map<string, ClusterModel>,
    storage: map<string, StorageModel>,
    policies: map<string, PolicyModel>,
    agents: map<string, AgentModel>,
    routines: map<string, Names>)

  predicate PolicyInUse(db: Db, name: string) {
    exists n :: n in db.routines && db.routines[n].policy == name
  }

  predicate ClusterInUse(db: Db, name: string) {
    exists n :: n in db.routines && db.routines[n].cluster == name
  }

  predicate StorageInUse(db: Db, name: string) {
    exists n :: n in db.routines && db.routines[n].storage == name
  }

  // ----- what the graph stands for -----

  ghost predicate Injective<T>(m: map<string, T>) {
    forall a, b :: a in m && b in m && m[a] == m[b] ==> a == b
  }

  /** The routine points to exactly the objects that its names denote. */
  ghost predicate Resolves(g: Graph, r: Pointers, names: Names) {
    && names.policy in g.policies && g.policies[names.policy] == r.policy
    && names.cluster in g.clusters && g.clusters[names.cluster] == r.cluster
    && names.storage in g.storage && g.storage[names.storage] == r.storage
    && (if names.agent.Some? then names.agent.value in g.agents && g.agents[names.agent.value] == r.agent else r.agent == null)
    && names.schedule == r.schedule
  }

  ghost predicate SameValues(g: Graph, db: Db) {
    && g.clusters.Keys == db.clusters.Keys && (forall n :: n in g.clusters ==> g.clusters[n].value == db.clusters[n])
    && g.storage.Keys == db.storage.Keys && (forall n :: n in g.storage ==> g.storage[n].value == db.storage[n])
    && g.policies.Keys == db.policies.Keys && (forall n :: n in g.policies ==> g.policies[n].value == db.policies[n])
    && g.agents.Keys == db.agents.Keys && (forall n :: n in g.agents ==> g.agents[n].value == db.agents[n])
  }

  /** Names denote distinct objects that hold the values of `db`. */
  ghost predicate Named(g: Graph, db: Db) {
    && Injective(g.clusters) && Injective(g.storage) && Injective(g.policies) && Injective(g.agents)
    && SameValues(g, db)
  }

  /** Every routine points to the objects its names denote. */
  ghost predicate Resolved(g: Graph, rs: map<string, Pointers>, names: map<string, Names>) {
    rs.Keys == names.Keys && forall n :: n in rs ==> Resolves(g, rs[n], names[n])
  }

  /** The graph stands for `db`. */
  ghost predicate Represents(g: Graph, db: Db) {
    Named(g, db) && Resolved(g, g.routines, db.routines)
  }

  /** Resolved names are determined by the pointers. */
  lemma ResolvesOne(g: Graph, r: Pointers, a: Names, b: Names)
    requires Injective(g.clusters) && Injective(g.storage) && Injective(g.policies) && Injective(g.agents)
    requires Resolves(g, r, a) && Resolves(g, r, b)
    ensures a == b
  {
  }

  /** A graph stands for one configuration only. */
  lemma RepresentsOne(g: Graph, a: Db, b: Db)
    requires Represents(g, a) && Represents(g, b)
    ensures a == b
  {
    forall n | n in g.routines
      ensures a.routines[n] == b.routines[n]
    {
      ResolvesOne(g, g.routines[n], a.routines[n], b.routines[n]);
    }
    assert a.routines == b.routines;
    assert a.clusters == b.clusters;
    assert a.storage == b.storage;
    assert a.policies == b.policies;
    assert a.agents == b.agents;
  }

  /** Whether pointers resolve does not depend on the routines of the graph. */
  lemma OtherRoutines(g: Graph, rs: map<string, Pointers>, names: map<string, Names>)
    requires Resolved(g, rs, names)
    ensures Resolved(g.(routines := rs), rs, names)
  {
  }

  // ----- replacing an object in every routine -----

  function MovedPolicy(r: Pointers, from: Policy, to: Policy): Pointers {
    if r.policy == from then r.(policy := to) else r
  }

  function RepointPolicy(rs: map<string, Pointers>, from: Policy, to: Policy): map<string, Pointers> {
    map n | n in rs :: MovedPolicy(rs[n], from, to)
  }

  function MovedCluster(r: Pointers, from: Cluster, to: Cluster): Pointers {
    if r.cluster == from then r.(cluster := to) else r
  }

  function RepointCluster(rs: map<string, Pointers>, from: Cluster, to: Cluster): map<string, Pointers> {
    map n | n in rs :: MovedCluster(rs[n], from, to)
  }

  function MovedStorage(r: Pointers, from: Storage, to: Storage): Pointers {
    if r.storage == from then r.(storage := to) else r
  }

  function RepointStorage(rs: map<string, Pointers>, from: Storage, to: Storage): map<string, Pointers> {
    map n | n in rs :: MovedStorage(rs[n], from, to)
  }

  // ----- updating the graph refines updating by name -----

  lemma AddPolicyRefines(g: Graph, db: Db, name: string, x: Policy)
    requires Represents(g, db) && name !in g.policies && x !in g.policies.Values
    ensures Represents(g.(policies := g.policies[name := x]), db.(policies := db.policies[name := x.value]))
  {
  }

  lemma RepointPolicyResolves(g: Graph, r: Pointers, names: Names, name: string, x: Policy)
    requires Injective(g.policies) && Resolves(g, r, names) && name in g.policies
    ensures Resolves(g.(policies := g.policies[name := x]), MovedPolicy(r, g.policies[name], x), names)
  {
  }

  lemma RepointPolicyResolved(g: Graph, rs: map<string, Pointers>, names: map<string, Names>, name: string, x: Policy)
    requires Injective(g.policies) && Resolved(g, rs, names) && name in g.policies
    ensures Resolved(g.(policies := g.policies[name := x]), RepointPolicy(rs, g.policies[name], x), names)
  {
    var to := RepointPolicy(rs, g.policies[name], x);
    forall n | n in to
      ensures Resolves(g.(policies := g.policies[name := x]), to[n], names[n])
    {
      RepointPolicyResolves(g, rs[n], names[n], name, x);
    }
  }

  lemma UpdatePolicyRefines(g: Graph, db: Db, name: string, x: Policy)
    requires Represents(g, db) && name in g.policies && x !in g.policies.Values
    ensures Represents(g.(policies := g.policies[name := x], routines := RepointPolicy(g.routines, g.policies[name], x)),
                       db.(policies := db.policies[name := x.value]))
  {
    AddPolicyValues(g, db, name, x);
    RepointPolicyResolved(g, g.routines, db.routines, name, x);
    OtherRoutines(g.(policies := g.policies[name := x]), RepointPolicy(g.routines, g.policies[name], x), db.routines);
  }

  /** The new object keeps names and values in step. */
  lemma AddPolicyValues(g: Graph, db: Db, name: string, x: Policy)
    requires SameValues(g, db) && Injective(g.policies) && x !in g.policies.Values
    ensures SameValues(g.(policies := g.policies[name := x]), db.(policies := db.policies[name := x.value]))
    ensures Injective(g.policies[name := x])
  {
  }

  lemma DeletePolicyRefines(g: Graph, db: Db, name: string)
    requires Represents(g, db) && !PolicyInUse(db, name)
    ensures Represents(g.(policies := g.policies - {name}), db.(policies := db.policies - {name}))
  {
  }

  /** A routine points to the object of a name exactly when its configuration names it. */
  lemma PolicyUseRefines(g: Graph, db: Db, name: string)
    requires Represents(g, db) && name in g.policies
    ensures (exists n :: n in g.routines && g.routines[n].policy == g.policies[name]) <==> PolicyInUse(db, name)
  {
    forall n | n in g.routines
      ensures g.routines[n].policy == g.policies[name] <==> db.routines[n].policy == name
    {
      assert Resolves(g, g.routines[n], db.routines[n]);
    }
  }

  lemma AddClusterRefines(g: Graph, db: Db, name: string, x: Cluster)
    requires Represents(g, db) && name !in g.clusters && x !in g.clusters.Values
    ensures Represents(g.(clusters := g.clusters[name := x]), db.(clusters := db.clusters[name := x.value]))
  {
  }

  lemma RepointClusterResolves(g: Graph, r: Pointers, names: Names, name: string, x: Cluster)
    requires Injective(g.clusters) && Resolves(g, r, names) && name in g.clusters
    ensures Resolves(g.(clusters := g.clusters[name := x]), MovedCluster(r, g.clusters[name], x), names)
  {
  }

  lemma RepointClusterResolved(g: Graph, rs: map<string, Pointers>, names: map<string, Names>, name: string, x: Cluster)
    requires Injective(g.clusters) && Resolved(g, rs, names) && name in g.clusters
    ensures Resolved(g.(clusters := g.clusters[name := x]), RepointCluster(rs, g.clusters[name], x), names)
  {
    var to := RepointCluster(rs, g.clusters[name], x);
    forall n | n in to
      ensures Resolves(g.(clusters := g.clusters[name := x]), to[n], names[n])
    {
      RepointClusterResolves(g, rs[n], names[n], name, x);
    }
  }

  lemma UpdateClusterRefines(g: Graph, db: Db, name: string, x: Cluster)
    requires Represents(g, db) && name in g.clusters && x !in g.clusters.Values
    ensures Represents(g.(clusters := g.clusters[name := x], routines := RepointCluster(g.routines, g.clusters[name], x)),
                       db.(clusters := db.clusters[name := x.value]))
  {
    AddClusterValues(g, db, name, x);
    RepointClusterResolved(g, g.routines, db.routines, name, x);
    OtherRoutines(g.(clusters := g.clusters[name := x]), RepointCluster(g.routines, g.clusters[name], x), db.routines);
  }

  /** The new object keeps names and values in step. */
  lemma AddClusterValues(g: Graph, db: Db, name: string, x: Cluster)
    requires SameValues(g, db) && Injective(g.clusters) && x !in g.clusters.Values
    ensures SameValues(g.(clusters := g.clusters[name := x]), db.(clusters := db.clusters[name := x.value]))
    ensures Injective(g.clusters[name := x])
  {
  }

  lemma DeleteClusterRefines(g: Graph, db: Db, name: string)
    requires Represents(g, db) && !ClusterInUse(db, name)
    ensures Represents(g.(clusters := g.clusters - {name}), db.(clusters := db.clusters - {name}))
  {
  }

  /** A routine points to the object of a name exactly when its configuration names it. */
  lemma ClusterUseRefines(g: Graph, db: Db, name: string)
    requires Represents(g, db) && name in g.clusters
    ensures (exists n :: n in g.routines && g.routines[n].cluster == g.clusters[name]) <==> ClusterInUse(db, name)
  {
    forall n | n in g.routines
      ensures g.routines[n].cluster == g.clusters[name] <==> db.routines[n].cluster == name
    {
      assert Resolves(g, g.routines[n], db.routines[n]);
    }
  }

  lemma AddStorageRefines(g: Graph, db: Db, name: string, x: Storage)
    requires Represents(g, db) && name !in g.storage && x !in g.storage.Values
    ensures Represents(g.(storage := g.storage[name := x]), db.(storage := db.storage[name := x.value]))
  {
  }

  lemma RepointStorageResolves(g: Graph, r: Pointers, names: Names, name: string, x: Storage)
    requires Injective(g.storage) && Resolves(g, r, names) && name in g.storage
    ensures Resolves(g.(storage := g.storage[name := x]), MovedStorage(r, g.storage[name], x), names)
  {
  }

  lemma RepointStorageResolved(g: Graph, rs: map<string, Pointers>, names: map<string, Names>, name: string, x: Storage)
    requires Injective(g.storage) && Resolved(g, rs, names) && name in g.storage
    ensures Resolved(g.(storage := g.storage[name := x]), RepointStorage(rs, g.storage[name], x), names)
  {
    var to := RepointStorage(rs, g.storage[name], x);
    forall n | n in to
      ensures Resolves(g.(storage := g.storage[name := x]), to[n], names[n])
    {
      RepointStorageResolves(g, rs[n], names[n], name, x);
    }
  }

  lemma UpdateStorageRefines(g: Graph, db: Db, name: string, x: Storage)
    requires Represents(g, db) && name in g.storage && x !in g.storage.Values
    ensures Represents(g.(storage := g.storage[name := x], routines := RepointStorage(g.routines, g.storage[name], x)),
                       db.(storage := db.storage[name := x.value]))
  {
    AddStorageValues(g, db, name, x);
    RepointStorageResolved(g, g.routines, db.routines, name, x);
    OtherRoutines(g.(storage := g.storage[name := x]), RepointStorage(g.routines, g.storage[name], x), db.routines);
  }

  /** The new object keeps names and values in step. */
  lemma AddStorageValues(g: Graph, db: Db, name: string, x: Storage)
    requires SameValues(g, db) && Injective(g.storage) && x !in g.storage.Values
    ensures SameValues(g.(storage := g.storage[name := x]), db.(storage := db.storage[name := x.value]))
    ensures Injective(g.storage[name := x])
  {
  }

  lemma DeleteStorageRefines(g: Graph, db: Db, name: string)
    requires Represents(g, db) && !StorageInUse(db, name)
    ensures Represents(g.(storage := g.storage - {name}), db.(storage := db.storage - {name}))
  {
  }

  /** A routine points to the object of a name exactly when its configuration names it. */
  lemma StorageUseRefines(g: Graph, db: Db, name: string)
    requires Represents(g, db) && name in g.storage
    ensures (exists n :: n in g.routines && g.routines[n].storage == g.storage[name]) <==> StorageInUse(db, name)
  {
    forall n | n in g.routines
      ensures g.routines[n].storage == g.storage[name] <==> db.routines[n].storage == name
    {
      assert Resolves(g, g.routines[n], db.routines[n]);
    }
  }

  lemma AddAgentRefines(g: Graph, db: Db, name: string, x: Agent)
    requires Represents(g, db) && name !in g.agents && x !in g.agents.Values
    ensures Represents(g.(agents := g.agents[name := x]), db.(agents := db.agents[name := x.value]))
  {
  }

  lemma SetRoutineRefines(g: Graph, db: Db, name: string, r: Pointers, names: Names)
    requires Represents(g, db) && Resolves(g, r, names)
    ensures Represents(g.(routines := g.routines[name := r]), db.(routines := db.routines[name := names]))
  {
  }

  lemma DeleteRoutineRefines(g: Graph, db: Db, name: string)
    requires Represents(g, db)
    ensures Represents(g.(routines := g.routines - {name}), db.(routines := db.routines - {name}))
  {
  }
}
