/** Sequences of configuration changes, by pointer and by name. */
module ConfigurationRuns {
  import opened Wrappers
  import opened ConfigModel
  import opened StorageModel
  import opened ConfigGraph
  import opened Configuration

  /** One change to a collection of named values. */
  datatype Edit<V> = Add(name: string, value: V) | Update(name: string, value: V) | Delete(name: string)

  datatype Op =
    | OnCluster(cluster: Edit<ClusterModel>)
    | OnStorage(storage: Edit<StorageModel>)
    | OnPolicy(policy: Edit<PolicyModel>)
    | AddAgent(name: string, agent: AgentModel)
    | OnRoutine(routine: Edit<Names>)

  /** Why a routine cannot be looked up: a name that is not configured, or more sets than its
      cluster may scan in parallel. */
  function Refusal(db: Db, names: Names): Option<Error> {
    if names.policy !in db.policies || names.cluster !in db.clusters then Some(NotFound)
    else if !Fits(db.clusters[names.cluster], names) then Some(TooManySets)
    else if names.storage !in db.storage then Some(NotFound)
    else if names.agent.Some? && names.agent.value !in db.agents then Some(NotFound)
    else None
  }

  predicate Fits(cluster: ClusterModel, names: Names) {
    cluster.maxParallelScans.Some? ==> |names.schedule.setList| <= cluster.maxParallelScans.value
  }

  /** Validation of a configuration rejects a routine with an empty name. */
  predicate ValidName(op: Op) {
    op.OnRoutine? && !op.routine.Delete? ==> op.routine.name != ""
  }

  /** A collection after a change, and the error if it was refused. */
  datatype Edited<V> = Edited(values: map<string, V>, err: Option<Error>)

  /** An existing name is not added, a missing one is neither updated nor deleted, and a value that
      is used is not deleted. */
  function Apply<V>(m: map<string, V>, e: Edit<V>, used: bool): Edited<V> {
    match e
    case Add(name, x) => if name in m then Edited(m, Some(AlreadyExists)) else Edited(m[name := x], None)
    case Update(name, x) => if name !in m then Edited(m, Some(NotFound)) else Edited(m[name := x], None)
    case Delete(name) =>
      if name !in m then Edited(m, Some(NotFound))
      else if used then Edited(m, Some(InUse))
      else Edited(m - {name}, None)
  }

  /** A configuration and the error of the change that led to it. */
  datatype Outcome = Outcome(db: Db, err: Option<Error>)

  function ChangeCluster(db: Db, e: Edit<ClusterModel>): Outcome {
    var to := Apply(db.clusters, e, ClusterInUse(db, e.name));
    Outcome(db.(clusters := to.values), to.err)
  }

  function ChangeStorage(db: Db, e: Edit<StorageModel>): Outcome {
    var to := Apply(db.storage, e, StorageInUse(db, e.name));
    Outcome(db.(storage := to.values), to.err)
  }

  function ChangePolicy(db: Db, e: Edit<PolicyModel>): Outcome {
    var to := Apply(db.policies, e, PolicyInUse(db, e.name));
    Outcome(db.(policies := to.values), to.err)
  }

  function ChangeAgent(db: Db, name: string, x: AgentModel): Outcome {
    var to := Apply(db.agents, Add(name, x), false);
    Outcome(db.(agents := to.values), to.err)
  }

  /** A routine is looked up before it is stored. */
  function ChangeRoutine(db: Db, e: Edit<Names>): Outcome {
    if !e.Delete? && Refusal(db, e.value).Some? then Outcome(db, Refusal(db, e.value)) else
      var to := Apply(db.routines, e, false);
      Outcome(db.(routines := to.values), to.err)
  }

  /** The change on the name-keyed configuration. */
  function Change(db: Db, op: Op): Outcome {
    match op
    case OnCluster(e) => ChangeCluster(db, e)
    case OnStorage(e) => ChangeStorage(db, e)
    case OnPolicy(e) => ChangePolicy(db, e)
    case AddAgent(name, x) => ChangeAgent(db, name, x)
    case OnRoutine(e) => ChangeRoutine(db, e)
  }

  /** The configuration object now stands for the outcome of the change by name. */
  ghost predicate Follows(h: Graph, err: Option<Error>, o: Outcome) {
    Represents(h, o.db) && err == o.err
  }

  method AddClusterValue(config: Config, name: string, value: ClusterModel, ghost g: Graph, ghost db: Db) returns (err: Option<Error>, ghost h: Graph)
    requires config.Snapshot() == g && Represents(g, db)
    modifies config`clusters
    ensures config.Snapshot() == h && Follows(h, err, ChangeCluster(db, Add(name, value)))
  {
    var x := new Cluster(value);
    assert config.RoutineFields() == g.routines;
    assert x !in g.clusters.Values;
    err := config.AddCluster(name, x);
    h := if err.Some? then g else g.(clusters := g.clusters[name := x]);
    if err.None? {
      AddClusterRefines(g, db, name, x);
    }
  }

  method UpdateClusterValue(config: Config, name: string, value: ClusterModel, ghost g: Graph, ghost db: Db) returns (err: Option<Error>, ghost h: Graph)
    requires config.Snapshot() == g && Represents(g, db)
    modifies config`clusters, config.routines.Values`cluster
    ensures config.Snapshot() == h && Follows(h, err, ChangeCluster(db, Update(name, value)))
  {
    var x := new Cluster(value);
    assert config.RoutineFields() == g.routines;
    assert x !in g.clusters.Values;
    err := config.UpdateCluster(name, x);
    h := if err.Some? then g else g.(clusters := g.clusters[name := x], routines := RepointCluster(g.routines, g.clusters[name], x));
    if err.None? {
      UpdateClusterRefines(g, db, name, x);
    }
  }

  method RemoveCluster(config: Config, name: string, ghost g: Graph, ghost db: Db) returns (err: Option<Error>, ghost h: Graph)
    requires config.Snapshot() == g && Represents(g, db) && "" !in db.routines
    modifies config`clusters
    ensures config.Snapshot() == h && Follows(h, err, ChangeCluster(db, Delete(name)))
  {
    if name in config.clusters {
      ClusterUseRefines(g, db, name);
      assert forall n :: n in config.routines ==> n in g.routines && g.routines[n].cluster == config.routines[n].cluster;
    }
    err := config.DeleteCluster(name);
    h := if err.Some? then g else g.(clusters := g.clusters - {name});
    if err.None? {
      DeleteClusterRefines(g, db, name);
    }
  }

  method EditCluster(config: Config, e: Edit<ClusterModel>, ghost g: Graph, ghost db: Db) returns (err: Option<Error>, ghost h: Graph)
    requires config.Snapshot() == g && Represents(g, db) && "" !in db.routines
    modifies config`clusters, config.routines.Values`cluster
    ensures config.Snapshot() == h && Follows(h, err, ChangeCluster(db, e))
  {
    match e {
      case Add(name, x) => err, h := AddClusterValue(config, name, x, g, db);
      case Update(name, x) => err, h := UpdateClusterValue(config, name, x, g, db);
      case Delete(name) => err, h := RemoveCluster(config, name, g, db);
    }
  }

  method AddStorageValue(config: Config, name: string, value: StorageModel, ghost g: Graph, ghost db: Db) returns (err: Option<Error>, ghost h: Graph)
    requires config.Snapshot() == g && Represents(g, db)
    modifies config`storage
    ensures config.Snapshot() == h && Follows(h, err, ChangeStorage(db, Add(name, value)))
  {
    var x := new Storage(value);
    assert config.RoutineFields() == g.routines;
    assert x !in g.storage.Values;
    err := config.AddStorage(name, x);
    h := if err.Some? then g else g.(storage := g.storage[name := x]);
    if err.None? {
      AddStorageRefines(g, db, name, x);
    }
  }

  method UpdateStorageValue(config: Config, name: string, value: StorageModel, ghost g: Graph, ghost db: Db) returns (err: Option<Error>, ghost h: Graph)
    requires config.Snapshot() == g && Represents(g, db)
    modifies config`storage, config.routines.Values`storage
    ensures config.Snapshot() == h && Follows(h, err, ChangeStorage(db, Update(name, value)))
  {
    var x := new Storage(value);
    assert config.RoutineFields() == g.routines;
    assert x !in g.storage.Values;
    err := config.UpdateStorage(name, x);
    h := if err.Some? then g else g.(storage := g.storage[name := x], routines := RepointStorage(g.routines, g.storage[name], x));
    if err.None? {
      UpdateStorageRefines(g, db, name, x);
    }
  }

  method RemoveStorage(config: Config, name: string, ghost g: Graph, ghost db: Db) returns (err: Option<Error>, ghost h: Graph)
    requires config.Snapshot() == g && Represents(g, db) && "" !in db.routines
    modifies config`storage
    ensures config.Snapshot() == h && Follows(h, err, ChangeStorage(db, Delete(name)))
  {
    if name in config.storage {
      StorageUseRefines(g, db, name);
      assert forall n :: n in config.routines ==> n in g.routines && g.routines[n].storage == config.routines[n].storage;
    }
    err := config.DeleteStorage(name);
    h := if err.Some? then g else g.(storage := g.storage - {name});
    if err.None? {
      DeleteStorageRefines(g, db, name);
    }
  }

  method EditStorage(config: Config, e: Edit<StorageModel>, ghost g: Graph, ghost db: Db) returns (err: Option<Error>, ghost h: Graph)
    requires config.Snapshot() == g && Represents(g, db) && "" !in db.routines
    modifies config`storage, config.routines.Values`storage
    ensures config.Snapshot() == h && Follows(h, err, ChangeStorage(db, e))
  {
    match e {
      case Add(name, x) => err, h := AddStorageValue(config, name, x, g, db);
      case Update(name, x) => err, h := UpdateStorageValue(config, name, x, g, db);
      case Delete(name) => err, h := RemoveStorage(config, name, g, db);
    }
  }

  method AddPolicyValue(config: Config, name: string, value: PolicyModel, ghost g: Graph, ghost db: Db) returns (err: Option<Error>, ghost h: Graph)
    requires config.Snapshot() == g && Represents(g, db)
    modifies config`policies
    ensures config.Snapshot() == h && Follows(h, err, ChangePolicy(db, Add(name, value)))
  {
    var x := new Policy(value);
    assert config.RoutineFields() == g.routines;
    assert x !in g.policies.Values;
    err := config.AddPolicy(name, x);
    h := if err.Some? then g else g.(policies := g.policies[name := x]);
    if err.None? {
      AddPolicyRefines(g, db, name, x);
    }
  }

  method UpdatePolicyValue(config: Config, name: string, value: PolicyModel, ghost g: Graph, ghost db: Db) returns (err: Option<Error>, ghost h: Graph)
    requires config.Snapshot() == g && Represents(g, db)
    modifies config`policies, config.routines.Values`policy
    ensures config.Snapshot() == h && Follows(h, err, ChangePolicy(db, Update(name, value)))
  {
    var x := new Policy(value);
    assert config.RoutineFields() == g.routines;
    assert x !in g.policies.Values;
    err := config.UpdatePolicy(name, x);
    h := if err.Some? then g else g.(policies := g.policies[name := x], routines := RepointPolicy(g.routines, g.policies[name], x));
    if err.None? {
      UpdatePolicyRefines(g, db, name, x);
    }
  }

  method RemovePolicy(config: Config, name: string, ghost g: Graph, ghost db: Db) returns (err: Option<Error>, ghost h: Graph)
    requires config.Snapshot() == g && Represents(g, db) && "" !in db.routines
    modifies config`policies
    ensures config.Snapshot() == h && Follows(h, err, ChangePolicy(db, Delete(name)))
  {
    if name in config.policies {
      PolicyUseRefines(g, db, name);
      assert forall n :: n in config.routines ==> n in g.routines && g.routines[n].policy == config.routines[n].policy;
    }
    err := config.DeletePolicy(name);
    h := if err.Some? then g else g.(policies := g.policies - {name});
    if err.None? {
      DeletePolicyRefines(g, db, name);
    }
  }

  method EditPolicy(config: Config, e: Edit<PolicyModel>, ghost g: Graph, ghost db: Db) returns (err: Option<Error>, ghost h: Graph)
    requires config.Snapshot() == g && Represents(g, db) && "" !in db.routines
    modifies config`policies, config.routines.Values`policy
    ensures config.Snapshot() == h && Follows(h, err, ChangePolicy(db, e))
  {
    match e {
      case Add(name, x) => err, h := AddPolicyValue(config, name, x, g, db);
      case Update(name, x) => err, h := UpdatePolicyValue(config, name, x, g, db);
      case Delete(name) => err, h := RemovePolicy(config, name, g, db);
    }
  }

  /** Looking the names of a routine up in the current maps. */
  method Resolve(config: Config, names: Names, ghost g: Graph, ghost db: Db) returns (r: Result<Pointers, Error>)
    requires config.Snapshot() == g && SameValues(g, db)
    ensures r.Err? ==> Refusal(db, names) == Some(r.error)
    ensures r.Ok? ==> Refusal(db, names).None? && Resolves(g, r.value, names)
    ensures var configured := names.policy in config.policies && names.cluster in config.clusters && names.storage in config.storage
                              && (names.agent.Some? ==> names.agent.value in config.agents);
            var fits := names.cluster in config.clusters && config.clusters[names.cluster].value.maxParallelScans.Some? ==>
                          |names.schedule.setList| <= config.clusters[names.cluster].value.maxParallelScans.value;
            && (r.Ok? <==> configured && fits)
            && (r.Err? ==> r.error == if !fits && names.policy in config.policies then TooManySets else NotFound)
            && (r.Ok? ==> r.value.policy == config.policies[names.policy] && r.value.cluster == config.clusters[names.cluster]
                          && r.value.storage == config.storage[names.storage] && r.value.schedule == names.schedule
                          && (if names.agent.Some? then r.value.agent == config.agents[names.agent.value] else r.value.agent == null))
  {
    if names.policy !in config.policies {
      return Err(NotFound);
    }
    if names.cluster !in config.clusters {
      return Err(NotFound);
    }
    var cluster := config.clusters[names.cluster];
    if cluster.value.maxParallelScans.Some? && |names.schedule.setList| > cluster.value.maxParallelScans.value {
      return Err(TooManySets);
    }
    if names.storage !in config.storage {
      return Err(NotFound);
    }
    var agent: Agent? := null;
    if names.agent.Some? {
      if names.agent.value !in config.agents {
        return Err(NotFound);
      }
      agent := config.agents[names.agent.value];
    }
    r := Ok(Pointers(config.policies[names.policy], cluster, config.storage[names.storage], agent, names.schedule));
  }

  method AddNewRoutine(config: Config, name: string, p: Pointers) returns (err: Option<Error>)
    modifies config`routines
    ensures err == if name in old(config.routines) then Some(AlreadyExists) else None
    ensures config.Snapshot() == if err.Some? then old(config.Snapshot())
                                 else old(config.Snapshot()).(routines := old(config.RoutineFields())[name := p])
    ensures forall r :: r in config.routines.Values ==> r in old(config.routines.Values) || fresh(r)
  {
    ghost var before := config.RoutineFields();
    var r := new Routine(p);
    assert config.RoutineFields() == before;
    err := config.AddRoutine(name, r);
  }

  method AddRoutineNames(config: Config, name: string, names: Names, ghost g: Graph, ghost db: Db) returns (err: Option<Error>, ghost h: Graph)
    requires config.Snapshot() == g && Represents(g, db)
    modifies config`routines
    ensures config.Snapshot() == h && Follows(h, err, ChangeRoutine(db, Add(name, names)))
    ensures forall r :: r in config.routines.Values ==> r in old(config.routines.Values) || fresh(r)
  {
    var p := Resolve(config, names, g, db);
    if p.Err? {
      return Some(p.error), g;
    }
    err := AddNewRoutine(config, name, p.value);
    h := if err.Some? then g else g.(routines := g.routines[name := p.value]);
    if err.None? {
      SetRoutineRefines(g, db, name, p.value, names);
    }
  }

  method UpdateNewRoutine(config: Config, name: string, p: Pointers) returns (err: Option<Error>)
    modifies config`routines
    ensures err == if name !in old(config.routines) then Some(NotFound) else None
    ensures config.Snapshot() == if err.Some? then old(config.Snapshot())
                                 else old(config.Snapshot()).(routines := old(config.RoutineFields())[name := p])
    ensures forall r :: r in config.routines.Values ==> r in old(config.routines.Values) || fresh(r)
  {
    ghost var before := config.RoutineFields();
    var r := new Routine(p);
    assert config.RoutineFields() == before;
    err := config.UpdateRoutine(name, r);
  }

  method UpdateRoutineNames(config: Config, name: string, names: Names, ghost g: Graph, ghost db: Db) returns (err: Option<Error>, ghost h: Graph)
    requires config.Snapshot() == g && Represents(g, db)
    modifies config`routines
    ensures config.Snapshot() == h && Follows(h, err, ChangeRoutine(db, Update(name, names)))
    ensures forall r :: r in config.routines.Values ==> r in old(config.routines.Values) || fresh(r)
  {
    var p := Resolve(config, names, g, db);
    if p.Err? {
      return Some(p.error), g;
    }
    err := UpdateNewRoutine(config, name, p.value);
    h := if err.Some? then g else g.(routines := g.routines[name := p.value]);
    if err.None? {
      SetRoutineRefines(g, db, name, p.value, names);
    }
  }

  method RemoveRoutine(config: Config, name: string, ghost g: Graph, ghost db: Db) returns (err: Option<Error>, ghost h: Graph)
    requires config.Snapshot() == g && Represents(g, db)
    modifies config`routines
    ensures config.Snapshot() == h && Follows(h, err, ChangeRoutine(db, Delete(name)))
    ensures config.routines.Values <= old(config.routines.Values)
  {
    err := config.DeleteRoutine(name);
    h := if err.Some? then g else g.(routines := g.routines - {name});
    if err.None? {
      DeleteRoutineRefines(g, db, name);
    }
  }

  method AddAgentValue(config: Config, name: string, value: AgentModel, ghost g: Graph, ghost db: Db) returns (err: Option<Error>, ghost h: Graph)
    requires config.Snapshot() == g && Represents(g, db)
    modifies config`agents
    ensures config.Snapshot() == h && Follows(h, err, ChangeAgent(db, name, value))
  {
    var x := new Agent(value);
    assert config.RoutineFields() == g.routines;
    assert x !in g.agents.Values;
    err := config.AddSecretAgent(name, x);
    h := if err.Some? then g else g.(agents := g.agents[name := x]);
    if err.None? {
      AddAgentRefines(g, db, name, x);
    }
  }

  method EditRoutine(config: Config, e: Edit<Names>, ghost g: Graph, ghost db: Db) returns (err: Option<Error>, ghost h: Graph)
    requires config.Snapshot() == g && Represents(g, db)
    modifies config`routines
    ensures config.Snapshot() == h && Follows(h, err, ChangeRoutine(db, e))
    ensures forall r :: r in config.routines.Values ==> r in old(config.routines.Values) || fresh(r)
  {
    match e {
      case Add(name, names) => err, h := AddRoutineNames(config, name, names, g, db);
      case Update(name, names) => err, h := UpdateRoutineNames(config, name, names, g, db);
      case Delete(name) => err, h := RemoveRoutine(config, name, g, db);
    }
  }

  /** The configurations that a graph stands for: by RepresentsOne, at most one. */
  ghost function Meanings(g: Graph): iset<Db> {
    iset db: Db | Represents(g, db)
  }

  /** One change by pointer does what it does by name, with the same outcome. */
  method Execute(config: Config, op: Op, ghost g: Graph, ghost db: Db) returns (err: Option<Error>, ghost h: Graph)
    requires config.Snapshot() == g && db in Meanings(g) && "" !in db.routines
    modifies config, config.routines.Values
    ensures config.Snapshot() == h && Change(db, op).db in Meanings(h) && err == Change(db, op).err
    ensures forall r :: r in config.routines.Values ==> r in old(config.routines.Values) || fresh(r)
  {
    match op {
      case OnCluster(e) => err, h := EditCluster(config, e, g, db);
      case OnStorage(e) => err, h := EditStorage(config, e, g, db);
      case OnPolicy(e) => err, h := EditPolicy(config, e, g, db);
      case AddAgent(name, x) => err, h := AddAgentValue(config, name, x, g, db);
      case OnRoutine(e) => err, h := EditRoutine(config, e, g, db);
    }
  }

  /** The name-keyed configuration after the changes. */
  function After(db: Db, ops: seq<Op>): Db
    decreases |ops|
  {
    if ops == [] then db else After(Change(db, ops[0]).db, ops[1..])
  }

  /** The outcomes of the changes. */
  function Errors(db: Db, ops: seq<Op>): seq<Option<Error>>
    decreases |ops|
  {
    if ops == [] then [] else [Change(db, ops[0]).err] + Errors(Change(db, ops[0]).db, ops[1..])
  }

  /** One more change at the end of a run. */
  lemma {:induction false} OneMoreChange(db: Db, ops: seq<Op>, op: Op)
    ensures After(db, ops + [op]) == Change(After(db, ops), op).db
    ensures Errors(db, ops + [op]) == Errors(db, ops) + [Change(After(db, ops), op).err]
    decreases |ops|
  {
    if ops == [] {
      assert [] + [op] == [op];
      assert [op][1..] == [];
    } else {
      OneMoreChange(Change(db, ops[0]).db, ops[1..], op);
      assert (ops + [op])[1..] == ops[1..] + [op];
    }
  }

  lemma ChangeAddsNoEmptyName(db: Db, op: Op)
    requires ValidName(op) && "" !in db.routines
    ensures "" !in Change(db, op).db.routines
  {
  }

  /** Every sequence of changes to an object graph that stands for a configuration refines the same
      sequence on the name-keyed configuration, error for error. */
  method Run(config: Config, ops: seq<Op>, ghost g: Graph, ghost db: Db) returns (errs: seq<Option<Error>>, ghost h: Graph)
    requires config.Snapshot() == g && db in Meanings(g) && "" !in db.routines
    requires forall i :: 0 <= i < |ops| ==> ValidName(ops[i])
    modifies config, config.routines.Values
    ensures config.Snapshot() == h && After(db, ops) in Meanings(h)
    ensures errs == Errors(db, ops)
    decreases |ops|
  {
    if ops == [] {
      return [], g;
    }
    ChangeAddsNoEmptyName(db, ops[0]);
    var err;
    err, h := Execute(config, ops[0], g, db);
    errs, h := Run(config, ops[1..], h, Change(db, ops[0]).db);
    errs := [err] + errs;
  }

  /** With a routine of the empty name the use check of Delete sees nothing: the policy is deleted
      and the routine is left pointing to an object that no name denotes. */
  method EmptyNameDefeatsUseCheck() returns (config: Config, err: Option<Error>)
    ensures err == None && "" in config.routines && config.routines[""].policy !in config.policies.Values
  {
    config := new Config();
    var p := new Policy(PolicyModel(None, None, None, None, None));
    var c := new Cluster(ClusterModel(None, [], None, None, None));
    var s := new Storage(LocalStorage("backups"));
    var r := new Routine(Pointers(p, c, s, null, Schedule("", "", [], [])));
    config.policies := map["p" := p];
    config.routines := map["" := r];
    err := config.DeletePolicy("p");
  }
}
