/** The configuration file: names instead of pointers, as in pkg/dto/config.go and
    pkg/dto/backup_routine.go. */
module ConfigDto {
  import opened Wrappers
  import opened ConfigModel
  import opened StorageModel
  import opened ConfigGraph
  import opened Configuration
  import opened ConfigurationRuns
  import StorageDto

  /** The sections of a configuration file. Clusters, policies and agents have the same fields in
      the file as in the model. */
  datatype ConfigFile = ConfigFile(
    clusters: map<string, ClusterModel>,
    storage: map<string, StorageDto.StorageDto>,
    policies: map<string, PolicyModel>,
    agents: map<string, AgentModel>,
    routines: map<string, Names>)

  /** Every storage section describes some storage, which validation of the entries ensures. */
  predicate StorageGiven(file: ConfigFile) {
    forall n :: n in file.storage ==> StorageDto.ToModel(file.storage[n]).Some?
  }

  /** The name-keyed configuration of a file. */
  function Content(file: ConfigFile): Db
    requires StorageGiven(file)
  {
    Db(file.clusters,
       map n | n in file.storage :: StorageDto.ToModel(file.storage[n]).value,
       file.policies,
       file.agents,
       file.routines)
  }

  /** Every routine can be looked up. */
  predicate Loads(db: Db) {
    AllFound(db, db.routines)
  }

  predicate AllFound(db: Db, routines: map<string, Names>) {
    forall n :: n in routines ==> Refusal(db, routines[n]).None?
  }

  /** Some routine is refused with this error. */
  predicate SomeRefused(db: Db, routines: map<string, Names>, err: Option<Error>) {
    exists n :: n in routines && Refusal(db, routines[n]) == err
  }

  // ----- from the file to the model -----

  /** The part of a map whose keys are not left to do. */
  function Done<V>(m: map<string, V>, todo: set<string>): map<string, V> {
    map n | n in m && n !in todo :: m[n]
  }

  lemma DoneOneMore<V>(m: map<string, V>, todo: set<string>, n: string)
    requires n in todo && n in m
    ensures Done(m, todo - {n}) == Done(m, todo)[n := m[n]] && n !in Done(m, todo)
  {
  }

  lemma DoneNone<V>(m: map<string, V>)
    ensures Done(m, m.Keys) == map[] && Done(m, {}) == m
  {
  }

  method LoadClusters(config: Config, values: map<string, ClusterModel>, ghost g: Graph, ghost db: Db) returns (err: Option<Error>, ghost h: Graph)
    requires config.Snapshot() == g && db in Meanings(g) && db.clusters == map[]
    modifies config`clusters
    ensures err == None && config.Snapshot() == h && db.(clusters := values) in Meanings(h)
  {
    var todo := values.Keys;
    h, err := g, None;
    DoneNone(values);
    assert db.(clusters := map[]) == db;
    while todo != {} && err == None
      invariant todo <= values.Keys && err == None
      invariant config.Snapshot() == h && db.(clusters := Done(values, todo)) in Meanings(h)
      decreases todo
    {
      var n :| n in todo;
      DoneOneMore(values, todo, n);
      err, h := AddClusterValue(config, n, values[n], h, db.(clusters := Done(values, todo)));
      todo := todo - {n};
    }
  }

  method LoadStorage(config: Config, values: map<string, StorageDto.StorageDto>, ghost want: map<string, StorageModel>, ghost g: Graph, ghost db: Db) returns (err: Option<Error>, ghost h: Graph)
    requires config.Snapshot() == g && db in Meanings(g) && db.storage == map[]
    requires want.Keys == values.Keys && forall n :: n in values ==> StorageDto.ToModel(values[n]) == Some(want[n])
    modifies config`storage
    ensures err == None && config.Snapshot() == h && db.(storage := want) in Meanings(h)
  {
    var todo := values.Keys;
    h, err := g, None;
    DoneNone(want);
    assert db.(storage := map[]) == db;
    while todo != {} && err == None
      invariant todo <= values.Keys && err == None
      invariant config.Snapshot() == h && db.(storage := Done(want, todo)) in Meanings(h)
      decreases todo
    {
      var n :| n in todo;
      DoneOneMore(want, todo, n);
      err, h := AddStorageValue(config, n, StorageDto.ToModel(values[n]).value, h, db.(storage := Done(want, todo)));
      todo := todo - {n};
    }
  }

  method LoadPolicies(config: Config, values: map<string, PolicyModel>, ghost g: Graph, ghost db: Db) returns (err: Option<Error>, ghost h: Graph)
    requires config.Snapshot() == g && db in Meanings(g) && db.policies == map[]
    modifies config`policies
    ensures err == None && config.Snapshot() == h && db.(policies := values) in Meanings(h)
  {
    var todo := values.Keys;
    h, err := g, None;
    DoneNone(values);
    assert db.(policies := map[]) == db;
    while todo != {} && err == None
      invariant todo <= values.Keys && err == None
      invariant config.Snapshot() == h && db.(policies := Done(values, todo)) in Meanings(h)
      decreases todo
    {
      var n :| n in todo;
      DoneOneMore(values, todo, n);
      err, h := AddPolicyValue(config, n, values[n], h, db.(policies := Done(values, todo)));
      todo := todo - {n};
    }
  }

  method LoadAgents(config: Config, values: map<string, AgentModel>, ghost g: Graph, ghost db: Db) returns (err: Option<Error>, ghost h: Graph)
    requires config.Snapshot() == g && db in Meanings(g) && db.agents == map[]
    modifies config`agents
    ensures err == None && config.Snapshot() == h && db.(agents := values) in Meanings(h)
  {
    var todo := values.Keys;
    h, err := g, None;
    DoneNone(values);
    assert db.(agents := map[]) == db;
    while todo != {} && err == None
      invariant todo <= values.Keys && err == None
      invariant config.Snapshot() == h && db.(agents := Done(values, todo)) in Meanings(h)
      decreases todo
    {
      var n :| n in todo;
      DoneOneMore(values, todo, n);
      err, h := AddAgentValue(config, n, values[n], h, db.(agents := Done(values, todo)));
      todo := todo - {n};
    }
  }

  method LoadRoutine(config: Config, name: string, names: Names, ghost done: map<string, Names>, ghost g: Graph, ghost db: Db)
    returns (err: Option<Error>, ghost h: Graph)
    requires config.Snapshot() == g && db.(routines := done) in Meanings(g) && name !in done
    modifies config`routines
    ensures err == Refusal(db, names)
    ensures err.None? ==> config.Snapshot() == h && db.(routines := done[name := names]) in Meanings(h)
  {
    OtherRoutinesDoNotMatter(db, done, names);
    err, h := AddRoutineNames(config, name, names, g, db.(routines := done));
  }

  /** Routines are looked up in any order; the first that cannot be looked up ends the loop. */
  method LoadRoutines(config: Config, values: map<string, Names>, ghost g: Graph, ghost db: Db) returns (err: Option<Error>, ghost h: Graph)
    requires config.Snapshot() == g && db in Meanings(g) && db.routines == map[]
    modifies config`routines
    ensures if err.None? then AllFound(db, values) else SomeRefused(db, values, err)
    ensures err.None? ==> config.Snapshot() == h && db.(routines := values) in Meanings(h)
  {
    var todo := values.Keys;
    h, err := g, None;
    DoneNone(values);
    assert db.(routines := map[]) == db;
    while todo != {} && err == None
      invariant todo <= values.Keys
      invariant if err.None? then AllFound(db, Done(values, todo)) else SomeRefused(db, values, err)
      invariant err.None? ==> config.Snapshot() == h && db.(routines := Done(values, todo)) in Meanings(h)
      decreases todo
    {
      var n :| n in todo;
      ghost var done := Done(values, todo);
      DoneOneMore(values, todo, n);
      err, h := LoadRoutine(config, n, values[n], done, h, db);
      OneMoreFound(db, done, values, n, err);
      todo := todo - {n};
    }
  }

  lemma OneMoreFound(db: Db, done: map<string, Names>, values: map<string, Names>, n: string, err: Option<Error>)
    requires AllFound(db, done) && n in values && err == Refusal(db, values[n])
    ensures if err.None? then AllFound(db, done[n := values[n]]) else SomeRefused(db, values, err)
  {
  }

  lemma OtherRoutinesDoNotMatter(db: Db, routines: map<string, Names>, names: Names)
    ensures Refusal(db.(routines := routines), names) == Refusal(db, names)
  {
  }

  lemma FoundAmongRoutines(db: Db, routines: map<string, Names>, err: Option<Error>)
    ensures Loads(db.(routines := routines)) <==> AllFound(db, routines)
    ensures SomeRefused(db.(routines := routines), routines, err) <==> SomeRefused(db, routines, err)
  {
    forall n | n in routines
      ensures Refusal(db.(routines := routines), routines[n]) == Refusal(db, routines[n])
    {
      OtherRoutinesDoNotMatter(db, routines, routines[n]);
    }
  }

  /** All but the routines: every name is new, so no addition is refused. */
  method LoadShared(file: ConfigFile) returns (config: Config, ghost g: Graph)
    requires StorageGiven(file)
    ensures fresh(config) && config.Snapshot() == g && Content(file).(routines := map[]) in Meanings(g)
  {
    config := new Config();
    g := config.Snapshot();
    ghost var db, all := Db(map[], map[], map[], map[], map[]), Content(file);
    assert db in Meanings(g);
    var err;
    err, g := LoadClusters(config, file.clusters, g, db);
    db := db.(clusters := file.clusters);
    err, g := LoadStorage(config, file.storage, all.storage, g, db);
    db := db.(storage := all.storage);
    err, g := LoadPolicies(config, file.policies, g, db);
    db := db.(policies := file.policies);
    err, g := LoadAgents(config, file.agents, g, db);
  }

  /** The program's objects hold what the file says, and every routine points to the objects that the
      file names for it. */
  ghost predicate Holds(config: Config, file: ConfigFile)
    reads config, config.routines.Values
  {
    && config.clusters.Keys == file.clusters.Keys && (forall n :: n in file.clusters ==> config.clusters[n].value == file.clusters[n])
    && config.policies.Keys == file.policies.Keys && (forall n :: n in file.policies ==> config.policies[n].value == file.policies[n])
    && config.agents.Keys == file.agents.Keys && (forall n :: n in file.agents ==> config.agents[n].value == file.agents[n])
    && config.storage.Keys == file.storage.Keys
    && (forall n :: n in file.storage ==> StorageDto.ToModel(file.storage[n]) == Some(config.storage[n].value))
    && config.routines.Keys == file.routines.Keys && forall n :: n in file.routines ==> PointsTo(config, config.routines[n].Fields(), file.routines[n])
  }

  ghost predicate PointsTo(config: Config, r: Pointers, names: Names)
    reads config
  {
    && names.policy in config.policies && r.policy == config.policies[names.policy]
    && names.cluster in config.clusters && r.cluster == config.clusters[names.cluster]
    && names.storage in config.storage && r.storage == config.storage[names.storage]
    && (if names.agent.Some? then names.agent.value in config.agents && r.agent == config.agents[names.agent.value] else r.agent == null)
    && r.schedule == names.schedule
  }

  lemma RepresentsMeansHolds(config: Config, g: Graph, file: ConfigFile)
    requires StorageGiven(file) && config.Snapshot() == g && Represents(g, Content(file))
    ensures Holds(config, file)
  {
    var db := Content(file);
    assert g.routines == config.RoutineFields();
    forall n | n in file.routines
      ensures n in config.routines && PointsTo(config, config.routines[n].Fields(), file.routines[n])
    {
      assert Resolves(g, g.routines[n], db.routines[n]) && g.routines[n] == config.routines[n].Fields();
    }
  }

  lemma RefusalMeans(file: ConfigFile, names: Names)
    requires StorageGiven(file)
    ensures var found := names.policy in file.policies && names.cluster in file.clusters;
            var tooMany := found && file.clusters[names.cluster].maxParallelScans.Some?
                           && |names.schedule.setList| > file.clusters[names.cluster].maxParallelScans.value;
            var all := found && names.storage in file.storage && (names.agent.Some? ==> names.agent.value in file.agents);
            Refusal(Content(file), names) == if tooMany then Some(TooManySets) else if all then None else Some(NotFound)
  {
  }

  /** A file loads in every order of its entries or in none: exactly when every routine's names are
      configured and its set list fits. Otherwise the error is that of some routine: too many sets when
      its policy and cluster are configured but its set list does not fit, and else not found. Any two
      results stand for the same configuration. */
  method ToModel(file: ConfigFile) returns (config: Config, err: Option<Error>, ghost g: Graph)
    requires StorageGiven(file)
    ensures err.None? <==> forall n :: n in file.routines ==>
              var names := file.routines[n];
              && names.policy in file.policies && names.cluster in file.clusters && names.storage in file.storage
              && (names.agent.Some? ==> names.agent.value in file.agents)
              && (file.clusters[names.cluster].maxParallelScans.Some? ==>
                    |names.schedule.setList| <= file.clusters[names.cluster].maxParallelScans.value)
    ensures err.Some? ==> exists n ::
              n in file.routines && var names := file.routines[n];
              err == if names.policy in file.policies && names.cluster in file.clusters
                        && file.clusters[names.cluster].maxParallelScans.Some?
                        && |names.schedule.setList| > file.clusters[names.cluster].maxParallelScans.value
                     then Some(TooManySets) else Some(NotFound)
    ensures err.None? <==> Loads(Content(file))
    ensures err.None? ==> config.Snapshot() == g && Content(file) in Meanings(g) && Holds(config, file)
  {
    ghost var db, all := Content(file).(routines := map[]), Content(file);
    config, g := LoadShared(file);
    err, g := LoadRoutines(config, file.routines, g, db);
    assert db.(routines := file.routines) == all;
    LoadsMeans(file, db, err);
    if err.None? {
      RepresentsMeansHolds(config, g, file);
    }
  }

  lemma LoadsMeans(file: ConfigFile, db: Db, err: Option<Error>)
    requires StorageGiven(file) && db == Content(file).(routines := map[])
    requires if err.None? then AllFound(db, file.routines) else SomeRefused(db, file.routines, err)
    ensures err.None? <==> forall n :: n in file.routines ==>
              var names := file.routines[n];
              && names.policy in file.policies && names.cluster in file.clusters && names.storage in file.storage
              && (names.agent.Some? ==> names.agent.value in file.agents)
              && (file.clusters[names.cluster].maxParallelScans.Some? ==>
                    |names.schedule.setList| <= file.clusters[names.cluster].maxParallelScans.value)
    ensures err.Some? ==> exists n ::
              n in file.routines && var names := file.routines[n];
              err == if names.policy in file.policies && names.cluster in file.clusters
                        && file.clusters[names.cluster].maxParallelScans.Some?
                        && |names.schedule.setList| > file.clusters[names.cluster].maxParallelScans.value
                     then Some(TooManySets) else Some(NotFound)
    ensures err.None? <==> Loads(Content(file))
  {
    assert db.(routines := file.routines) == Content(file);
    FoundAmongRoutines(db, file.routines, err);
    forall n | n in file.routines
      ensures Refusal(db, file.routines[n]) == Refusal(Content(file), file.routines[n])
    {
      OtherRoutinesDoNotMatter(db, file.routines, file.routines[n]);
    }
    forall n | n in file.routines
      ensures var names := file.routines[n];
              var found := names.policy in file.policies && names.cluster in file.clusters;
              var tooMany := found && file.clusters[names.cluster].maxParallelScans.Some?
                             && |names.schedule.setList| > file.clusters[names.cluster].maxParallelScans.value;
              var all := found && names.storage in file.storage && (names.agent.Some? ==> names.agent.value in file.agents);
              Refusal(Content(file), names) == if tooMany then Some(TooManySets) else if all then None else Some(NotFound)
    {
      RefusalMeans(file, file.routines[n]);
    }
    if err.Some? {
      var n :| n in file.routines && Refusal(db, file.routines[n]) == err;
      assert Refusal(Content(file), file.routines[n]).Some?;
    }
  }

  // ----- from the model to the file -----

  /** Credentials are read without asking whether they are given; `None` stands for the panic. */
  function ClusterFromModel(m: ClusterModel): Option<ClusterModel> {
    if m.credentials.None? then None else Some(m)
  }

  /** The guard on compression looks at the new object, where it is never set. */
  function PolicyFromModel(m: PolicyModel): PolicyModel {
    var p := PolicyModel(m.maxRetries, m.removeFiles, m.encryption, None, m.sealed);
    if p.compression.Some? then p.(compression := m.compression) else p
  }

  predicate HasCredentials(db: Db) {
    forall n :: n in db.clusters ==> db.clusters[n].credentials.Some?
  }

  predicate HasNoCompression(db: Db) {
    forall n :: n in db.policies ==> db.policies[n].compression.None?
  }

  function WrittenStorage(m: map<string, StorageModel>): map<string, StorageDto.StorageDto> {
    map n | n in m :: StorageDto.FromModel(m[n])
  }

  function WrittenPolicies(m: map<string, PolicyModel>): map<string, PolicyModel> {
    map n | n in m :: PolicyFromModel(m[n])
  }

  /** The file of a name-keyed configuration. */
  function Written(db: Db): ConfigFile {
    ConfigFile(db.clusters, WrittenStorage(db.storage), WrittenPolicies(db.policies), db.agents, db.routines)
  }

  method FindKeyByValue<V(==)>(m: map<string, V>, value: V) returns (key: string)
    ensures if value in m.Values then key in m && m[key] == value else key == ""
  {
    var todo := m.Keys;
    while todo != {}
      invariant todo <= m.Keys && forall n :: n in m && n !in todo ==> m[n] != value
      decreases todo
    {
      var n :| n in todo;
      if m[n] == value {
        return n;
      }
      todo := todo - {n};
    }
    return "";
  }

  /** The names found for the pointers of a routine are the ones it was configured with. */
  method RoutineFromModel(config: Config, r: Routine, ghost g: Graph, ghost names: Names) returns (found: Names)
    requires config.Snapshot() == g && Resolves(g, r.Fields(), names)
    requires Injective(g.clusters) && Injective(g.storage) && Injective(g.policies) && Injective(g.agents)
    ensures found == names
  {
    var policy := FindKeyByValue(config.policies, r.policy);
    var cluster := FindKeyByValue(config.clusters, r.cluster);
    var storage := FindKeyByValue(config.storage, r.storage);
    var agent := None;
    if r.agent != null {
      var key := FindKeyByValue(config.agents, r.agent);
      agent := Some(key);
    }
    found := Names(policy, cluster, storage, agent, r.schedule);
  }

  method WriteClusters(config: Config, ghost want: map<string, ClusterModel>) returns (out: Option<map<string, ClusterModel>>)
    requires want.Keys == config.clusters.Keys && forall n :: n in want ==> config.clusters[n].value == want[n]
    ensures out == if forall n :: n in want ==> want[n].credentials.Some? then Some(want) else None
  {
    var todo, done := config.clusters.Keys, map[];
    DoneNone(want);
    while todo != {}
      invariant todo <= want.Keys && done == Done(want, todo)
      invariant forall n :: n in done ==> want[n].credentials.Some?
      decreases todo
    {
      var n :| n in todo;
      DoneOneMore(want, todo, n);
      var c := ClusterFromModel(config.clusters[n].value);
      if c.None? {
        return None;
      }
      done := done[n := c.value];
      todo := todo - {n};
    }
    return Some(done);
  }

  method WriteStorage(config: Config, ghost want: map<string, StorageModel>) returns (out: map<string, StorageDto.StorageDto>)
    requires want.Keys == config.storage.Keys && forall n :: n in want ==> config.storage[n].value == want[n]
    ensures out == WrittenStorage(want)
  {
    var todo := config.storage.Keys;
    out := map[];
    DoneNone(WrittenStorage(want));
    while todo != {}
      invariant todo <= want.Keys && out == Done(WrittenStorage(want), todo)
      decreases todo
    {
      var n :| n in todo;
      DoneOneMore(WrittenStorage(want), todo, n);
      out := out[n := StorageDto.FromModel(config.storage[n].value)];
      todo := todo - {n};
    }
  }

  method WritePolicies(config: Config, ghost want: map<string, PolicyModel>) returns (out: map<string, PolicyModel>)
    requires want.Keys == config.policies.Keys && forall n :: n in want ==> config.policies[n].value == want[n]
    ensures out == WrittenPolicies(want)
  {
    var todo := config.policies.Keys;
    out := map[];
    DoneNone(WrittenPolicies(want));
    while todo != {}
      invariant todo <= want.Keys && out == Done(WrittenPolicies(want), todo)
      decreases todo
    {
      var n :| n in todo;
      DoneOneMore(WrittenPolicies(want), todo, n);
      out := out[n := PolicyFromModel(config.policies[n].value)];
      todo := todo - {n};
    }
  }

  method WriteAgents(config: Config, ghost want: map<string, AgentModel>) returns (out: map<string, AgentModel>)
    requires want.Keys == config.agents.Keys && forall n :: n in want ==> config.agents[n].value == want[n]
    ensures out == want
  {
    var todo := config.agents.Keys;
    out := map[];
    DoneNone(want);
    while todo != {}
      invariant todo <= want.Keys && out == Done(want, todo)
      decreases todo
    {
      var n :| n in todo;
      DoneOneMore(want, todo, n);
      out := out[n := config.agents[n].value];
      todo := todo - {n};
    }
  }

  method WriteRoutines(config: Config, ghost g: Graph, ghost db: Db) returns (out: map<string, Names>)
    requires config.Snapshot() == g && Resolved(g, g.routines, db.routines)
    requires Injective(g.clusters) && Injective(g.storage) && Injective(g.policies) && Injective(g.agents)
    ensures out == db.routines
  {
    var todo := config.routines.Keys;
    out := map[];
    assert g.routines.Keys == todo;
    DoneNone(db.routines);
    while todo != {}
      invariant todo <= config.routines.Keys && out == Done(db.routines, todo)
      decreases todo
    {
      var n :| n in todo;
      DoneOneMore(db.routines, todo, n);
      assert g.routines[n] == config.routines[n].Fields() && Resolves(g, g.routines[n], db.routines[n]);
      var names := RoutineFromModel(config, config.routines[n], g, db.routines[n]);
      out := out[n := names];
      todo := todo - {n};
    }
  }

  /** The file says what the program's objects hold, except for compression, and names for every
      routine the objects that it points to. */
  ghost predicate Records(file: ConfigFile, config: Config)
    reads config, config.routines.Values
  {
    && file.clusters.Keys == config.clusters.Keys && (forall n :: n in file.clusters ==> file.clusters[n] == config.clusters[n].value)
    && file.policies.Keys == config.policies.Keys
    && (forall n :: n in file.policies ==> file.policies[n] == config.policies[n].value.(compression := None))
    && file.agents.Keys == config.agents.Keys && (forall n :: n in file.agents ==> file.agents[n] == config.agents[n].value)
    && file.storage.Keys == config.storage.Keys
    && (forall n :: n in file.storage ==> file.storage[n] == StorageDto.FromModel(config.storage[n].value))
    && file.routines.Keys == config.routines.Keys && forall n :: n in file.routines ==> PointsTo(config, config.routines[n].Fields(), file.routines[n])
  }

  lemma WrittenRecords(config: Config, g: Graph, db: Db)
    requires config.Snapshot() == g && Represents(g, db)
    ensures Records(Written(db), config)
  {
    assert g.routines == config.RoutineFields();
    forall n | n in db.routines
      ensures n in config.routines && PointsTo(config, config.routines[n].Fields(), db.routines[n])
    {
      assert Resolves(g, g.routines[n], db.routines[n]) && g.routines[n] == config.routines[n].Fields();
    }
  }

  lemma CredentialsMean(config: Config, g: Graph, db: Db)
    requires config.Snapshot() == g && SameValues(g, db)
    ensures HasCredentials(db) <==> forall n :: n in config.clusters ==> config.clusters[n].value.credentials.Some?
  {
    assert config.clusters == g.clusters;
  }

  /** Writing recovers the name-keyed configuration from the pointers, in any order of the entries,
      except for compression; it panics exactly when a cluster has no credentials. */
  method FromModel(config: Config, ghost g: Graph, ghost db: Db) returns (file: Option<ConfigFile>)
    requires config.Snapshot() == g && Represents(g, db)
    ensures file.Some? <==> forall n :: n in config.clusters ==> config.clusters[n].value.credentials.Some?
    ensures file.Some? ==> Records(file.value, config)
    ensures file == if HasCredentials(db) then Some(Written(db)) else None
  {
    CredentialsMean(config, g, db);
    WrittenRecords(config, g, db);
    file := WriteAll(config, g, db);
  }

  method WriteAll(config: Config, ghost g: Graph, ghost db: Db) returns (file: Option<ConfigFile>)
    requires config.Snapshot() == g && Represents(g, db)
    ensures file == if HasCredentials(db) then Some(Written(db)) else None
  {
    var clusters := WriteClusters(config, db.clusters);
    if clusters.None? {
      return None;
    }
    var storage := WriteStorage(config, db.storage);
    var policies := WritePolicies(config, db.policies);
    var routines := WriteRoutines(config, g, db);
    var agents := WriteAgents(config, db.agents);
    file := Some(ConfigFile(clusters.value, storage, policies, agents, routines));
  }

  // ----- there and back again -----

  predicate ValidStorage(file: ConfigFile) {
    forall n :: n in file.storage ==> StorageDto.Valid(file.storage[n])
  }

  lemma ValidStorageIsGiven(file: ConfigFile)
    requires ValidStorage(file)
    ensures StorageGiven(file)
  {
    forall n | n in file.storage
      ensures StorageDto.ToModel(file.storage[n]).Some?
    {
      StorageDto.ConversionIsStable(file.storage[n]);
    }
  }

  /** The written file is valid again and describes the same configuration without compression. */
  lemma WrittenContent(file: ConfigFile)
    requires ValidStorage(file) && StorageGiven(file)
    ensures ValidStorage(Written(Content(file))) && StorageGiven(Written(Content(file)))
    ensures Content(Written(Content(file))) == Content(file).(policies := WrittenPolicies(file.policies))
  {
    var again := Written(Content(file));
    forall n | n in again.storage
      ensures StorageDto.Valid(again.storage[n]) && StorageDto.ToModel(again.storage[n]) == StorageDto.ToModel(file.storage[n])
    {
      StorageDto.ConversionIsStable(file.storage[n]);
    }
    ValidStorageIsGiven(again);
    assert Content(again).storage == Content(file).storage;
  }

  /** The written file describes the same configuration exactly when no policy compresses. */
  lemma RoundTripIffNoCompression(file: ConfigFile)
    requires ValidStorage(file) && StorageGiven(file) && StorageGiven(Written(Content(file)))
    ensures Content(Written(Content(file))) == Content(file) <==> HasNoCompression(Content(file))
  {
    WrittenContent(file);
    var p, q := file.policies, WrittenPolicies(file.policies);
    forall n | n in p
      ensures p[n] == q[n] <==> p[n].compression.None?
    {
    }
    if HasNoCompression(Content(file)) {
      assert p == q;
    }
  }

  /** Policies do not decide whether a file loads. */
  lemma WrittenLoads(db: Db)
    ensures Loads(db.(policies := WrittenPolicies(db.policies))) <==> Loads(db)
  {
    var to := db.(policies := WrittenPolicies(db.policies));
    forall n | n in db.routines
      ensures Refusal(to, db.routines[n]) == Refusal(db, db.routines[n])
    {
    }
  }

  /** Loading, writing and loading again: the second graph stands for the same configuration when
      credentials are given and no policy compresses. */
  method Reload(file: ConfigFile) returns (again: Option<ConfigFile>, second: Config, err: Option<Error>, ghost g: Graph)
    requires ValidStorage(file) && StorageGiven(file)
    ensures again.Some? <==> Loads(Content(file)) && HasCredentials(Content(file))
    ensures again.Some? ==> err.None? && second.Snapshot() == g
    ensures again.Some? ==> again.value == Written(Content(file)) && StorageGiven(again.value) && Content(again.value) in Meanings(g)
    ensures again.Some? && HasNoCompression(Content(file)) ==> Content(file) in Meanings(g)
  {
    again := None;
    second, err, g := ToModel(file);
    if err.Some? {
      return;
    }
    again := FromModel(second, g, Content(file));
    if again.None? {
      return;
    }
    WrittenContent(file);
    WrittenLoads(Content(file));
    RoundTripIffNoCompression(file);
    second, err, g := ToModel(again.value);
  }

  // ----- changes after which the file no longer loads -----

  /** The new limit of a cluster is below the number of sets of a routine that scans it. */
  predicate Narrows(db: Db, op: Op) {
    && op.OnCluster? && op.cluster.Update? && op.cluster.name in db.clusters
    && exists n :: n in db.routines && db.routines[n].cluster == op.cluster.name && !Fits(op.cluster.value, db.routines[n])
  }

  lemma StillFound(db: Db, op: Op, n: string)
    requires Loads(db) && n in db.routines && n in Change(db, op).db.routines && db.routines[n] == Change(db, op).db.routines[n]
    ensures Refusal(Change(db, op).db, db.routines[n]).None? <==>
              !(op.OnCluster? && op.cluster.Update? && op.cluster.name == db.routines[n].cluster && !Fits(op.cluster.value, db.routines[n]))
  {
    assert Refusal(db, db.routines[n]).None?;
  }

  /** A change keeps the configuration loadable exactly when it does not narrow a cluster in use:
      an update of a cluster is not checked against the routines that scan it. */
  lemma StillLoadsIff(db: Db, op: Op)
    requires Loads(db)
    ensures Loads(Change(db, op).db) <==> !Narrows(db, op)
  {
    var to := Change(db, op).db;
    forall n | n in db.routines && n in to.routines && db.routines[n] == to.routines[n]
      ensures Refusal(to, db.routines[n]).None? <==>
                !(op.OnCluster? && op.cluster.Update? && op.cluster.name == db.routines[n].cluster && !Fits(op.cluster.value, db.routines[n]))
    {
      StillFound(db, op, n);
    }
  }

  /** None of the changes narrows a cluster in use. */
  predicate NeverNarrows(db: Db, ops: seq<Op>)
    decreases |ops|
  {
    ops == [] || (!Narrows(db, ops[0]) && NeverNarrows(Change(db, ops[0]).db, ops[1..]))
  }

  lemma {:induction false} RunStillLoads(db: Db, ops: seq<Op>)
    requires Loads(db) && NeverNarrows(db, ops)
    ensures Loads(After(db, ops))
    decreases |ops|
  {
    if ops != [] {
      StillLoadsIff(db, ops[0]);
      RunStillLoads(Change(db, ops[0]).db, ops[1..]);
    }
  }
}
