/** The mutable configuration of pkg/model/config.go, and its refinement of the name-keyed one. */
module Configuration {
  import opened Wrappers
  import opened ConfigModel
  import opened StorageModel
  import opened ConfigGraph

  class Config {
    var clusters: map<string, Cluster>
    var storage: map<string, Storage>
    var policies: map<string, Policy>
    var agents: map<string, Agent>
    var routines: map<string, Routine>

    ghost function RoutineFields(): map<string, Pointers>
      reads this`routines, routines.Values
    {
      map n | n in routines :: routines[n].Fields()
    }

    ghost function Snapshot(): Graph
      reads this, routines.Values
    {
      Graph(clusters, storage, policies, agents, RoutineFields())
    }

    constructor ()
      ensures routines == map[] && Snapshot() == Graph(map[], map[], map[], map[], map[])
    {
      clusters, storage, policies, agents, routines := map[], map[], map[], map[], map[];
    }

    // ----- clusters -----

    method AddCluster(name: string, x: Cluster) returns (err: Option<Error>)
      modifies this`clusters
      ensures err == if name in old(clusters) then Some(AlreadyExists) else None
      ensures Snapshot() == if err.Some? then old(Snapshot()) else old(Snapshot()).(clusters := old(clusters)[name := x])
    {
      if name in clusters {
        return Some(AlreadyExists);
      }
      clusters := clusters[name := x];
      return None;
    }

    /** The loop of UpdateCluster: routines that use the old object get the new one, in any order. */
    method ReassignCluster(from: Cluster, to: Cluster)
      modifies routines.Values`cluster
      ensures forall n :: n in routines ==> routines[n].cluster == if old(routines[n].cluster) == from then to else old(routines[n].cluster)
    {
      var names := routines.Keys;
      while names != {}
        invariant names <= routines.Keys
        invariant forall n :: n in routines ==>
                    routines[n].cluster == old(routines[n].cluster) || (old(routines[n].cluster) == from && routines[n].cluster == to)
        invariant forall n :: n in routines && n !in names && old(routines[n].cluster) == from ==> routines[n].cluster == to
        decreases names
      {
        var n :| n in names;
        var r := routines[n];
        if r.cluster == from {
          r.cluster := to;
        }
        names := names - {n};
      }
    }

    method ReplaceCluster(from: Cluster, to: Cluster)
      modifies routines.Values`cluster
      ensures Snapshot() == old(Snapshot()).(routines := RepointCluster(old(RoutineFields()), from, to))
    {
      ghost var before := RoutineFields();
      ReassignCluster(from, to);
      ghost var after, want := RoutineFields(), RepointCluster(before, from, to);
      forall n | n in routines
        ensures after[n] == want[n]
      {
        assert routines[n].Fields() == MovedCluster(before[n], from, to);
      }
      assert after.Keys == want.Keys;
      assert after == want;
    }

    method UpdateCluster(name: string, x: Cluster) returns (err: Option<Error>)
      modifies this`clusters, routines.Values`cluster
      ensures err == if name !in old(clusters) then Some(NotFound) else None
      ensures err.Some? ==> Snapshot() == old(Snapshot())
      ensures err.None? ==> Snapshot() == old(Snapshot()).(clusters := old(clusters)[name := x],
                                                           routines := RepointCluster(old(RoutineFields()), old(clusters[name]), x))
    {
      if name !in clusters {
        return Some(NotFound);
      }
      ReplaceCluster(clusters[name], x);
      clusters := clusters[name := x];
      return None;
    }

    /** The name of some routine that uses the object; the empty string means none, unless a
        routine has the empty name. */
    method RoutineUsesCluster(x: Cluster) returns (user: string)
      ensures (user in routines && routines[user].cluster == x) || (user == "" && forall n :: n in routines ==> routines[n].cluster != x)
    {
      var names := routines.Keys;
      while names != {}
        invariant names <= routines.Keys
        invariant forall n :: n in routines && n !in names ==> routines[n].cluster != x
        decreases names
      {
        var n :| n in names;
        if routines[n].cluster == x {
          return n;
        }
        names := names - {n};
      }
      return "";
    }

    method DeleteCluster(name: string) returns (err: Option<Error>)
      modifies this`clusters
      ensures name !in old(clusters) ==> err == Some(NotFound)
      ensures name in old(clusters) && ("" in routines ==> routines[""].cluster != old(clusters[name])) ==>
                err == if exists n :: n in routines && routines[n].cluster == old(clusters[name]) then Some(InUse) else None
      ensures name in old(clusters) && (forall n :: n in routines && n != "" ==> routines[n].cluster != old(clusters[name])) ==> err == None
      ensures Snapshot() == if err.Some? then old(Snapshot()) else old(Snapshot()).(clusters := old(clusters) - {name})
    {
      if name !in clusters {
        return Some(NotFound);
      }
      var routine := RoutineUsesCluster(clusters[name]);
      if routine != "" {
        return Some(InUse);
      }
      clusters := clusters - {name};
      return None;
    }

    // ----- storage -----

    method AddStorage(name: string, x: Storage) returns (err: Option<Error>)
      modifies this`storage
      ensures err == if name in old(storage) then Some(AlreadyExists) else None
      ensures Snapshot() == if err.Some? then old(Snapshot()) else old(Snapshot()).(storage := old(storage)[name := x])
    {
      if name in storage {
        return Some(AlreadyExists);
      }
      storage := storage[name := x];
      return None;
    }

    /** The loop of UpdateStorage: routines that use the old object get the new one, in any order. */
    method ReassignStorage(from: Storage, to: Storage)
      modifies routines.Values`storage
      ensures forall n :: n in routines ==> routines[n].storage == if old(routines[n].storage) == from then to else old(routines[n].storage)
    {
      var names := routines.Keys;
      while names != {}
        invariant names <= routines.Keys
        invariant forall n :: n in routines ==>
                    routines[n].storage == old(routines[n].storage) || (old(routines[n].storage) == from && routines[n].storage == to)
        invariant forall n :: n in routines && n !in names && old(routines[n].storage) == from ==> routines[n].storage == to
        decreases names
      {
        var n :| n in names;
        var r := routines[n];
        if r.storage == from {
          r.storage := to;
        }
        names := names - {n};
      }
    }

    method ReplaceStorage(from: Storage, to: Storage)
      modifies routines.Values`storage
      ensures Snapshot() == old(Snapshot()).(routines := RepointStorage(old(RoutineFields()), from, to))
    {
      ghost var before := RoutineFields();
      ReassignStorage(from, to);
      ghost var after, want := RoutineFields(), RepointStorage(before, from, to);
      forall n | n in routines
        ensures after[n] == want[n]
      {
        assert routines[n].Fields() == MovedStorage(before[n], from, to);
      }
      assert after.Keys == want.Keys;
      assert after == want;
    }

    method UpdateStorage(name: string, x: Storage) returns (err: Option<Error>)
      modifies this`storage, routines.Values`storage
      ensures err == if name !in old(storage) then Some(NotFound) else None
      ensures err.Some? ==> Snapshot() == old(Snapshot())
      ensures err.None? ==> Snapshot() == old(Snapshot()).(storage := old(storage)[name := x],
                                                           routines := RepointStorage(old(RoutineFields()), old(storage[name]), x))
    {
      if name !in storage {
        return Some(NotFound);
      }
      ReplaceStorage(storage[name], x);
      storage := storage[name := x];
      return None;
    }

    /** The name of some routine that uses the object; the empty string means none, unless a
        routine has the empty name. */
    method RoutineUsesStorage(x: Storage) returns (user: string)
      ensures (user in routines && routines[user].storage == x) || (user == "" && forall n :: n in routines ==> routines[n].storage != x)
    {
      var names := routines.Keys;
      while names != {}
        invariant names <= routines.Keys
        invariant forall n :: n in routines && n !in names ==> routines[n].storage != x
        decreases names
      {
        var n :| n in names;
        if routines[n].storage == x {
          return n;
        }
        names := names - {n};
      }
      return "";
    }

    method DeleteStorage(name: string) returns (err: Option<Error>)
      modifies this`storage
      ensures name !in old(storage) ==> err == Some(NotFound)
      ensures name in old(storage) && ("" in routines ==> routines[""].storage != old(storage[name])) ==>
                err == if exists n :: n in routines && routines[n].storage == old(storage[name]) then Some(InUse) else None
      ensures name in old(storage) && (forall n :: n in routines && n != "" ==> routines[n].storage != old(storage[name])) ==> err == None
      ensures Snapshot() == if err.Some? then old(Snapshot()) else old(Snapshot()).(storage := old(storage) - {name})
    {
      if name !in storage {
        return Some(NotFound);
      }
      var routine := RoutineUsesStorage(storage[name]);
      if routine != "" {
        return Some(InUse);
      }
      storage := storage - {name};
      return None;
    }

    // ----- policies -----

    method AddPolicy(name: string, x: Policy) returns (err: Option<Error>)
      modifies this`policies
      ensures err == if name in old(policies) then Some(AlreadyExists) else None
      ensures Snapshot() == if err.Some? then old(Snapshot()) else old(Snapshot()).(policies := old(policies)[name := x])
    {
      if name in policies {
        return Some(AlreadyExists);
      }
      policies := policies[name := x];
      return None;
    }

    /** The loop of UpdatePolicy: routines that use the old object get the new one, in any order. */
    method ReassignPolicy(from: Policy, to: Policy)
      modifies routines.Values`policy
      ensures forall n :: n in routines ==> routines[n].policy == if old(routines[n].policy) == from then to else old(routines[n].policy)
    {
      var names := routines.Keys;
      while names != {}
        invariant names <= routines.Keys
        invariant forall n :: n in routines ==>
                    routines[n].policy == old(routines[n].policy) || (old(routines[n].policy) == from && routines[n].policy == to)
        invariant forall n :: n in routines && n !in names && old(routines[n].policy) == from ==> routines[n].policy == to
        decreases names
      {
        var n :| n in names;
        var r := routines[n];
        if r.policy == from {
          r.policy := to;
        }
        names := names - {n};
      }
    }

    method ReplacePolicy(from: Policy, to: Policy)
      modifies routines.Values`policy
      ensures Snapshot() == old(Snapshot()).(routines := RepointPolicy(old(RoutineFields()), from, to))
    {
      ghost var before := RoutineFields();
      ReassignPolicy(from, to);
      ghost var after, want := RoutineFields(), RepointPolicy(before, from, to);
      forall n | n in routines
        ensures after[n] == want[n]
      {
        assert routines[n].Fields() == MovedPolicy(before[n], from, to);
      }
      assert after.Keys == want.Keys;
      assert after == want;
    }

    method UpdatePolicy(name: string, x: Policy) returns (err: Option<Error>)
      modifies this`policies, routines.Values`policy
      ensures err == if name !in old(policies) then Some(NotFound) else None
      ensures err.Some? ==> Snapshot() == old(Snapshot())
      ensures err.None? ==> Snapshot() == old(Snapshot()).(policies := old(policies)[name := x],
                                                           routines := RepointPolicy(old(RoutineFields()), old(policies[name]), x))
    {
      if name !in policies {
        return Some(NotFound);
      }
      ReplacePolicy(policies[name], x);
      policies := policies[name := x];
      return None;
    }

    /** The name of some routine that uses the object; the empty string means none, unless a
        routine has the empty name. */
    method RoutineUsesPolicy(x: Policy) returns (user: string)
      ensures (user in routines && routines[user].policy == x) || (user == "" && forall n :: n in routines ==> routines[n].policy != x)
    {
      var names := routines.Keys;
      while names != {}
        invariant names <= routines.Keys
        invariant forall n :: n in routines && n !in names ==> routines[n].policy != x
        decreases names
      {
        var n :| n in names;
        if routines[n].policy == x {
          return n;
        }
        names := names - {n};
      }
      return "";
    }

    method DeletePolicy(name: string) returns (err: Option<Error>)
      modifies this`policies
      ensures name !in old(policies) ==> err == Some(NotFound)
      ensures name in old(policies) && ("" in routines ==> routines[""].policy != old(policies[name])) ==>
                err == if exists n :: n in routines && routines[n].policy == old(policies[name]) then Some(InUse) else None
      ensures name in old(policies) && (forall n :: n in routines && n != "" ==> routines[n].policy != old(policies[name])) ==> err == None
      ensures Snapshot() == if err.Some? then old(Snapshot()) else old(Snapshot()).(policies := old(policies) - {name})
    {
      if name !in policies {
        return Some(NotFound);
      }
      var routine := RoutineUsesPolicy(policies[name]);
      if routine != "" {
        return Some(InUse);
      }
      policies := policies - {name};
      return None;
    }

    // ----- secret agents and routines -----

    method AddSecretAgent(name: string, x: Agent) returns (err: Option<Error>)
      modifies this`agents
      ensures err == if name in old(agents) then Some(AlreadyExists) else None
      ensures Snapshot() == if err.Some? then old(Snapshot()) else old(Snapshot()).(agents := old(agents)[name := x])
    {
      if name in agents {
        return Some(AlreadyExists);
      }
      agents := agents[name := x];
      return None;
    }

    method AddRoutine(name: string, r: Routine) returns (err: Option<Error>)
      modifies this`routines
      ensures err == if name in old(routines) then Some(AlreadyExists) else None
      ensures routines == if err.Some? then old(routines) else old(routines)[name := r]
      ensures Snapshot() == if err.Some? then old(Snapshot()) else old(Snapshot()).(routines := old(RoutineFields())[name := r.Fields()])
    {
      if name in routines {
        return Some(AlreadyExists);
      }
      routines := routines[name := r];
      assert RoutineFields() == old(RoutineFields())[name := r.Fields()];
      return None;
    }

    method UpdateRoutine(name: string, r: Routine) returns (err: Option<Error>)
      modifies this`routines
      ensures err == if name !in old(routines) then Some(NotFound) else None
      ensures routines == if err.Some? then old(routines) else old(routines)[name := r]
      ensures Snapshot() == if err.Some? then old(Snapshot()) else old(Snapshot()).(routines := old(RoutineFields())[name := r.Fields()])
    {
      if name !in routines {
        return Some(NotFound);
      }
      routines := routines[name := r];
      assert RoutineFields() == old(RoutineFields())[name := r.Fields()];
      return None;
    }

    method DeleteRoutine(name: string) returns (err: Option<Error>)
      modifies this`routines
      ensures err == if name !in old(routines) then Some(NotFound) else None
      ensures routines == if err.Some? then old(routines) else old(routines) - {name}
      ensures Snapshot() == if err.Some? then old(Snapshot()) else old(Snapshot()).(routines := old(RoutineFields()) - {name})
    {
      if name !in routines {
        return Some(NotFound);
      }
      routines := routines - {name};
      assert RoutineFields() == old(RoutineFields()) - {name};
      return None;
    }
  }
}
