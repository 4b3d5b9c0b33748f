/** The values of the service configuration. Fields that every conversion copies one by one are
    represented by those that some branch of the program looks at. */
module ConfigModel {
  import opened Wrappers

  datatype Credentials = Credentials(user: Option<string>, password: Option<string>, authMode: Option<string>)

  datatype SeedNode = SeedNode(hostName: string, port: int, tlsName: string)

  datatype Tls = Tls(caFile: Option<string>, name: Option<string>)

  datatype ClusterModel = ClusterModel(
    clusterLabel: Option<string>,
    seedNodes: seq<SeedNode>,
    credentials: Option<Credentials>,
    tls: Option<Tls>,
    maxParallelScans: Option<int>)

  datatype Encryption = Encryption(mode: string, keyFile: Option<string>)

  datatype Compression = Compression(mode: string, level: int)

  datatype PolicyModel = PolicyModel(
    maxRetries: Option<int>,
    removeFiles: Option<string>,
    encryption: Option<Encryption>,
    compression: Option<Compression>,
    sealed: Option<bool>)

  datatype AgentModel = AgentModel(address: Option<string>, port: Option<int>)

  /** The plain fields of a routine. */
  datatype Schedule = Schedule(
    intervalCron: string,
    incrIntervalCron: string,
    namespaces: seq<string>,
    setList: seq<string>)
}
