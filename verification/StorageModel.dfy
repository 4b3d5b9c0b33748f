/** Storage configurations as the service uses them, as in pkg/model/storage.go. */
module StorageModel {
  import opened Wrappers

  datatype AzureAuth =
    | NoAuth
    | SharedKey(accountName: string, accountKey: string)
    | ActiveDirectory(tenantId: string, clientId: string, clientSecret: string)

  datatype StorageModel =
    | LocalStorage(path: string)
    | S3Storage(bucket: string, path: string, region: string, profile: string, endpointOverride: Option<string>,
                logLevel: Option<string>, minPartSize: int, maxConnsPerHost: int)
    | GcpStorage(keyFile: string, bucketName: string, path: string, endpoint: string)
    | AzureStorage(endpoint: string, containerName: string, path: string, auth: AzureAuth)
}
