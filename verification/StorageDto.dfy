/** Storage configurations as files and requests describe them, as in pkg/dto/storage.go. */
module StorageDto {
  import opened Wrappers
  import opened StorageModel

  datatype LocalDto = LocalDto(path: string)

  datatype S3Dto = S3Dto(bucket: string, path: string, region: string, profile: string, endpointOverride: Option<string>,
                         logLevel: Option<string>, minPartSize: int, maxConnsPerHost: int)

  datatype GcpDto = GcpDto(keyFile: string, bucketName: string, path: string, endpoint: string)

  datatype AzureDto = AzureDto(endpoint: string, containerName: string, path: string, accountName: string, accountKey: string,
                               tenantId: string, clientId: string, clientSecret: string)

  datatype StorageDto = StorageDto(local: Option<LocalDto>, s3: Option<S3Dto>, gcp: Option<GcpDto>, azure: Option<AzureDto>)

  predicate HasSharedKey(a: AzureDto) {
    a.accountName != "" && a.accountKey != ""
  }

  predicate HasActiveDirectory(a: AzureDto) {
    a.tenantId != "" && a.clientId != "" && a.clientSecret != ""
  }

  // ----- validation -----

  predicate ValidLocal(l: LocalDto) {
    l.path != ""
  }

  predicate ValidS3(s: S3Dto) {
    s.bucket != "" && s.region != ""
  }

  predicate ValidGcp(g: GcpDto) {
    g.keyFile != "" && g.bucketName != ""
  }

  predicate ValidAzure(a: AzureDto) {
    a.endpoint != "" && a.containerName != "" && !(HasSharedKey(a) && HasActiveDirectory(a))
  }

  /** Exactly one section is given, and it is valid. */
  predicate Valid(s: StorageDto) {
    || (s == StorageDto(s.local, None, None, None) && s.local.Some? && ValidLocal(s.local.value))
    || (s == StorageDto(None, s.s3, None, None) && s.s3.Some? && ValidS3(s.s3.value))
    || (s == StorageDto(None, None, s.gcp, None) && s.gcp.Some? && ValidGcp(s.gcp.value))
    || (s == StorageDto(None, None, None, s.azure) && s.azure.Some? && ValidAzure(s.azure.value))
  }

  /** Counts the sections and validates the last one found. */
  method Validate(s: Option<StorageDto>) returns (ok: bool)
    ensures ok <==> s.Some? && Valid(s.value)
    ensures ok <==>
              && s.Some?
              && (if s.value.local.Some? then 1 else 0) + (if s.value.s3.Some? then 1 else 0)
                 + (if s.value.gcp.Some? then 1 else 0) + (if s.value.azure.Some? then 1 else 0) == 1
              && (s.value.local.Some? ==> s.value.local.value.path != "")
              && (s.value.s3.Some? ==> s.value.s3.value.bucket != "" && s.value.s3.value.region != "")
              && (s.value.gcp.Some? ==> s.value.gcp.value.keyFile != "" && s.value.gcp.value.bucketName != "")
              && (s.value.azure.Some? ==>
                    var a := s.value.azure.value;
                    && a.endpoint != "" && a.containerName != ""
                    && !(a.accountName != "" && a.accountKey != "" && a.tenantId != "" && a.clientId != "" && a.clientSecret != ""))
  {
    if s.None? {
      return false;
    }
    var valid := false;
    var count := 0;
    if s.value.local.Some? {
      valid := ValidLocal(s.value.local.value);
      count := count + 1;
    }
    if s.value.s3.Some? {
      valid := ValidS3(s.value.s3.value);
      count := count + 1;
    }
    if s.value.gcp.Some? {
      valid := ValidGcp(s.value.gcp.value);
      count := count + 1;
    }
    if s.value.azure.Some? {
      valid := ValidAzure(s.value.azure.value);
      count := count + 1;
    }
    return count == 1 && valid;
  }

  // ----- conversion -----

  function ToAuth(a: AzureDto): AzureAuth {
    if HasSharedKey(a) then SharedKey(a.accountName, a.accountKey)
    else if HasActiveDirectory(a) then ActiveDirectory(a.tenantId, a.clientId, a.clientSecret)
    else NoAuth
  }

  /** The first section given decides; `None` stands for the nil of an empty description. */
  function ToModel(s: StorageDto): Option<StorageModel> {
    if s.local.Some? then Some(LocalStorage(s.local.value.path))
    else if s.s3.Some? then
      var x := s.s3.value;
      Some(S3Storage(x.bucket, x.path, x.region, x.profile, x.endpointOverride, x.logLevel, x.minPartSize, x.maxConnsPerHost))
    else if s.gcp.Some? then
      var x := s.gcp.value;
      Some(GcpStorage(x.keyFile, x.bucketName, x.path, x.endpoint))
    else if s.azure.Some? then
      var x := s.azure.value;
      Some(AzureStorage(x.endpoint, x.containerName, x.path, ToAuth(x)))
    else None
  }

  function AzureFromModel(endpoint: string, containerName: string, path: string, auth: AzureAuth): AzureDto {
    match auth
    case SharedKey(name, key) => AzureDto(endpoint, containerName, path, name, key, "", "", "")
    case ActiveDirectory(tenant, client, secret) => AzureDto(endpoint, containerName, path, "", "", tenant, client, secret)
    case NoAuth => AzureDto(endpoint, containerName, path, "", "", "", "", "")
  }

  function FromModel(m: StorageModel): StorageDto {
    match m
    case LocalStorage(path) => StorageDto(Some(LocalDto(path)), None, None, None)
    case S3Storage(bucket, path, region, profile, endpoint, level, size, conns) =>
      StorageDto(None, Some(S3Dto(bucket, path, region, profile, endpoint, level, size, conns)), None, None)
    case GcpStorage(keyFile, bucket, path, endpoint) => StorageDto(None, None, Some(GcpDto(keyFile, bucket, path, endpoint)), None)
    case AzureStorage(endpoint, container, path, auth) =>
      StorageDto(None, None, None, Some(AzureFromModel(endpoint, container, path, auth)))
  }

  /** Conversion keeps every field under its own name, there and back. Credentials are a shared key or a
      directory login when all parts of it are given, the key first, and none otherwise. */
  lemma ConversionKeepsFields(s: StorageDto)
    requires Valid(s)
    ensures ToModel(s).Some?
    ensures var m, d := ToModel(s).value, FromModel(ToModel(s).value);
            && (s.local.Some? ==> m.LocalStorage? && m.path == s.local.value.path && d == s)
            && (s.s3.Some? ==>
                  var x := s.s3.value;
                  && m.S3Storage? && d == s && m.bucket == x.bucket && m.path == x.path && m.region == x.region && m.profile == x.profile
                  && m.endpointOverride == x.endpointOverride && m.logLevel == x.logLevel && m.minPartSize == x.minPartSize
                  && m.maxConnsPerHost == x.maxConnsPerHost)
            && (s.gcp.Some? ==>
                  var x := s.gcp.value;
                  && m.GcpStorage? && d == s && m.keyFile == x.keyFile && m.bucketName == x.bucketName && m.path == x.path && m.endpoint == x.endpoint)
            && (s.azure.Some? ==> m.AzureStorage? && d.azure.Some? && KeepsAzure(s.azure.value, m, d.azure.value))
  {
  }

  predicate KeepsAzure(a: AzureDto, m: StorageModel, d: AzureDto)
    requires m.AzureStorage?
  {
    && m.endpoint == a.endpoint == d.endpoint && m.containerName == a.containerName == d.containerName && m.path == a.path == d.path
    && if a.accountName != "" && a.accountKey != "" then
         && m.auth.SharedKey? && m.auth.accountName == a.accountName == d.accountName && m.auth.accountKey == a.accountKey == d.accountKey
         && d.tenantId == d.clientId == d.clientSecret == ""
       else if a.tenantId != "" && a.clientId != "" && a.clientSecret != "" then
         && m.auth.ActiveDirectory? && m.auth.tenantId == a.tenantId == d.tenantId && m.auth.clientId == a.clientId == d.clientId
         && m.auth.clientSecret == a.clientSecret == d.clientSecret && d.accountName == d.accountKey == ""
       else m.auth.NoAuth? && d.accountName == d.accountKey == d.tenantId == d.clientId == d.clientSecret == ""
  }

  /** Authentication fields that conversion ignores: half a shared key, or part of a directory login. */
  predicate HasStrayFields(a: AzureDto) {
    || (!HasSharedKey(a) && (a.accountName != "" || a.accountKey != ""))
    || ((HasSharedKey(a) || !HasActiveDirectory(a)) && (a.tenantId != "" || a.clientId != "" || a.clientSecret != ""))
  }

  /** Converting a valid description, back, and again gives the same storage, and the description
      in between is valid. */
  lemma ConversionIsStable(s: StorageDto)
    requires Valid(s)
    ensures ToModel(s).Some? && Valid(FromModel(ToModel(s).value)) && ToModel(FromModel(ToModel(s).value)) == ToModel(s)
    ensures s.local.Some? <==> ToModel(s).value.LocalStorage?
    ensures s.s3.Some? <==> ToModel(s).value.S3Storage?
    ensures s.gcp.Some? <==> ToModel(s).value.GcpStorage?
    ensures s.azure.Some? <==> ToModel(s).value.AzureStorage?
  {
  }

  /** A valid description is rebuilt unchanged exactly when it has no stray authentication field. */
  lemma RebuiltIffNoStrayFields(s: StorageDto)
    requires Valid(s)
    ensures FromModel(ToModel(s).value) == s <==> (s.azure.Some? ==> !HasStrayFields(s.azure.value))
  {
  }
}
