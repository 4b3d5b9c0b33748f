/** Where backups are stored, as in pkg/service/paths.go and pkg/service/restore_config.go. Times are
    in milliseconds since 1970. */
module Paths {
  import opened FilePath

  // ----- decimal numbers -----

  function Digit(d: nat): (c: char)
    requires d < 10
    ensures '0' <= c <= '9' && c as int - '0' as int == d
  {
    '0' + d as char
  }

  function Digits(n: nat): (s: string)
    ensures s != "" && forall i :: 0 <= i < |s| ==> '0' <= s[i] <= '9'
  {
    if n < 10 then [Digit(n)] else Digits(n / 10) + [Digit(n % 10)]
  }

  function Decimal(n: int): string {
    if n < 0 then "-" + Digits(-n) else Digits(n)
  }

  /** Different numbers are printed differently. */
  lemma {:induction false} DigitsInjective(m: nat, n: nat)
    requires Digits(m) == Digits(n)
    ensures m == n
  {
    var s := Digits(m);
    assert s[|s| - 1] == Digit(m % 10) && s[|s| - 1] == Digit(n % 10);
    if m < 10 || n < 10 {
      assert |s| == 1;
    } else {
      assert Digits(m / 10) == s[..|s| - 1] == Digits(n / 10);
      DigitsInjective(m / 10, n / 10);
    }
  }

  /** The number that decimal digits stand for, most significant digit first. */
  function Value(s: string): nat
    requires forall i :: 0 <= i < |s| ==> '0' <= s[i] <= '9'
  {
    if s == "" then 0 else 10 * Value(s[..|s| - 1]) + (s[|s| - 1] as int - '0' as int)
  }

  lemma {:induction false} DigitsStandForNumber(n: nat)
    ensures Value(Digits(n)) == n
  {
    var s := Digits(n);
    if n < 10 {
      assert s[..|s| - 1] == "";
    } else {
      DigitsStandForNumber(n / 10);
      assert s[..|s| - 1] == Digits(n / 10);
    }
  }

  /** A negative number has a minus sign in front of the digits of its absolute value. */
  lemma DecimalStandsForNumber(n: int)
    ensures n < 0 ==> Decimal(n) != "" && Decimal(n)[0] == '-' && Decimal(n)[1..] == Digits(-n) && Value(Digits(-n)) == -n
    ensures n >= 0 ==> Decimal(n) == Digits(n) && Value(Digits(n)) == n
  {
    DigitsStandForNumber(if n < 0 then -n else n);
  }

  lemma DecimalInjective(m: int, n: int)
    ensures Decimal(m) == Decimal(n) <==> m == n
  {
    if Decimal(m) == Decimal(n) {
      assert (m < 0) == (Decimal(m)[0] == '-') && (n < 0) == (Decimal(n)[0] == '-');
      if m < 0 {
        assert Decimal(m)[1..] == Digits(-m) && Decimal(n)[1..] == Digits(-n);
        DigitsInjective(-m, -n);
      } else {
        DigitsInjective(m, n);
      }
    }
  }

  // ----- names -----

  /** The unreserved characters of section 2.3 of RFC 3986. */
  predicate Unreserved(c: char) {
    'a' <= c <= 'z' || 'A' <= c <= 'Z' || '0' <= c <= '9' || c in "-._~"
  }

  predicate GoodName(s: string) {
    s != "" && s != "." && s != ".." && forall i :: 0 <= i < |s| ==> Unreserved(s[i])
  }

  lemma GoodIsPlain(s: string)
    requires GoodName(s)
    ensures Plain(s)
  {
  }

  lemma DecimalIsGood(n: int)
    ensures GoodName(Decimal(n)) && Decimal(n) != "data"
  {
    var s := Digits(if n < 0 then -n else n);
    assert Decimal(n) == s || Decimal(n) == "-" + s;
    assert forall i :: 0 <= i < |Decimal(n)| ==> Unreserved(Decimal(n)[i]);
    assert '0' <= Decimal(n)[0] <= '9' || Decimal(n)[0] == '-';
  }

  // ----- paths -----

  const FULL_BACKUP_DIRECTORY := "backup"
  const INCREMENTAL_BACKUP_DIRECTORY := "incremental"
  const CONFIGURATION_BACKUP_DIRECTORY := "configuration"
  const DATA_DIRECTORY := "data"

  function FullBackupsPath(routine: string): string {
    Join(routine, FULL_BACKUP_DIRECTORY)
  }

  function IncrementalBackupsPath(routine: string): string {
    Join(routine, INCREMENTAL_BACKUP_DIRECTORY)
  }

  function GetFullPath(root: string, remove: bool, ns: string, t: int): string {
    if remove then root + "/" + DATA_DIRECTORY + "/" + ns
    else root + "/" + Decimal(t) + "/" + DATA_DIRECTORY + "/" + ns
  }

  function GetIncrementalPath(root: string, t: int): string {
    root + "/" + Decimal(t)
  }

  function GetIncrementalPathForNamespace(root: string, ns: string, t: int): string {
    GetIncrementalPath(root, t) + "/" + DATA_DIRECTORY + "/" + ns
  }

  function ConfigFileName(i: nat): string {
    "aerospike_" + Decimal(i) + ".conf"
  }

  function ConfigurationDirectory(root: string, remove: bool, t: int): string {
    if remove then root + "/" + CONFIGURATION_BACKUP_DIRECTORY else root + "/" + Decimal(t) + "/" + CONFIGURATION_BACKUP_DIRECTORY
  }

  function GetConfigurationFile(root: string, remove: bool, t: int, i: nat): string {
    Join(ConfigurationDirectory(root, remove, t), ConfigFileName(i))
  }

  function GetKey(root: string, ns: string, created: int, noTimestampInPath: bool): string {
    if noTimestampInPath then root + "/data/" + ns else root + "/" + Decimal(created) + "/data/" + ns
  }

  /** The path part of a URL that has neither scheme, host, query nor escapes. */
  predicate PathOnly(s: string) {
    (forall i :: 0 <= i < |s| ==> Unreserved(s[i]) || s[i] == '/') && !("//" <= s)
  }

  function ParseS3Path(s: string): string
    requires PathOnly(s)
  {
    if "/" <= s then s[1..] else s
  }

  function CalculateConfigurationBackupPath(key: string): string
    requires PathOnly(key)
  {
    Join(Dir(Dir(ParseS3Path(key))), CONFIGURATION_BACKUP_DIRECTORY)
  }

  // ----- paths by component -----

  function FullParts(routine: string, remove: bool, ns: string, t: int): seq<string> {
    if remove then [routine, "backup", "data", ns] else [routine, "backup", Decimal(t), "data", ns]
  }

  function IncrementalParts(routine: string, ns: string, t: int): seq<string> {
    [routine, "incremental", Decimal(t), "data", ns]
  }

  lemma RootParts(routine: string)
    requires GoodName(routine)
    ensures FullBackupsPath(routine) == Joined([routine, "backup"])
    ensures IncrementalBackupsPath(routine) == Joined([routine, "incremental"])
  {
    GoodIsPlain(routine);
    DirPlain([routine], "backup");
    DirPlain([routine], "incremental");
    assert [routine] + ["backup"] == [routine, "backup"];
    assert [routine] + ["incremental"] == [routine, "incremental"];
  }

  /** Two more components. */
  lemma DataParts(cs: seq<string>, ns: string)
    requires cs != []
    ensures Joined(cs + ["data", ns]) == Joined(cs) + "/data/" + ns
  {
    JoinedLast(cs, "data");
    JoinedLast(cs + ["data"], ns);
    assert cs + ["data"] + [ns] == cs + ["data", ns];
  }

  lemma FullPathParts(routine: string, remove: bool, ns: string, t: int)
    requires GoodName(routine)
    ensures GetFullPath(FullBackupsPath(routine), remove, ns, t) == Joined(FullParts(routine, remove, ns, t))
    ensures GetKey(FullBackupsPath(routine), ns, t, remove) == Joined(FullParts(routine, remove, ns, t))
  {
    RootParts(routine);
    var root := [routine, "backup"];
    DataParts(root, ns);
    JoinedLast(root, Decimal(t));
    DataParts(root + [Decimal(t)], ns);
    assert root + ["data", ns] == FullParts(routine, true, ns, t);
    assert root + [Decimal(t)] + ["data", ns] == FullParts(routine, false, ns, t);
  }

  lemma IncrementalPathParts(routine: string, ns: string, t: int)
    requires GoodName(routine)
    ensures GetIncrementalPath(IncrementalBackupsPath(routine), t) == Joined([routine, "incremental", Decimal(t)])
    ensures GetIncrementalPathForNamespace(IncrementalBackupsPath(routine), ns, t) == Joined(IncrementalParts(routine, ns, t))
    ensures GetKey(IncrementalBackupsPath(routine), ns, t, false) == Joined(IncrementalParts(routine, ns, t))
  {
    RootParts(routine);
    var root := [routine, "incremental"];
    JoinedLast(root, Decimal(t));
    DataParts(root + [Decimal(t)], ns);
    assert root + [Decimal(t)] == [routine, "incremental", Decimal(t)];
    assert root + [Decimal(t)] + ["data", ns] == IncrementalParts(routine, ns, t);
  }

  // ----- round trips -----

  lemma PartsArePlain(routine: string, remove: bool, ns: string, t: int)
    requires GoodName(routine) && GoodName(ns)
    ensures AllPlain(FullParts(routine, remove, ns, t)) && AllPlain(IncrementalParts(routine, ns, t))
  {
    GoodIsPlain(routine);
    GoodIsPlain(ns);
    DecimalIsGood(t);
    GoodIsPlain(Decimal(t));
  }

  /** The key of a stored backup is the folder it was written to, exactly when the removal policy is
      still the same. */
  lemma KeyIsFolderIff(routine: string, ns: string, t: int, written: bool, read: bool)
    requires GoodName(routine) && GoodName(ns)
    ensures GetKey(FullBackupsPath(routine), ns, t, read) == GetFullPath(FullBackupsPath(routine), written, ns, t) <==> read == written
    ensures GetKey(IncrementalBackupsPath(routine), ns, t, false) == GetIncrementalPathForNamespace(IncrementalBackupsPath(routine), ns, t)
  {
    FullPathParts(routine, read, ns, t);
    FullPathParts(routine, written, ns, t);
    IncrementalPathParts(routine, ns, t);
    PartsArePlain(routine, read, ns, t);
    PartsArePlain(routine, written, ns, t);
    BelowJoined(FullParts(routine, read, ns, t), FullParts(routine, written, ns, t));
    assert read != written ==> |FullParts(routine, read, ns, t)| != |FullParts(routine, written, ns, t)|;
  }

  /** A path of good names is read from a URL as it is. */
  lemma {:induction false} GoodPathOnly(cs: seq<string>)
    requires cs != [] && forall i :: 0 <= i < |cs| ==> GoodName(cs[i])
    ensures PathOnly(Joined(cs)) && ParseS3Path(Joined(cs)) == Joined(cs) && Joined(cs) != "" && Joined(cs)[0] != '/'
  {
    if |cs| == 1 {
      assert Unreserved(cs[0][0]);
    } else {
      GoodPathOnly(cs[..|cs| - 1]);
    }
  }

  /** The directory of a backup without its namespace and data directory. */
  function RunParts(routine: string, remove: bool, t: int): seq<string> {
    if remove then [routine, "backup"] else [routine, "backup", Decimal(t)]
  }

  lemma RunPartsPlain(routine: string, remove: bool, t: int)
    requires GoodName(routine)
    ensures AllPlain(RunParts(routine, remove, t)) && forall i :: 0 <= i < |RunParts(routine, remove, t)| ==> GoodName(RunParts(routine, remove, t)[i])
  {
    GoodIsPlain(routine);
    DecimalIsGood(t);
    GoodIsPlain(Decimal(t));
  }

  lemma ConfigurationDirParts(routine: string, remove: bool, t: int)
    requires GoodName(routine)
    ensures Joined(RunParts(routine, remove, t) + ["configuration"]) ==
              ConfigurationDirectory(FullBackupsPath(routine), remove, t)
  {
    RootParts(routine);
    JoinedLast([routine, "backup"], Decimal(t));
    assert [routine, "backup"] + [Decimal(t)] == [routine, "backup", Decimal(t)];
    JoinedLast(RunParts(routine, remove, t), "configuration");
  }

  lemma ConfigFileNameIsPlain(i: nat)
    ensures Plain(ConfigFileName(i))
  {
    DecimalIsGood(i);
    GoodIsPlain(Decimal(i));
    assert ConfigFileName(i)[0] == 'a';
  }

  lemma {:induction false} ConfigurationFileParts(routine: string, remove: bool, t: int, i: nat)
    requires GoodName(routine)
    ensures Dir(GetConfigurationFile(FullBackupsPath(routine), remove, t, i)) == Joined(RunParts(routine, remove, t) + ["configuration"])
  {
    ConfigurationDirParts(routine, remove, t);
    RunPartsPlain(routine, remove, t);
    ConfigFileNameIsPlain(i);
    FileInDirectory(RunParts(routine, remove, t), "configuration", ConfigFileName(i));
  }

  lemma {:induction false} FileInDirectory(cs: seq<string>, dir: string, file: string)
    requires AllPlain(cs) && Plain(dir) && Plain(file)
    ensures Dir(Join(Joined(cs + [dir]), file)) == Joined(cs + [dir])
  {
    DirPlain(cs + [dir], file);
  }

  /** Two directories up from a backup is the directory of its run. */
  lemma {:induction false} TwoUp(run: seq<string>, ns: string)
    requires run != [] && AllPlain(run) && Plain(ns)
    ensures Join(Dir(Dir(Joined(run + ["data"] + [ns]))), CONFIGURATION_BACKUP_DIRECTORY) == Joined(run + ["configuration"])
  {
    DirPlain(run + ["data"], ns);
    DirPlain(run, "data");
    DirPlain(run, "configuration");
  }

  /** The configuration is looked for in the folder it was written to. */
  lemma {:induction false} ConfigurationIsFound(routine: string, remove: bool, ns: string, t: int, i: nat)
    requires GoodName(routine) && GoodName(ns)
    ensures var key := GetKey(FullBackupsPath(routine), ns, t, remove);
            PathOnly(key) && CalculateConfigurationBackupPath(key) == Dir(GetConfigurationFile(FullBackupsPath(routine), remove, t, i))
  {
    var run := RunParts(routine, remove, t);
    var key := GetKey(FullBackupsPath(routine), ns, t, remove);
    KeyParts(routine, remove, ns, t);
    ConfigurationFileParts(routine, remove, t, i);
    RunPartsPlain(routine, remove, t);
    GoodIsPlain(ns);
    TwoUp(run, ns);
  }

  lemma {:induction false} KeyParts(routine: string, remove: bool, ns: string, t: int)
    requires GoodName(routine) && GoodName(ns)
    ensures var key := GetKey(FullBackupsPath(routine), ns, t, remove);
            key == Joined(RunParts(routine, remove, t) + ["data"] + [ns]) && PathOnly(key) && ParseS3Path(key) == key
  {
    var parts := RunParts(routine, remove, t) + ["data"] + [ns];
    FullPathParts(routine, remove, ns, t);
    assert FullParts(routine, remove, ns, t) == parts;
    RunPartsPlain(routine, remove, t);
    GoodPathOnly(parts);
  }

  /** Different nodes of the cluster have different configuration files. */
  lemma ConfigFilesDiffer(i: nat, j: nat)
    ensures ConfigFileName(i) == ConfigFileName(j) <==> i == j
  {
    DecimalInjective(i, j);
    var a, b := ConfigFileName(i), ConfigFileName(j);
    assert a[10..|a| - 5] == Decimal(i) && b[10..|b| - 5] == Decimal(j);
  }

  /** The folders and files, spelled out. */
  lemma {:induction false} Roots(routine: string)
    requires GoodName(routine)
    ensures FullBackupsPath(routine) == routine + "/" + "backup" && IncrementalBackupsPath(routine) == routine + "/" + "incremental"
  {
    RootParts(routine);
    JoinedLast([routine], "backup");
    JoinedLast([routine], "incremental");
    assert [routine] + ["backup"] == [routine, "backup"] && [routine] + ["incremental"] == [routine, "incremental"];
  }

  lemma {:induction false} FullLayout(routine: string, ns: string, t: int)
    requires GoodName(routine)
    ensures GetFullPath(FullBackupsPath(routine), true, ns, t) == routine + "/" + "backup" + "/" + "data" + "/" + ns
    ensures GetFullPath(FullBackupsPath(routine), false, ns, t) == routine + "/" + "backup" + "/" + Decimal(t) + "/" + "data" + "/" + ns
  {
    Roots(routine);
  }

  lemma {:induction false} IncrementalLayout(routine: string, ns: string, t: int)
    requires GoodName(routine)
    ensures GetIncrementalPath(IncrementalBackupsPath(routine), t) == routine + "/" + "incremental" + "/" + Decimal(t)
    ensures GetIncrementalPathForNamespace(IncrementalBackupsPath(routine), ns, t)
            == routine + "/" + "incremental" + "/" + Decimal(t) + "/" + "data" + "/" + ns
  {
    Roots(routine);
  }

  lemma {:induction false} ConfigurationLayout(routine: string, t: int, i: nat)
    requires GoodName(routine)
    ensures GetConfigurationFile(FullBackupsPath(routine), true, t, i)
            == routine + "/" + "backup" + "/" + "configuration" + "/" + ("aerospike_" + Decimal(i) + ".conf")
    ensures GetConfigurationFile(FullBackupsPath(routine), false, t, i)
            == routine + "/" + "backup" + "/" + Decimal(t) + "/" + "configuration" + "/" + ("aerospike_" + Decimal(i) + ".conf")
  {
    Roots(routine);
    ConfigurationFileIs(routine, true, t, i);
    ConfigurationFileIs(routine, false, t, i);
  }

  lemma {:induction false} ConfigurationFileIs(routine: string, remove: bool, t: int, i: nat)
    requires GoodName(routine)
    ensures GetConfigurationFile(FullBackupsPath(routine), remove, t, i)
            == ConfigurationDirectory(FullBackupsPath(routine), remove, t) + "/" + ConfigFileName(i)
  {
    var dir := RunParts(routine, remove, t) + ["configuration"];
    ConfigurationDirParts(routine, remove, t);
    assert AllPlain(dir) by {
      RunPartsPlain(routine, remove, t);
    }
    ConfigFileNameIsPlain(i);
    DirPlain(dir, ConfigFileName(i));
    JoinedLast(dir, ConfigFileName(i));
  }

  // ----- different backups do not share a folder, and deleting one leaves the others -----

  lemma FullBelowFull(r1: string, m1: bool, ns1: string, t1: int, r2: string, m2: bool, ns2: string, t2: int)
    requires GoodName(r1) && GoodName(ns1) && GoodName(r2) && GoodName(ns2)
    ensures Below(GetFullPath(FullBackupsPath(r1), m1, ns1, t1), GetFullPath(FullBackupsPath(r2), m2, ns2, t2)) <==>
              r1 == r2 && ns1 == ns2 && m1 == m2 && (m1 || t1 == t2)
  {
    FullPathParts(r1, m1, ns1, t1);
    FullPathParts(r2, m2, ns2, t2);
    PartsArePlain(r1, m1, ns1, t1);
    PartsArePlain(r2, m2, ns2, t2);
    var cs, ds := FullParts(r1, m1, ns1, t1), FullParts(r2, m2, ns2, t2);
    BelowJoined(cs, ds);
    DecimalInjective(t1, t2);
    DecimalIsGood(t1);
    DecimalIsGood(t2);
    if ds <= cs {
      assert ds[0] == cs[0] && ds[2] == cs[2] && ds[3] == cs[3];
      assert |ds| == 5 ==> ds[4] == cs[4];
    }
  }

  /** Timestamped folders of different backups are different, and neither contains the other. */
  lemma IncrementalBelowIncremental(r1: string, ns1: string, t1: int, r2: string, ns2: string, t2: int)
    requires GoodName(r1) && GoodName(ns1) && GoodName(r2) && GoodName(ns2)
    ensures Below(GetIncrementalPathForNamespace(IncrementalBackupsPath(r1), ns1, t1), GetIncrementalPathForNamespace(IncrementalBackupsPath(r2), ns2, t2))
            <==> r1 == r2 && ns1 == ns2 && t1 == t2
  {
    IncrementalPathParts(r1, ns1, t1);
    IncrementalPathParts(r2, ns2, t2);
    PartsArePlain(r1, false, ns1, t1);
    PartsArePlain(r2, false, ns2, t2);
    var cs, ds := IncrementalParts(r1, ns1, t1), IncrementalParts(r2, ns2, t2);
    BelowJoined(cs, ds);
    DecimalInjective(t1, t2);
    if ds <= cs {
      assert ds[0] == cs[0] && ds[2] == cs[2] && ds[4] == cs[4];
    }
  }

  /** Deleting the folder of one incremental run removes the incrementals of that run only; deleting
      the incremental root removes those of the routine only; neither removes a full backup. */
  lemma DeletingIncrementals(r1: string, ns1: string, t1: int, r2: string, t2: int, remove: bool)
    requires GoodName(r1) && GoodName(ns1) && GoodName(r2)
    ensures var incr := GetIncrementalPathForNamespace(IncrementalBackupsPath(r1), ns1, t1);
            && (Below(incr, GetIncrementalPath(IncrementalBackupsPath(r2), t2)) <==> r1 == r2 && t1 == t2)
            && (Below(incr, IncrementalBackupsPath(r2)) <==> r1 == r2)
    ensures var full := GetFullPath(FullBackupsPath(r1), remove, ns1, t1);
            !Below(full, IncrementalBackupsPath(r2)) && !Below(full, GetIncrementalPath(IncrementalBackupsPath(r2), t2))
  {
    IncrementalPathParts(r1, ns1, t1);
    IncrementalPathParts(r2, ns1, t2);
    FullPathParts(r1, remove, ns1, t1);
    RootParts(r2);
    PartsArePlain(r1, remove, ns1, t1);
    PartsArePlain(r2, remove, ns1, t2);
    DecimalInjective(t1, t2);
    BelowRoots(IncrementalParts(r1, ns1, t1), r2, t2);
    BelowRoots(FullParts(r1, remove, ns1, t1), r2, t2);
  }

  lemma PrefixOf(cs: seq<string>, a: string, b: string, c: string)
    requires |cs| >= 3
    ensures [a, b] <= cs <==> cs[0] == a && cs[1] == b
    ensures [a, b, c] <= cs <==> cs[0] == a && cs[1] == b && cs[2] == c
  {
    assert [a, b] <= cs <==> cs[..2] == [a, b];
    assert [a, b, c] <= cs <==> cs[..3] == [a, b, c];
  }

  lemma {:induction false} BelowRoots(cs: seq<string>, routine: string, t: int)
    requires |cs| >= 3 && AllPlain(cs) && GoodName(routine)
    ensures Below(Joined(cs), Joined([routine, "incremental"])) <==> cs[0] == routine && cs[1] == "incremental"
    ensures Below(Joined(cs), Joined([routine, "incremental", Decimal(t)])) <==> cs[0] == routine && cs[1] == "incremental" && cs[2] == Decimal(t)
  {
    var ds, es := [routine, "incremental"], [routine, "incremental", Decimal(t)];
    assert AllPlain(ds) && AllPlain(es) by {
      GoodIsPlain(routine);
      DecimalIsGood(t);
      GoodIsPlain(Decimal(t));
    }
    BelowJoined(cs, ds);
    BelowJoined(cs, es);
    PrefixOf(cs, routine, "incremental", Decimal(t));
  }
}
