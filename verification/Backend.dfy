/** Selection of backups from the metadata found in storage, as in pkg/service/backup_backend.go. */
module Backend {
  import opened Wrappers
  import opened History
  import opened TimeBounds

  /** The fields of a metadata file that selection and accounting use. */
  datatype Metadata = Metadata(created: Time, ns: string, records: nat)

  /** What reading the metadata files below a backup root yields. A file is `None`
      when its content does not decode. */
  datatype ReadError = NotExist | IsEmpty | Failure
  type Listing = Result<seq<Option<Metadata>>, ReadError>

  datatype BackendError = ReadFailed | Undecodable | BackupNotFound

  /** The elements satisfying `p`, in their original order. */
  function Keep<T(!new)>(s: seq<T>, p: T -> bool): (r: seq<T>)
    ensures forall x :: x in r <==> x in s && p(x)
    ensures |r| <= |s|
  {
    if s == [] then []
    else
      var n := |s| - 1;
      Keep(s[..n], p) + (if p(s[n]) then [s[n]] else [])
  }

  lemma KeepNext<T(!new)>(s: seq<T>, i: nat, p: T -> bool)
    requires i < |s|
    ensures Keep(s[..i + 1], p) == Keep(s[..i], p) + (if p(s[i]) then [s[i]] else [])
  {
    assert s[..i + 1][..i] == s[..i];
  }

  lemma {:induction false} KeepNone<T(!new)>(s: seq<T>, p: T -> bool)
    requires forall x :: x in s ==> !p(x)
    ensures Keep(s, p) == []
  {
    if s != [] {
      KeepNone(s[..|s| - 1], p);
    }
  }

  function At(t: Time): Metadata -> bool {
    (m: Metadata) => m.created == t
  }

  function Within(tb: TimeBounds): Metadata -> bool {
    (m: Metadata) => Contains(tb, m.created)
  }

  function InNamespace(ns: string): Metadata -> bool {
    (m: Metadata) => m.ns == ns
  }

  /** `t` is the latest creation time in `all` that is not after `bound`. */
  ghost predicate IsLatest(all: seq<Metadata>, bound: Time, t: Time) {
    && t <= bound
    && (exists m :: m in all && m.created == t)
    && (forall m :: m in all && m.created <= bound ==> m.created <= t)
  }

  /** One pass that keeps the group of backups with the latest creation time up to
      `upperBound`: in input order exactly the elements created at the latest such time. */
  method LatestBackupBeforeTime(all: seq<Metadata>, upperBound: Time) returns (result: seq<Metadata>)
    ensures result == [] <==> forall m :: m in all ==> upperBound < m.created
    ensures result != [] ==> IsLatest(all, upperBound, result[0].created) && result == Keep(all, At(result[0].created))
    ensures result != [] ==> result[0].created <= upperBound && forall m :: m in all && m.created <= upperBound ==> m.created <= result[0].created
    ensures result != [] ==> forall m :: m in result <==> m in all && m.created == result[0].created
  {
    result := [];
    var latestTime: Time := 0;
    assert Keep(all[..0], At(0)) == [];
    for i := 0 to |all|
      invariant result == [] <==> forall m :: m in all[..i] ==> upperBound < m.created
      invariant result != [] ==> IsLatest(all[..i], upperBound, latestTime) && result == Keep(all[..i], At(latestTime))
    {
      var current := all[i];
      assert all[..i + 1] == all[..i] + [current];
      KeepNext(all, i, At(latestTime));
      KeepNext(all, i, At(current.created));
      if upperBound < current.created {
      } else if result == [] || latestTime < current.created {
        KeepNone(all[..i], At(current.created));
        latestTime := current.created;
        result := [current];
      } else if current.created == latestTime {
        result := result + [current];
      }
      if result != [] {
        assert exists m :: m in all[..i + 1] && m.created == latestTime;
      }
    }
    assert all[..|all|] == all;
    if result != [] {
      assert result[0] in Keep(all, At(latestTime));
    }
  }

  /** The metadata of a listing in which every file decodes. */
  ghost predicate Decodes(files: seq<Option<Metadata>>, all: seq<Metadata>) {
    |all| == |files| && forall i :: 0 <= i < |files| ==> files[i] == Some(all[i])
  }

  /** A missing or empty root is an empty list; a file that does not decode fails the
      whole read, even when its backup lies outside the bounds. */
  method ReadMetadataList(listing: Listing, tb: TimeBounds) returns (r: Result<seq<Metadata>, BackendError>)
    ensures listing.Err? ==> r == if listing.error.Failure? then Err(ReadFailed) else Ok([])
    ensures listing.Ok? ==> (r.Err? <==> None in listing.value)
    ensures listing.Ok? && r.Err? ==> r.error == Undecodable
    ensures listing.Ok? ==> forall all :: Decodes(listing.value, all) ==> r == Ok(Keep(all, Within(tb)))
    ensures listing.Ok? && r.Ok? ==> forall m :: m in r.value <==>
      Some(m) in listing.value && (tb.fromTime.Some? ==> tb.fromTime.value <= m.created) && (tb.toTime.Some? ==> m.created <= tb.toTime.value)
  {
    if listing.Err? {
      return if listing.error.Failure? then Err(ReadFailed) else Ok([]);
    }
    var files := listing.value;
    var backups := [];
    for i := 0 to |files|
      invariant None !in files[..i]
      invariant forall all :: Decodes(files, all) ==> backups == Keep(all[..i], Within(tb))
    {
      if files[i].None? {
        return Err(Undecodable);
      }
      var metadata := files[i].value;
      forall all | Decodes(files, all)
        ensures Keep(all[..i + 1], Within(tb)) == Keep(all[..i], Within(tb)) + (if Contains(tb, metadata.created) then [metadata] else [])
      {
        KeepNext(all, i, Within(tb));
      }
      if Contains(tb, metadata.created) {
        backups := backups + [metadata];
      }
    }
    assert files[..|files|] == files;
    AllKept(files, tb, backups);
    r := Ok(backups);
  }

  /** All files have been looked at. */
  lemma AllKept(files: seq<Option<Metadata>>, tb: TimeBounds, backups: seq<Metadata>)
    requires None !in files && forall all :: Decodes(files, all) ==> backups == Keep(all[..|files|], Within(tb))
    ensures forall all :: Decodes(files, all) ==> backups == Keep(all, Within(tb))
    ensures forall m :: m in backups <==>
      Some(m) in files && (tb.fromTime.Some? ==> tb.fromTime.value <= m.created) && (tb.toTime.Some? ==> m.created <= tb.toTime.value)
  {
    forall all | Decodes(files, all)
      ensures backups == Keep(all, Within(tb))
    {
      assert all[..|files|] == all;
    }
    EveryFileDecodes(files);
    KeptWithin(files, tb, backups);
  }

  lemma KeptWithin(files: seq<Option<Metadata>>, tb: TimeBounds, backups: seq<Metadata>)
    requires exists all :: Decodes(files, all) && backups == Keep(all, Within(tb))
    ensures forall m :: m in backups <==>
      Some(m) in files && (tb.fromTime.Some? ==> tb.fromTime.value <= m.created) && (tb.toTime.Some? ==> m.created <= tb.toTime.value)
  {
    var all :| Decodes(files, all) && backups == Keep(all, Within(tb));
    forall m
      ensures m in all <==> Some(m) in files
    {
      if m in all {
        var i :| 0 <= i < |all| && all[i] == m;
        assert files[i] in files;
      }
      if Some(m) in files {
        var i :| 0 <= i < |files| && files[i] == Some(m);
        assert all[i] == m;
      }
    }
  }

  /** `r` is the answer to "the last full backup up to `toTime`" among `all`: every namespace
      of the latest one, or not found when there is none. */
  ghost predicate IsLastFull(all: seq<Metadata>, toTime: Time, r: Result<seq<Metadata>, BackendError>) {
    if r.Err? then r.error == BackupNotFound && forall m :: m in all ==> toTime < m.created
    else r.value != [] && IsLatest(all, toTime, r.value[0].created) && r.value == Keep(all, At(r.value[0].created))
  }

  /** The last full backup up to `toTime`: the metadata of all its namespaces. */
  method FindLastFullBackup(listing: Listing, toTime: Time) returns (r: Result<seq<Metadata>, BackendError>)
    ensures listing.Err? ==> r == Err(if listing.error.Failure? then ReadFailed else BackupNotFound)
    ensures listing.Ok? && None in listing.value ==> r == Err(Undecodable)
    ensures listing.Ok? ==> forall all :: Decodes(listing.value, all) ==> IsLastFull(all, toTime, r)
    ensures r.Ok? ==> listing.Ok? && None !in listing.value && r.value != [] && r.value[0].created <= toTime
    ensures r.Ok? ==> forall m :: m in r.value <==> Some(m) in listing.value && m.created == r.value[0].created
    ensures r.Ok? ==> forall m :: Some(m) in listing.value && m.created <= toTime ==> m.created <= r.value[0].created
    ensures r == Err(BackupNotFound) && listing.Ok? ==> forall m :: Some(m) in listing.value ==> toTime < m.created
  {
    var to := NewTimeBoundsTo(toTime);
    var list := ReadMetadataList(listing, to);
    if list.Err? {
      return Err(list.error);
    }
    var fullBackup := LatestBackupBeforeTime(list.value, toTime);
    r := if fullBackup == [] then Err(BackupNotFound) else Ok(fullBackup);
    if listing.Ok? {
      forall all | Decodes(listing.value, all)
        ensures IsLastFull(all, toTime, r)
      {
        LastOfBounded(all, toTime, fullBackup);
      }
    }
  }

  /** Cutting the list at the bound first does not change which group is the latest. */
  lemma LastOfBounded(all: seq<Metadata>, toTime: Time, group: seq<Metadata>)
    requires var cut := Keep(all, Within(NewTimeBoundsTo(toTime)));
             if group == [] then forall m :: m in cut ==> toTime < m.created
             else IsLatest(cut, toTime, group[0].created) && group == Keep(cut, At(group[0].created))
    ensures IsLastFull(all, toTime, if group == [] then Err(BackupNotFound) else Ok(group))
  {
    var cut := Keep(all, Within(NewTimeBoundsTo(toTime)));
    assert forall m :: m in cut <==> m in all && m.created <= toTime;
    if group != [] {
      KeepTwice(all, Within(NewTimeBoundsTo(toTime)), At(group[0].created));
    }
  }

  lemma {:induction false} KeepTwice<T(!new)>(s: seq<T>, p: T -> bool, q: T -> bool)
    requires forall x :: q(x) ==> p(x)
    ensures Keep(Keep(s, p), q) == Keep(s, q)
  {
    if s != [] {
      var n := |s| - 1;
      KeepTwice(s[..n], p, q);
      var front := Keep(s[..n], p);
      if p(s[n]) {
        var both := Keep(s, p);
        assert both == front + [s[n]];
        assert both[..|both| - 1] == front && both[|both| - 1] == s[n];
      } else {
        assert Keep(s, p) == front;
      }
    }
  }

  ghost predicate SortedByCreated(s: seq<Metadata>) {
    forall i, j :: 0 <= i < j < |s| ==> s[i].created <= s[j].created
  }

  function Insert(m: Metadata, s: seq<Metadata>): seq<Metadata> {
    if s == [] || m.created <= s[0].created then [m] + s
    else [s[0]] + Insert(m, s[1..])
  }

  /** Stands for the library's in-place sort: some rearrangement in ascending creation time. */
  function SortByCreated(s: seq<Metadata>): (r: seq<Metadata>)
    ensures SortedByCreated(r) && multiset(r) == multiset(s)
  {
    if s == [] then []
    else
      var rest := SortByCreated(s[1..]);
      InsertPermutes(s[0], rest);
      InsertSorts(s[0], rest);
      assert s == [s[0]] + s[1..];
      Insert(s[0], rest)
  }

  lemma {:induction false} InsertPermutes(m: Metadata, s: seq<Metadata>)
    ensures multiset(Insert(m, s)) == multiset(s) + multiset{m}
  {
    if !(s == [] || m.created <= s[0].created) {
      InsertPermutes(m, s[1..]);
      assert s == [s[0]] + s[1..];
    }
  }

  lemma {:induction false} InsertSorts(m: Metadata, s: seq<Metadata>)
    requires SortedByCreated(s)
    ensures SortedByCreated(Insert(m, s))
  {
    if !(s == [] || m.created <= s[0].created) {
      InsertSorts(m, s[1..]);
      var rest := Insert(m, s[1..]);
      forall i | 0 <= i < |rest|
        ensures s[0].created <= rest[i].created
      {
        InsertPermutes(m, s[1..]);
        assert rest[i] in multiset(rest);
        assert rest[i] == m || rest[i] in multiset(s[1..]);
      }
    }
  }

  lemma SameElements<T(!new)>(r: seq<T>, s: seq<T>)
    requires multiset(r) == multiset(s)
    ensures forall x :: x in r <==> x in s
  {
    forall x
      ensures x in r <==> x in s
    {
      assert x in r <==> x in multiset(r);
      assert x in s <==> x in multiset(s);
    }
  }

  /** All incremental backups of the namespace within the bounds, in ascending creation time. */
  method FindIncrementalBackupsForNamespace(listing: Listing, bounds: TimeBounds, ns: string)
      returns (r: Result<seq<Metadata>, BackendError>)
    ensures listing.Ok? && None in listing.value ==> r == Err(Undecodable)
    ensures listing.Ok? ==> forall all :: Decodes(listing.value, all) ==>
      r.Ok? && SortedByCreated(r.value) && multiset(r.value) == multiset(Keep(Keep(all, Within(bounds)), InNamespace(ns)))
    ensures listing.Err? ==> r == if listing.error.Failure? then Err(ReadFailed) else Ok([])
    ensures listing.Ok? && r.Ok? ==> (forall i, j :: 0 <= i < j < |r.value| ==> r.value[i].created <= r.value[j].created)
    ensures listing.Ok? && r.Ok? ==> forall m :: m in r.value <==>
      Some(m) in listing.value && m.ns == ns && (bounds.fromTime.Some? ==> bounds.fromTime.value <= m.created)
      && (bounds.toTime.Some? ==> m.created <= bounds.toTime.value)
  {
    var list := ReadMetadataList(listing, bounds);
    if list.Err? {
      return Err(list.error);
    }
    var filtered := [];
    for i := 0 to |list.value|
      invariant filtered == Keep(list.value[..i], InNamespace(ns))
    {
      KeepNext(list.value, i, InNamespace(ns));
      if list.value[i].ns == ns {
        filtered := filtered + [list.value[i]];
      }
    }
    assert list.value[..|list.value|] == list.value;
    r := Ok(SortByCreated(filtered));
    SameElements(r.value, filtered);
  }

  /** The selection is exact: its elements are precisely the incrementals of the namespace
      created at or after the full backup and not after the requested time. */
  lemma IncrementalSelectionIsExact(all: seq<Metadata>, full: Time, toTime: Time, ns: string, r: seq<Metadata>)
    requires full <= toTime
    requires multiset(r) == multiset(Keep(Keep(all, Within(TimeBounds(Some(full), Some(toTime)))), InNamespace(ns)))
    ensures forall m :: m in r <==> m in all && m.ns == ns && full <= m.created <= toTime
  {
    SameElements(r, Keep(Keep(all, Within(TimeBounds(Some(full), Some(toTime)))), InNamespace(ns)));
  }

  /** The bounds check of a namespace restore never fails for a full backup that
      `FindLastFullBackup` returned for the requested time. */
  lemma RestoreBoundsNeverFail(all: seq<Metadata>, toTime: Time, full: seq<Metadata>, m: Metadata)
    requires full != [] && IsLatest(all, toTime, full[0].created) && full == Keep(all, At(full[0].created))
    requires m in full
    ensures NewTimeBounds(Some(m.created), Some(toTime)) == Ok(TimeBounds(Some(m.created), Some(toTime)))
  {
    assert m in Keep(all, At(full[0].created));
  }

  /** Outcome of taking element 0 of the latest group. */
  datatype LastTime = Time(t: Time) | IndexOutOfRange

  /** The time of the latest backup up to the clock reading `now`, or the zero time for
      no backups at all. Indexing fails exactly when every listed backup is later than `now`. */
  method LastBackupTime(b: seq<Metadata>, now: Time) returns (r: LastTime)
    ensures r.IndexOutOfRange? <==> b != [] && forall m :: m in b ==> now < m.created
    ensures r.Time? ==> if b == [] then r.t == 0 else IsLatest(b, now, r.t)
    ensures r.Time? && b != [] ==> r.t <= now && (exists m :: m in b && m.created == r.t) && forall m :: m in b && m.created <= now ==> m.created <= r.t
  {
    if |b| > 0 {
      var latest := LatestBackupBeforeTime(b, now);
      if latest == [] {
        return IndexOutOfRange;
      }
      return Time(latest[0].created);
    }
    r := Time(0);
  }

  /** `t` is what a restart reads for one kind of backup: the latest stamp in storage,
      or zero if there is none or the storage cannot be read. */
  ghost predicate ReadsAs(listing: Listing, now: Time, t: Time) {
    && (listing.Err? ==> t == 0)
    && (listing.Ok? && None in listing.value ==> t == 0)
    && (listing.Ok? ==> forall all :: Decodes(listing.value, all) ==>
          if forall m: Metadata :: m in all ==> now < m.created then t == 0 else IsLatest(all, now, t))
  }

  /** Rebuilds the two run times from storage. `clock1` bounds the listing and `clock2` and
      `clock3` are the later readings inside LastBackupTime: while the clock does not go
      back, index 0 is always in range. */
  method ReadState(full: Listing, incr: Listing, clock1: Time, clock2: Time, clock3: Time)
      returns (lastFullRun: LastTime, lastIncrRun: LastTime)
    ensures clock1 <= clock2 ==> lastFullRun.Time? && ReadsAs(full, clock1, lastFullRun.t)
    ensures clock1 <= clock3 ==> lastIncrRun.Time? && ReadsAs(incr, clock1, lastIncrRun.t)
  {
    lastFullRun := ReadLastRun(full, clock1, clock2);
    lastIncrRun := ReadLastRun(incr, clock1, clock3);
  }

  method ReadLastRun(listing: Listing, clock1: Time, clock2: Time) returns (r: LastTime)
    ensures clock1 <= clock2 ==> r.Time? && ReadsAs(listing, clock1, r.t)
  {
    var to := NewTimeBoundsTo(clock1);
    var list := ReadMetadataList(listing, to);
    r := LastBackupTime(if list.Ok? then list.value else [], clock2);
    if clock1 <= clock2 && listing.Ok? {
      forall all | Decodes(listing.value, all)
        ensures if forall m: Metadata :: m in all ==> clock1 < m.created then r == Time(0) else r.Time? && IsLatest(all, clock1, r.t)
      {
        assert list == Ok(Keep(all, Within(to)));
        assert forall m :: m in list.value <==> m in all && m.created <= clock1;
        if list.value != [] {
          assert list.value[0] in list.value;
        }
      }
      if list.Ok? && list.value != [] {
        EveryFileDecodes(listing.value);
        assert list.value[0] in list.value;
      }
    }
  }

  /** A listing without an undecodable file has its metadata. */
  lemma EveryFileDecodes(files: seq<Option<Metadata>>)
    requires None !in files
    ensures exists all :: Decodes(files, all)
  {
    forall i | 0 <= i < |files|
      ensures files[i].Some?
    {
      assert files[i] in files;
    }
    var all := seq(|files|, i requires 0 <= i < |files| && files[i].Some? => files[i].value);
    assert Decodes(files, all);
  }
}
