/** The write history of a cluster and what a backup scan may observe of it.

    A scan is not atomic: it reads every record at some instant between its start
    and its end, and keeps the version it reads when that version's last-update
    time lies in the scan's window. */
module History {

  /** Instants. Zero stands for Go's zero `time.Time{}`; every clock reading is positive. */
  type Time = nat

  datatype Write = Write(at: Time, ns: string, key: string, val: string)

  datatype Version = Absent | Version(at: Time, val: string)

  /** The content of one backup folder: the records of one namespace. */
  type Data = map<string, string>

  predicate Touches(w: Write, ns: string, key: string) {
    w.ns == ns && w.key == key
  }

  /** Writes are stamped by a clock that never goes back. */
  ghost predicate Ordered(h: seq<Write>) {
    forall i, j :: 0 <= i < j < |h| ==> h[i].at <= h[j].at
  }

  /** The version of a record after the first `p` writes. */
  ghost function Current(h: seq<Write>, p: nat, ns: string, key: string): Version
    requires p <= |h|
  {
    if p == 0 then Absent
    else if Touches(h[p - 1], ns, key) then Version(h[p - 1].at, h[p - 1].val)
    else Current(h, p - 1, ns, key)
  }

  /** The version of a record among the first `p` writes that was current just before instant `t`. */
  ghost function Before(h: seq<Write>, p: nat, t: Time, ns: string, key: string): Version
    requires p <= |h|
  {
    if p == 0 then Absent
    else if Touches(h[p - 1], ns, key) && h[p - 1].at < t then Version(h[p - 1].at, h[p - 1].val)
    else Before(h, p - 1, t, ns, key)
  }

  /** Among the first `p` writes, none touches the record at instant `t` or later. */
  ghost predicate Quiet(h: seq<Write>, p: nat, t: Time, ns: string, key: string)
    requires p <= |h|
  {
    forall i :: 0 <= i < p && Touches(h[i], ns, key) ==> h[i].at < t
  }

  /** One finished scan of one namespace: stamped `created`, window `[from, ...)`,
      reading between history positions `lo` and `hi`. */
  datatype Scan = Scan(created: Time, from: Time, lo: nat, hi: nat, data: Data)

  /** The window test of the backup library: last-update time in [from, until). */
  predicate InWindow(v: Version, from: Time, sealed: bool, until: Time) {
    v.Version? && from <= v.at && (sealed ==> v.at < until)
  }

  /** `data` reports a record of version `v` exactly as a scan with that window does. */
  predicate Reports(data: Data, key: string, v: Version, from: Time, sealed: bool, until: Time) {
    if InWindow(v, from, sealed, until) then key in data && data[key] == v.val
    else key !in data
  }

  /** `data` holds exactly version `v` of the record. */
  predicate Holds(data: Data, key: string, v: Version) {
    if v.Version? then key in data && data[key] == v.val else key !in data
  }

  /** The record is read at some position between the scan's start and its end. */
  ghost predicate Observed(h: seq<Write>, sealed: bool, ns: string, b: Scan, key: string)
    requires b.lo <= b.hi <= |h|
  {
    exists p: nat :: b.lo <= p <= b.hi && Reports(b.data, key, Current(h, p, ns, key), b.from, sealed, b.created)
  }

  /** What a completed scan is: every record is observed once, and no write that
      follows the scan's start is stamped before the scan's own stamp. */
  ghost predicate Faithful(h: seq<Write>, sealed: bool, ns: string, b: Scan) {
    && b.lo <= b.hi <= |h|
    && (forall i :: b.lo <= i < |h| ==> b.created <= h[i].at)
    && (forall key :: Observed(h, sealed, ns, b, key))
  }

  lemma {:induction false} CurrentOfExtension(h: seq<Write>, w: Write, p: nat, ns: string, key: string)
    requires p <= |h|
    ensures Current(h + [w], p, ns, key) == Current(h, p, ns, key)
  {
    if p > 0 {
      CurrentOfExtension(h, w, p - 1, ns, key);
    }
  }

  /** A finished scan stays what it was when the cluster is written to later. */
  lemma FaithfulOfExtension(h: seq<Write>, w: Write, sealed: bool, ns: string, b: Scan)
    requires Faithful(h, sealed, ns, b) && b.created <= w.at
    ensures Faithful(h + [w], sealed, ns, b)
  {
    var g := h + [w];
    forall key
      ensures Observed(g, sealed, ns, b, key)
    {
      assert Observed(h, sealed, ns, b, key);
      var p: nat :| b.lo <= p <= b.hi && Reports(b.data, key, Current(h, p, ns, key), b.from, sealed, b.created);
      CurrentOfExtension(h, w, p, ns, key);
      assert Reports(b.data, key, Current(g, p, ns, key), b.from, sealed, b.created);
    }
  }

  /** While a record is quiet, what is read is what was there before. */
  lemma {:induction false} QuietCurrent(h: seq<Write>, p: nat, t: Time, ns: string, key: string)
    requires p <= |h| && Quiet(h, p, t, ns, key)
    ensures Current(h, p, ns, key) == Before(h, p, t, ns, key)
  {
    if p > 0 {
      QuietCurrent(h, p - 1, t, ns, key);
    }
  }

  /** Writes stamped at `t` or later do not change what was there before `t`. */
  lemma {:induction false} BeforeOfSuffix(h: seq<Write>, p: nat, q: nat, t: Time, ns: string, key: string)
    requires p <= q <= |h|
    requires forall i :: p <= i < q ==> t <= h[i].at
    ensures Before(h, q, t, ns, key) == Before(h, p, t, ns, key)
  {
    if p < q {
      BeforeOfSuffix(h, p, q - 1, t, ns, key);
    }
  }

  /** If the version before `t` is older than `s`, then so is every touch before `t`. */
  lemma {:induction false} BeforeIsLatest(h: seq<Write>, p: nat, t: Time, ns: string, key: string, i: nat)
    requires p <= |h| && Ordered(h)
    requires i < p && Touches(h[i], ns, key) && h[i].at < t
    ensures Before(h, p, t, ns, key).Version? && h[i].at <= Before(h, p, t, ns, key).at
  {
    if !(Touches(h[p - 1], ns, key) && h[p - 1].at < t) {
      BeforeIsLatest(h, p - 1, t, ns, key, i);
    }
  }

  /** A record quiet since `s` had, just before any later instant, the version it had before `s`. */
  lemma {:induction false} BeforeOfQuiet(h: seq<Write>, p: nat, s: Time, t: Time, ns: string, key: string)
    requires p <= |h| && s <= t && Quiet(h, p, s, ns, key)
    ensures Before(h, p, s, ns, key) == Before(h, p, t, ns, key)
  {
    if p > 0 {
      BeforeOfQuiet(h, p - 1, s, t, ns, key);
    }
  }

  /** The version before `t` is that of the last write before `t`, if there is one. */
  lemma {:induction false} BeforeIsLastWrite(h: seq<Write>, p: nat, t: Time, ns: string, key: string, i: nat)
    requires i < p <= |h| && h[i].ns == ns && h[i].key == key && h[i].at < t
    requires forall j :: i < j < p && h[j].ns == ns && h[j].key == key ==> t <= h[j].at
    ensures Before(h, p, t, ns, key) == Version(h[i].at, h[i].val)
  {
    if i < p - 1 {
      BeforeIsLastWrite(h, p - 1, t, ns, key, i);
    }
  }

  lemma {:induction false} BeforeFirstWrite(h: seq<Write>, p: nat, t: Time, ns: string, key: string)
    requires p <= |h| && forall j :: 0 <= j < p && h[j].ns == ns && h[j].key == key ==> t <= h[j].at
    ensures Before(h, p, t, ns, key) == Absent
  {
    if p > 0 {
      BeforeFirstWrite(h, p - 1, t, ns, key);
    }
  }

  /** A version that is read was written. */
  lemma {:induction false} CurrentWasWritten(h: seq<Write>, p: nat, ns: string, key: string) returns (i: nat)
    requires p <= |h| && Current(h, p, ns, key).Version?
    ensures i < p && h[i].ns == ns && h[i].key == key && Current(h, p, ns, key) == Version(h[i].at, h[i].val)
    ensures forall j :: i < j < p ==> !(h[j].ns == ns && h[j].key == key)
  {
    if Touches(h[p - 1], ns, key) {
      i := p - 1;
    } else {
      i := CurrentWasWritten(h, p - 1, ns, key);
    }
  }

  /** Every record of a scan was written to the cluster before the scan ended, in the window of the scan. */
  lemma ScannedWasWritten(h: seq<Write>, sealed: bool, ns: string, b: Scan, key: string) returns (i: nat)
    requires Faithful(h, sealed, ns, b) && key in b.data
    ensures i < b.hi <= |h| && h[i].ns == ns && h[i].key == key && h[i].val == b.data[key]
    ensures b.from <= h[i].at && (sealed ==> h[i].at < b.created)
  {
    assert Observed(h, sealed, ns, b, key);
    var p: nat :| b.lo <= p <= b.hi && Reports(b.data, key, Current(h, p, ns, key), b.from, sealed, b.created);
    i := CurrentWasWritten(h, p, ns, key);
  }

  /** A faithful scan stamped `created` either reports the version a quiet record had
      before that instant, or that version is older than the scan's window. */
  lemma ScanOfQuietRecord(h: seq<Write>, sealed: bool, ns: string, b: Scan, m: nat, key: string)
    requires Faithful(h, sealed, ns, b) && b.hi <= m <= |h| && Quiet(h, m, b.created, ns, key)
    ensures var v := Before(h, |h|, b.created, ns, key);
            if v.Version? && b.from <= v.at then Holds(b.data, key, v) else key !in b.data
  {
    assert Observed(h, sealed, ns, b, key);
    var p: nat :| b.lo <= p <= b.hi && Reports(b.data, key, Current(h, p, ns, key), b.from, sealed, b.created);
    QuietCurrent(h, p, b.created, ns, key);
    BeforeOfSuffix(h, p, |h|, b.created, ns, key);
    BeforeStamp(h, p, b.created, ns, key);
  }

  lemma {:induction false} BeforeStamp(h: seq<Write>, p: nat, t: Time, ns: string, key: string)
    requires p <= |h|
    ensures Before(h, p, t, ns, key).Version? ==> Before(h, p, t, ns, key).at < t
  {
    if p > 0 {
      BeforeStamp(h, p - 1, t, ns, key);
    }
  }
}
