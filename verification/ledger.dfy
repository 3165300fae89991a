/** The run_stats ledger read by the orchestrator: one record per (DATE, TYPE),
    the order in which eligible records are selected, the per-type maximum date
    used for backfill, and the position-based is_last_date flag. */
module Ledger {
  import opened Common

  datatype JobType = Download | Analytics

  /** The TYPE column's text. */
  function TypeName(t: JobType): string
  {
    match t
    case Download => "download"
    case Analytics => "analytics"
  }

  datatype Key = Key(date: int, jobType: JobType)

  /** One row of run_stats. A row inserted by backfill names only DATE and
      TYPE; the others take the table's defaults, which this model assumes to
      be COMPLETED = FALSE, ATTEMPTS = 0 and NULL for the rest. */
  datatype RunRecord = RunRecord(
    completed: bool,
    attempts: nat,
    startTime: Option<int>,
    duration: Option<real>,
    errorMsg: Option<string>)

  const NewRecord: RunRecord := RunRecord(false, 0, None, None, None)

  type Rows = map<Key, RunRecord>

  /** The retry cap: a record is selected while ATTEMPTS < 3. */
  const MaxAttempts: nat := 3

  /** `COMPLETED = FALSE AND ATTEMPTS < 3`. */
  predicate Eligible(r: RunRecord)
  {
    !r.completed && r.attempts < MaxAttempts
  }

  // ---------------------------------------------------------------------------
  // Selection order

  /** Lexicographic order on text, as the warehouse compares TYPE values. */
  predicate StrLess(a: string, b: string)
  {
    if a == [] then b != []
    else if b == [] then false
    else if a[0] < b[0] then true
    else a[0] == b[0] && StrLess(a[1..], b[1..])
  }

  /** `ORDER BY DATE ASC, TYPE DESC`, with TYPE compared as text. */
  predicate SqlOrderBefore(a: Key, b: Key)
  {
    a.date < b.date || (a.date == b.date && StrLess(TypeName(b.jobType), TypeName(a.jobType)))
  }

  /** Position of a type within one date: download first. */
  function Rank(t: JobType): nat
  {
    match t
    case Download => 0
    case Analytics => 1
  }

  /** The selection order, written with ranks instead of text. */
  predicate Before(a: Key, b: Key)
  {
    a.date < b.date || (a.date == b.date && Rank(a.jobType) < Rank(b.jobType))
  }

  lemma {:induction false} StrLessIrreflexive(s: string)
    ensures !StrLess(s, s)
  {
    if s != [] {
      StrLessIrreflexive(s[1..]);
    }
  }

  /** Because "download" sorts after "analytics" as text, TYPE DESC puts the
      download of a date before its analytics: the text order and the rank
      order are the same relation. */
  lemma SqlOrderIsDownloadFirst(a: Key, b: Key)
    ensures SqlOrderBefore(a, b) <==> Before(a, b)
  {
    assert "analytics"[0] == 'a' && "download"[0] == 'd';
    StrLessIrreflexive(TypeName(a.jobType));
  }

  /** `k` comes first among `s`: nothing in `s` is ordered before it. */
  predicate IsFirst(k: Key, s: set<Key>)
  {
    k in s && forall j :: j in s ==> !Before(j, k)
  }

  lemma {:induction false} FirstExists(s: set<Key>)
    requires s != {}
    ensures exists k :: IsFirst(k, s)
    decreases |s|
  {
    var x :| x in s;
    if s != {x} {
      FirstExists(s - {x});
      var m :| IsFirst(m, s - {x});
      if Before(x, m) {
        forall j | j in s ensures !Before(j, x) {
          if j != x {
            assert j in s - {x};
          }
        }
        assert IsFirst(x, s);
      } else {
        assert IsFirst(m, s);
      }
    } else {
      assert IsFirst(x, s);
    }
  }

  /** The elements of `s` listed in selection order. */
  function SortedKeys(s: set<Key>): (q: seq<Key>)
    ensures |q| == |s|
    ensures forall k :: k in q <==> k in s
    decreases |s|
  {
    if s == {} then []
    else
      FirstExists(s);
      var k :| IsFirst(k, s);
      [k] + SortedKeys(s - {k})
  }

  /** Each element of the listing comes before every later one. */
  lemma {:induction false} SortedKeysOrdered(s: set<Key>)
    ensures forall i, j :: 0 <= i < j < |SortedKeys(s)| ==> Before(SortedKeys(s)[i], SortedKeys(s)[j])
    decreases |s|
  {
    if s != {} {
      var k := SortedKeys(s)[0];
      assert IsFirst(k, s) && SortedKeys(s) == [k] + SortedKeys(s - {k});
      SortedKeysOrdered(s - {k});
      FirstPrecedesRest(k, s, SortedKeys(s - {k}));
    }
  }

  lemma FirstPrecedesRest(k: Key, s: set<Key>, rest: seq<Key>)
    requires IsFirst(k, s)
    requires forall j :: j in rest <==> j in s - {k}
    requires forall i, j :: 0 <= i < j < |rest| ==> Before(rest[i], rest[j])
    ensures forall i, j :: 0 <= i < j < |[k] + rest| ==> Before(([k] + rest)[i], ([k] + rest)[j])
  {
    forall i | 0 <= i < |rest| ensures Before(k, rest[i]) {
      assert rest[i] in s - {k};
    }
    forall i, j | 0 <= i < j < |[k] + rest| ensures Before(([k] + rest)[i], ([k] + rest)[j]) {
      if i == 0 {
        assert ([k] + rest)[j] == rest[j - 1];
      } else {
        assert ([k] + rest)[i] == rest[i - 1] && ([k] + rest)[j] == rest[j - 1];
      }
    }
  }

  /** The records the SELECT of one run returns: `WHERE COMPLETED = FALSE AND
      ATTEMPTS < 3 ORDER BY DATE ASC, TYPE DESC`. */
  function Queue(rows: Rows): (q: seq<Key>)
    ensures forall k :: k in q <==> k in rows && Eligible(rows[k])
  {
    SortedKeys(set k | k in rows && Eligible(rows[k]))
  }

  /** The queue is strictly ordered by date, then download before analytics,
      so no record appears twice. */
  lemma QueueSorted(rows: Rows)
    ensures forall i, j :: 0 <= i < j < |Queue(rows)| ==> Before(Queue(rows)[i], Queue(rows)[j])
    ensures forall i, j :: 0 <= i < j < |Queue(rows)| ==> Queue(rows)[i] != Queue(rows)[j]
  {
    SortedKeysOrdered(set k | k in rows && Eligible(rows[k]));
  }

  /** The queue is in SQL order, and on one date download precedes analytics. */
  lemma QueueInSqlOrder(rows: Rows, i: int, j: int)
    requires 0 <= i < j < |Queue(rows)|
    ensures SqlOrderBefore(Queue(rows)[i], Queue(rows)[j])
    ensures Queue(rows)[i].date <= Queue(rows)[j].date
    ensures Queue(rows)[i].date == Queue(rows)[j].date ==>
              Queue(rows)[i].jobType == Download && Queue(rows)[j].jobType == Analytics
  {
    QueueSorted(rows);
    SqlOrderIsDownloadFirst(Queue(rows)[i], Queue(rows)[j]);
  }

  /** Two sequences in strict selection order with the same elements are equal:
      the queue is determined by the set of eligible keys. */
  lemma {:induction false} SortedUnique(p: seq<Key>, q: seq<Key>)
    requires forall i, j :: 0 <= i < j < |p| ==> Before(p[i], p[j])
    requires forall i, j :: 0 <= i < j < |q| ==> Before(q[i], q[j])
    requires forall k :: k in p <==> k in q
    ensures p == q
  {
    if p != [] {
      assert p[0] in q;
    }
    if q != [] {
      assert q[0] in p;
    }
    if p != [] {
      var j :| 0 <= j < |q| && q[j] == p[0];
      var i :| 0 <= i < |p| && p[i] == q[0];
      var a, b := p[0], q[0];
      assert j == 0 || Before(b, a);
      assert i == 0 || Before(a, b);
      assert a == b;
      forall k ensures k in p[1..] <==> k in q[1..] {
        if k in p[1..] {
          var i :| 0 <= i < |p[1..]| && p[1..][i] == k;
          assert Before(p[0], p[i + 1]);
          assert k in p;
          var j :| 0 <= j < |q| && q[j] == k;
          assert j != 0;
          assert q[1..][j - 1] == k;
        }
        if k in q[1..] {
          var i :| 0 <= i < |q[1..]| && q[1..][i] == k;
          assert Before(q[0], q[i + 1]);
          assert k in q;
          var j :| 0 <= j < |p| && p[j] == k;
          assert j != 0;
          assert p[1..][j - 1] == k;
        }
      }
      SortedUnique(p[1..], q[1..]);
      assert p == [p[0]] + p[1..] && q == [q[0]] + q[1..];
    }
  }

  // ---------------------------------------------------------------------------
  // Maximum date per type (`SELECT TYPE, MAX(DATE) ... GROUP BY TYPE`)

  lemma {:induction false} MaxExists(ds: set<int>, x: int)
    requires x in ds
    ensures exists m :: m in ds && forall d :: d in ds ==> d <= m
    decreases |ds|
  {
    if !forall d :: d in ds ==> d <= x {
      var y :| y in ds && y > x;
      MaxExists(ds - {x}, y);
      var m :| m in ds - {x} && forall d :: d in ds - {x} ==> d <= m;
      forall d | d in ds ensures d <= m {
        if d != x {
          assert d in ds - {x};
        }
      }
    }
  }

  function MaxOf(ds: set<int>): (m: int)
    requires exists x :: x in ds
    ensures m in ds
    ensures forall d :: d in ds ==> d <= m
  {
    var x :| x in ds;
    MaxExists(ds, x);
    var m :| m in ds && forall d :: d in ds ==> d <= m;
    m
  }

  function DatesOf(rows: Rows, t: JobType): set<int>
  {
    set k | k in rows && k.jobType == t :: k.date
  }

  /** One entry per TYPE present in the ledger, mapped to its latest DATE. */
  function MaxDates(rows: Rows): (m: map<JobType, int>)
    ensures forall t :: t in m <==> exists k :: k in rows && k.jobType == t
    ensures forall t :: t in m ==> Key(m[t], t) in rows
    ensures forall k :: k in rows ==> k.jobType in m && k.date <= m[k.jobType]
  {
    var m := map t | t in {Download, Analytics} && (exists k :: k in rows && k.jobType == t)
                   :: (assert forall k :: k in rows && k.jobType == t ==> k.date in DatesOf(rows, t);
                       MaxOf(DatesOf(rows, t)));
    assert forall k :: k in rows ==> k.date in DatesOf(rows, k.jobType);
    m
  }

  // ---------------------------------------------------------------------------
  // Backfill

  /** The building of the insert list: for each type in the result of the
      GROUP BY query, in whatever order the query returns them, every date from
      the day after its maximum through `yesterday`. */
  method PlanBackfill(maxDates: map<JobType, int>, yesterday: int) returns (plan: seq<Key>)
    ensures forall k :: k in plan <==> k.jobType in maxDates && maxDates[k.jobType] < k.date <= yesterday
    ensures forall i, j :: 0 <= i < j < |plan| ==> plan[i] != plan[j]
  {
    plan := [];
    var pending := maxDates.Keys;
    while pending != {}
      invariant pending <= maxDates.Keys
      invariant forall k :: k in plan <==>
        k.jobType in maxDates && k.jobType !in pending && maxDates[k.jobType] < k.date <= yesterday
      invariant forall i, j :: 0 <= i < j < |plan| ==> plan[i] != plan[j]
      decreases |pending|
    {
      var t :| t in pending;
      var d := maxDates[t] + 1;
      while d <= yesterday
        invariant maxDates[t] < d
        invariant d == maxDates[t] + 1 || d <= yesterday + 1
        invariant forall k :: k in plan <==>
          (k.jobType in maxDates && k.jobType !in pending && maxDates[k.jobType] < k.date <= yesterday)
          || (k.jobType == t && maxDates[t] < k.date < d)
        invariant forall i, j :: 0 <= i < j < |plan| ==> plan[i] != plan[j]
        decreases yesterday - d
      {
        plan := plan + [Key(d, t)];
        d := d + 1;
      }
      assert yesterday < d;
      pending := pending - {t};
    }
  }

  /** The keys one backfill adds. */
  function BackfillKeys(rows: Rows, yesterday: int): (s: set<Key>)
    ensures forall k :: k in s <==>
      k.jobType in MaxDates(rows) && MaxDates(rows)[k.jobType] < k.date <= yesterday
    ensures forall k :: k in s ==> k !in rows
  {
    var m := MaxDates(rows);
    set t, d | t in m && m[t] < d <= yesterday :: Key(d, t)
  }

  /** The ledger after a backfill: new keys with default records. */
  function Backfilled(rows: Rows, yesterday: int): (r: Rows)
    ensures r.Keys == rows.Keys + BackfillKeys(rows, yesterday)
    ensures forall k :: k in rows ==> r[k] == rows[k]
  {
    var keys := BackfillKeys(rows, yesterday);
    var added := map k | k in keys :: NewRecord;
    assert added.Keys == keys;
    assert rows.Keys !! added.Keys;
    rows + added
  }

  /** Two listings of the same keys insert the same default records. */
  lemma SameKeysSameInsert(plan: seq<Key>, keys: set<Key>)
    requires forall k :: k in plan <==> k in keys
    ensures (map k | k in plan :: NewRecord) == (map k | k in keys :: NewRecord)
  {
    var planned := map k | k in plan :: NewRecord;
    var missing := map k | k in keys :: NewRecord;
    assert planned.Keys == missing.Keys;
    forall k | k in planned
      ensures planned[k] == missing[k]
    {
    }
  }

  /** Inserting the planned keys with default records is the backfill; an
      empty plan inserts nothing. */
  lemma BackfillPlanIsBackfill(rows: Rows, yesterday: int, plan: seq<Key>)
    requires forall k :: k in plan <==>
      k.jobType in MaxDates(rows) && MaxDates(rows)[k.jobType] < k.date <= yesterday
    ensures rows + (map k | k in plan :: NewRecord) == Backfilled(rows, yesterday)
    ensures plan == [] ==> rows == Backfilled(rows, yesterday)
  {
    var s := BackfillKeys(rows, yesterday);
    SameKeysSameInsert(plan, s);
    if plan == [] {
      SameKeysSameInsert(plan, {});
      assert (map k | k in plan :: NewRecord) == map[];
      assert rows + map[] == rows;
    }
  }

  /** After a backfill every type present ends on `yesterday` or later, and a
      type that was behind now ends exactly on `yesterday`. */
  lemma BackfillReachesYesterday(rows: Rows, yesterday: int, t: JobType)
    requires t in MaxDates(rows)
    ensures t in MaxDates(Backfilled(rows, yesterday))
    ensures MaxDates(Backfilled(rows, yesterday))[t] ==
              if MaxDates(rows)[t] < yesterday then yesterday else MaxDates(rows)[t]
  {
    var m := MaxDates(rows);
    var r := Backfilled(rows, yesterday);
    var m' := MaxDates(r);
    assert Key(m[t], t) in r;
    if m[t] < yesterday {
      assert Key(yesterday, t) in BackfillKeys(rows, yesterday);
      assert Key(m'[t], t) in r;
    } else {
      assert Key(m'[t], t) in r;
      assert Key(m'[t], t) !in BackfillKeys(rows, yesterday);
    }
  }

  /** A second backfill with the same `yesterday` adds nothing. */
  lemma BackfillIdempotent(rows: Rows, yesterday: int)
    ensures BackfillKeys(Backfilled(rows, yesterday), yesterday) == {}
  {
    var r := Backfilled(rows, yesterday);
    forall t | t in MaxDates(r) ensures MaxDates(r)[t] >= yesterday {
      var w := Key(MaxDates(r)[t], t);
      assert w in r;
      assert t in MaxDates(rows) by {
        if w in rows {
          assert w.jobType in MaxDates(rows);
        } else {
          assert w in BackfillKeys(rows, yesterday);
        }
      }
      BackfillReachesYesterday(rows, yesterday, t);
    }
    assert forall k :: k !in BackfillKeys(r, yesterday);
  }

  // ---------------------------------------------------------------------------
  // is_last_date

  /** The number of analytics jobs at positions `lo` to `hi - 1` of `q`. */
  function AnalyticsIn(q: seq<Key>, lo: int, hi: int): (n: nat)
    requires 0 <= lo <= hi <= |q|
    ensures n <= hi - lo
    decreases hi - lo
  {
    if lo == hi then 0 else AnalyticsIn(q, lo, hi - 1) + (if q[hi - 1].jobType == Analytics then 1 else 0)
  }

  /** `total_analytics_jobs`: the analytics jobs of the whole queue. */
  function CountAnalytics(q: seq<Key>): (n: nat)
    ensures n <= |q|
  {
    AnalyticsIn(q, 0, |q|)
  }

  /** The count is zero exactly when the queue holds no analytics job. */
  lemma CountAnalyticsZero(q: seq<Key>)
    ensures CountAnalytics(q) == 0 <==> forall j :: 0 <= j < |q| ==> q[j].jobType != Analytics
  {
    AnalyticsInZero(q, 0, |q|);
  }

  lemma {:induction false} AnalyticsInSplit(q: seq<Key>, a: int, b: int, c: int)
    requires 0 <= a <= b <= c <= |q|
    ensures AnalyticsIn(q, a, c) == AnalyticsIn(q, a, b) + AnalyticsIn(q, b, c)
    decreases c - b
  {
    if b < c {
      AnalyticsInSplit(q, a, b, c - 1);
    }
  }

  lemma {:induction false} AnalyticsInZero(q: seq<Key>, lo: int, hi: int)
    requires 0 <= lo <= hi <= |q|
    ensures AnalyticsIn(q, lo, hi) == 0 <==> forall j :: lo <= j < hi ==> q[j].jobType != Analytics
    decreases hi - lo
  {
    if lo < hi {
      AnalyticsInZero(q, lo, hi - 1);
    }
  }

  /** Position `i` holds the last analytics job of the queue: none follows it. */
  predicate IsLastAnalytics(q: seq<Key>, i: int)
    requires 0 <= i < |q|
  {
    q[i].jobType == Analytics && AnalyticsIn(q, i + 1, |q|) == 0
  }

  lemma IsLastAnalyticsMeans(q: seq<Key>, i: int)
    requires 0 <= i < |q|
    ensures IsLastAnalytics(q, i) <==> q[i].jobType == Analytics && forall j :: i < j < |q| ==> q[j].jobType != Analytics
  {
    AnalyticsInZero(q, i + 1, |q|);
  }

  /** The orchestrator's counter test (`analytics_job_count == total_analytics_jobs`,
      after the increment) holds exactly at the last analytics job. */
  lemma CounterMarksLastAnalytics(q: seq<Key>, i: int)
    requires 0 <= i < |q| && q[i].jobType == Analytics
    ensures AnalyticsIn(q, 0, i) + 1 == CountAnalytics(q) <==> IsLastAnalytics(q, i)
  {
    AnalyticsInSplit(q, 0, i + 1, |q|);
  }

  lemma {:induction false} LastAnalyticsFrom(q: seq<Key>, i: int)
    requires 0 <= i < |q| && q[i].jobType == Analytics
    ensures exists j :: i <= j < |q| && IsLastAnalytics(q, j)
    decreases |q| - i
  {
    IsLastAnalyticsMeans(q, i);
    if !IsLastAnalytics(q, i) {
      var j :| i < j < |q| && q[j].jobType == Analytics;
      LastAnalyticsFrom(q, j);
    }
  }

  /** A queue holding some analytics job has exactly one last analytics job. */
  lemma LastAnalyticsExactlyOne(q: seq<Key>)
    requires CountAnalytics(q) > 0
    ensures exists i :: 0 <= i < |q| && IsLastAnalytics(q, i)
    ensures forall i, j :: 0 <= i < |q| && 0 <= j < |q| && IsLastAnalytics(q, i) && IsLastAnalytics(q, j) ==> i == j
  {
    AnalyticsInZero(q, 0, |q|);
    var i :| 0 <= i < |q| && q[i].jobType == Analytics;
    LastAnalyticsFrom(q, i);
    forall i | 0 <= i < |q|
      ensures IsLastAnalytics(q, i) <==> q[i].jobType == Analytics && forall j :: i < j < |q| ==> q[j].jobType != Analytics
    {
      IsLastAnalyticsMeans(q, i);
    }
  }
}
