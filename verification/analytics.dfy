/** The analytics procedure (`analytics_sproc`) for one date: the flag it is
    given, the time windows that feed and trim the statistics, and the one
    transaction that writes the results. The statistics (decomposition,
    anomaly scoring, change-point detection, the free-flow quantile) are
    opaque functions from rows to rows. */
module Analytics {
  import opened Common
  import Pipeline

  // ---------------------------------------------------------------- the flag

  const TrueText: string := "true"

  /** `is_last_date_str.lower() == 'true'`. */
  predicate ParseIsLastDate(s: string)
  {
    Lower(s) == TrueText
  }

  /** The flag is set exactly by the four letters of "true", in any case. */
  lemma ParseIsLastDateMeans(s: string)
    ensures ParseIsLastDate(s) <==> |s| == 4 && forall i :: 0 <= i < 4 ==> LowerChar(s[i]) == TrueText[i]
  {
    if |s| == 4 && forall i :: 0 <= i < 4 ==> LowerChar(s[i]) == TrueText[i] {
      assert Lower(s) == TrueText;
    }
  }

  lemma ParseIsLastDateExamples()
    ensures ParseIsLastDate("true") && ParseIsLastDate("TRUE") && ParseIsLastDate("True")
    ensures !ParseIsLastDate("false") && !ParseIsLastDate("") && !ParseIsLastDate("1") && !ParseIsLastDate("true ")
  {
    ParseIsLastDateMeans("TRUE");
    ParseIsLastDateMeans("True");
    ParseIsLastDateMeans("false");
  }

  /** The flag text the orchestrator sends is read back as the flag it meant. */
  lemma FlagRoundTrip(b: bool)
    ensures ParseIsLastDate(Pipeline.FlagText(b)) == b
  {
    ParseIsLastDateMeans("false");
    if b {
      assert Lower("true") == TrueText;
    } else {
      assert |"false"| != 4;
    }
  }

  // ------------------------------------------------------------- the windows

  /** Raw travel times read: `[current - 42 days, current + 1 day)`. */
  function RawWindow(current: int): (w: TimeRange)
    ensures forall ts :: Contains(w, ts) <==> current - 42 <= DayOf(ts) <= current
  {
    HalfOpen(DayStart(current - 42), DayStart(current + 1))
  }

  /** Anomaly rows kept: `TIMESTAMP >= current_date`. */
  function AnomalyWindow(current: int): TimeRange
  {
    AtLeast(DayStart(current))
  }

  /** Decomposed rows handed to change-point detection: from current - 16 days on. */
  function ChangepointInputWindow(current: int): TimeRange
  {
    AtLeast(DayStart(current - 16))
  }

  /** Change points stored: the single day `[current - 8, current - 7)`. */
  function ChangepointSlice(current: int): (w: TimeRange)
    ensures forall ts :: Contains(w, ts) <==> DayOf(ts) == current - 8
  {
    HalfOpen(DayStart(current - 8), DayStart(current - 7))
  }

  /** The day a timestamp falls on. */
  function DayOf(ts: int): int
  {
    ts / MinutesPerDay
  }

  /** The stored slice lies inside the change-point input and inside the raw
      window. */
  lemma SliceIsMiddleDay(current: int, ts: int)
    ensures Contains(ChangepointSlice(current), ts) ==>
      Contains(ChangepointInputWindow(current), ts) && Contains(RawWindow(current), ts)
  {
  }

  /** Anomalies drawn from rows of the raw window and kept from the current
      date on all fall on the current date. */
  lemma AnomaliesOnCurrentDay(current: int, ts: int)
    requires Contains(RawWindow(current), ts) && Contains(AnomalyWindow(current), ts)
    ensures DayOf(ts) == current
  {
  }

  /** The opaque statistics, as functions from rows to rows. */
  datatype Statistics = Statistics(
    decompose: seq<Row> -> seq<Row>,
    anomaly: seq<Row> -> seq<Row>,
    changepoint: seq<Row> -> seq<Row>,
    freeflow: seq<Row> -> seq<Row>)

  /** What the transaction writes. */
  datatype Results = Results(anomalies: seq<Row>, changepoints: seq<Row>, freeflow: seq<Row>)

  /** The rows computed from XD_TRAVEL_TIME for `current`: the raw window is
      decomposed once; anomalies are trimmed to the current date; change
      points are found on the decomposition from current - 16 days and
      trimmed to the slice; free flow comes from the whole decomposition. */
  function Compute(current: int, travelTimes: seq<Row>, stats: Statistics): (r: Results)
    ensures forall x :: x in r.anomalies ==> x.tstamp >= DayStart(current)
    ensures forall x :: x in r.changepoints ==> DayOf(x.tstamp) == current - 8
    ensures |r.anomalies| <= |stats.anomaly(stats.decompose(Restrict(travelTimes, RawWindow(current))))|
  {
    var decomp := stats.decompose(Restrict(travelTimes, RawWindow(current)));
    var anomalies := Restrict(stats.anomaly(decomp), AnomalyWindow(current));
    var changepoints := Restrict(stats.changepoint(Restrict(decomp, ChangepointInputWindow(current))), ChangepointSlice(current));
    assert forall x :: x in changepoints ==> Contains(ChangepointSlice(current), x.tstamp);
    Results(anomalies, changepoints, stats.freeflow(decomp))
  }

  /** When the statistics keep the timestamps they are given, the statistics
      see only raw-window rows and change-point detection sees only the days
      current - 16 through current. */
  ghost predicate KeepsTimestamps(f: seq<Row> -> seq<Row>)
  {
    forall xs: seq<Row>, x :: x in f(xs) ==> exists y :: y in xs && y.tstamp == x.tstamp
  }

  /** One row of a timestamp-keeping statistic and the input row it came from. */
  lemma KeptTimestamp(f: seq<Row> -> seq<Row>, xs: seq<Row>, x: Row)
    requires KeepsTimestamps(f) && x in f(xs)
    ensures exists y :: y in xs && y.tstamp == x.tstamp
  {
  }

  lemma ChangepointInputSpan(current: int, travelTimes: seq<Row>, stats: Statistics)
    requires KeepsTimestamps(stats.decompose)
    ensures forall x :: x in stats.decompose(Restrict(travelTimes, RawWindow(current))) ==> Contains(RawWindow(current), x.tstamp)
    ensures forall x :: x in Restrict(stats.decompose(Restrict(travelTimes, RawWindow(current))), ChangepointInputWindow(current)) ==>
      current - 16 <= DayOf(x.tstamp) <= current
  {
    var input := Restrict(travelTimes, RawWindow(current));
    var decomp := stats.decompose(input);
    forall x | x in decomp
      ensures Contains(RawWindow(current), x.tstamp)
    {
      KeptTimestamp(stats.decompose, input, x);
      var y :| y in input && y.tstamp == x.tstamp;
    }
  }

  // --------------------------------------------------------- the transaction

  /** The statements of the transaction, in order. */
  datatype Step = Begin | InsertAnalytics | InsertChangepoints | TruncateFreeflow | InsertFreeflow | Commit

  /** The statements run for a date; FREEFLOW is touched only on the last date. */
  function Steps(isLast: bool): (steps: seq<Step>)
    ensures (TruncateFreeflow in steps || InsertFreeflow in steps) <==> isLast
    ensures |steps| == if isLast then 6 else 4
    ensures steps[0] == Begin && steps[|steps| - 1] == Commit
  {
    [Begin, InsertAnalytics, InsertChangepoints]
      + (if isLast then [TruncateFreeflow, InsertFreeflow] else [])
      + [Commit]
  }

  /** The message of the first statement that raises, if any. */
  function FirstFault(steps: seq<Step>, fault: Step -> Option<string>): (e: Option<string>)
    ensures e.None? <==> forall i :: 0 <= i < |steps| ==> fault(steps[i]).None?
    ensures e.Some? ==> exists i :: 0 <= i < |steps| && fault(steps[i]) == e &&
                          forall j :: 0 <= j < i ==> fault(steps[j]).None?
  {
    if steps == [] then None
    else if fault(steps[0]).Some? then fault(steps[0])
    else
      FirstFault(steps[1..], fault)
  }

  /** The first fault of the transaction, statement by statement. */
  lemma FirstFaultOfSteps(isLast: bool, fault: Step -> Option<string>)
    ensures FirstFault(Steps(isLast), fault) ==
      if fault(Begin).Some? then fault(Begin)
      else if fault(InsertAnalytics).Some? then fault(InsertAnalytics)
      else if fault(InsertChangepoints).Some? then fault(InsertChangepoints)
      else if isLast && fault(TruncateFreeflow).Some? then fault(TruncateFreeflow)
      else if isLast && fault(InsertFreeflow).Some? then fault(InsertFreeflow)
      else fault(Commit)
  {
    var last := [Commit];
    FirstFaultCons(Commit, [], fault);
    var freeflow := [TruncateFreeflow] + ([InsertFreeflow] + last);
    FirstFaultCons(InsertFreeflow, last, fault);
    FirstFaultCons(TruncateFreeflow, [InsertFreeflow] + last, fault);
    var tail := if isLast then freeflow else last;
    var changepoints := [InsertChangepoints] + tail;
    FirstFaultCons(InsertChangepoints, tail, fault);
    FirstFaultCons(InsertAnalytics, changepoints, fault);
    FirstFaultCons(Begin, [InsertAnalytics] + changepoints, fault);
    assert Steps(isLast) == [Begin] + ([InsertAnalytics] + changepoints);
  }

  lemma FirstFaultCons(x: Step, rest: seq<Step>, fault: Step -> Option<string>)
    ensures FirstFault([x] + rest, fault) == if fault(x).Some? then fault(x) else FirstFault(rest, fault)
  {
    assert ([x] + rest)[1..] == rest;
  }

  const RolledBack: string := "error inserting results; rolled back: "

  /** `f'error inserting results; rolled back: {e}'`. */
  function RollbackStatus(message: string): (s: string)
    ensures |s| == |RolledBack| + |message|
    ensures s[..|RolledBack|] == RolledBack && s[|RolledBack|..] == message
  {
    RolledBack + message
  }

  /** A rolled-back transaction never reports success. */
  lemma RollbackIsNotSuccess(message: string)
    ensures RollbackStatus(message) != Success
  {
    assert |RollbackStatus(message)| > |Success|;
  }

  /** The contents of the three result tables. */
  datatype Contents = Contents(analytics: seq<Row>, changepoints: seq<Row>, freeflow: seq<Row>)

  /** The contents after a committed transaction: both inserts appended;
      FREEFLOW emptied and refilled on the last date, untouched otherwise. */
  function Committed(c: Contents, isLast: bool, r: Results): (d: Contents)
    ensures |d.analytics| == |c.analytics| + |r.anomalies| && |d.changepoints| == |c.changepoints| + |r.changepoints|
    ensures d.analytics[..|c.analytics|] == c.analytics && d.analytics[|c.analytics|..] == r.anomalies
    ensures d.changepoints[..|c.changepoints|] == c.changepoints && d.changepoints[|c.changepoints|..] == r.changepoints
    ensures d.freeflow == if isLast then r.freeflow else c.freeflow
  {
    Contents(c.analytics + r.anomalies, c.changepoints + r.changepoints,
             if isLast then [] + r.freeflow else c.freeflow)
  }

  /** The transaction as a whole, from the contents before and the faults of
      its statements to the contents after and the returned text. */
  function Transaction(c: Contents, isLast: bool, r: Results, fault: Step -> Option<string>): (t: (Contents, string))
    ensures t.0 == c || t.0 == Committed(c, isLast, r)
    ensures t.1 == Success || (|t.1| >= |RolledBack| && t.1[..|RolledBack|] == RolledBack)
  {
    match FirstFault(Steps(isLast), fault)
    case None => (Committed(c, isLast, r), Success)
    case Some(e) => (c, RollbackStatus(e))
  }

  /** All or nothing: the transaction either reports success with every write
      applied, or reports the rollback with every table as it was. */
  lemma TransactionAllOrNothing(c: Contents, isLast: bool, r: Results, fault: Step -> Option<string>)
    ensures Transaction(c, isLast, r, fault).1 == Success <==> (forall s :: s in Steps(isLast) ==> fault(s).None?)
    ensures Transaction(c, isLast, r, fault).1 == Success ==> Transaction(c, isLast, r, fault).0 == Committed(c, isLast, r)
    ensures Transaction(c, isLast, r, fault).1 != Success ==>
      Transaction(c, isLast, r, fault).0 == c && Transaction(c, isLast, r, fault).1[..|RolledBack|] == RolledBack
    ensures !isLast ==> Transaction(c, isLast, r, fault).0.freeflow == c.freeflow
  {
    var e := FirstFault(Steps(isLast), fault);
    if e.Some? {
      RollbackIsNotSuccess(e.value);
    } else {
      forall s | s in Steps(isLast) ensures fault(s).None? {
        var i :| 0 <= i < |Steps(isLast)| && Steps(isLast)[i] == s;
      }
    }
  }

  /** A FREEFLOW fault on a date that is not the last cannot roll anything back. */
  lemma FreeflowFaultsMatterOnlyOnLast(c: Contents, r: Results, fault: Step -> Option<string>)
    requires fault(Begin).None? && fault(InsertAnalytics).None? && fault(InsertChangepoints).None? && fault(Commit).None?
    ensures Transaction(c, false, r, fault) == (Committed(c, false, r), Success)
  {
  }

  /** A result table of the warehouse. */
  class Table {
    var rows: seq<Row>

    constructor (initial: seq<Row>)
      ensures rows == initial
    {
      rows := initial;
    }

    /** `con.insert(name, rows)`: append. */
    method Insert(batch: seq<Row>)
      modifies this
      ensures rows == old(rows) + batch
    {
      rows := rows + batch;
    }

    /** `TRUNCATE TABLE`: empty the table in place. */
    method Truncate()
      modifies this
      ensures rows == []
    {
      rows := [];
    }
  }

  /** TRAVEL_TIME_ANALYTICS, CHANGEPOINTS and FREEFLOW. The tables are fixed
      objects: the transaction changes their rows and never replaces a table. */
  class ResultTables {
    const analytics: Table
    const changepoints: Table
    const freeflow: Table

    ghost predicate Valid()
      reads this
    {
      analytics != changepoints && analytics != freeflow && changepoints != freeflow
    }

    function Snapshot(): Contents
      reads this, analytics, changepoints, freeflow
    {
      Contents(analytics.rows, changepoints.rows, freeflow.rows)
    }

    constructor (a: seq<Row>, c: seq<Row>, f: seq<Row>)
      ensures Valid() && Snapshot() == Contents(a, c, f)
      ensures fresh(analytics) && fresh(changepoints) && fresh(freeflow)
    {
      analytics := new Table(a);
      changepoints := new Table(c);
      freeflow := new Table(f);
    }

    /** Lines 200-212: BEGIN, the two inserts, on the last date TRUNCATE and
        refill FREEFLOW, COMMIT; on the first statement that raises, ROLLBACK
        and report it. `fault` gives the exception each statement raises. */
    method ApplyResults(isLast: bool, r: Results, fault: Step -> Option<string>) returns (status: string)
      requires Valid()
      modifies analytics, changepoints, freeflow
      ensures (Snapshot(), status) == Transaction(old(Snapshot()), isLast, r, fault)
    {
      FirstFaultOfSteps(isLast, fault);
      var a0, c0, f0 := analytics.rows, changepoints.rows, freeflow.rows;
      var failure := fault(Begin);
      if failure.None? {
        failure := fault(InsertAnalytics);
        if failure.None? {
          analytics.Insert(r.anomalies);
          failure := fault(InsertChangepoints);
          if failure.None? {
            changepoints.Insert(r.changepoints);
            if isLast {
              failure := fault(TruncateFreeflow);
              if failure.None? {
                freeflow.Truncate();
                failure := fault(InsertFreeflow);
                if failure.None? {
                  freeflow.Insert(r.freeflow);
                }
              }
            }
            if failure.None? {
              failure := fault(Commit);
            }
          }
        }
      }
      if failure.Some? {
        // ROLLBACK
        analytics.rows, changepoints.rows, freeflow.rows := a0, c0, f0;
        return RollbackStatus(failure.value);
      }
      return Success;
    }

    /** The whole procedure for one date, given the travel times it reads. */
    method AnalyticsSproc(current: int, isLastDate: string, travelTimes: seq<Row>, stats: Statistics,
                          fault: Step -> Option<string>) returns (status: string)
      requires Valid()
      modifies analytics, changepoints, freeflow
      ensures (Snapshot(), status) ==
        Transaction(old(Snapshot()), ParseIsLastDate(isLastDate), Compute(current, travelTimes, stats), fault)
    {
      var isLast := Lower(isLastDate) == TrueText;
      var results := Compute(current, travelTimes, stats);
      status := ApplyResults(isLast, results, fault);
    }
  }
}
