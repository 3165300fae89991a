/** The download procedure (`ritis_sproc`) after the batch has been fetched:
    the completeness gate over the batch's distinct segment ids, the
    upper-case column rename, and the single append to XD_TRAVEL_TIME. The
    fetched batch is an input; the downloader itself is not modelled. */
module Ritis {
  import opened Common

  /** END_TIME = '20:59:00', in minutes after midnight. */
  const EndTime: int := 20 * MinutesPerHour + 59

  /** A downloaded batch: its column names and its rows. */
  datatype Frame = Frame(columns: seq<string>, rows: seq<Row>)

  /** What the downloader hands back: a batch, or the exception it raised. */
  datatype Download = Fetched(frame: Frame) | Raised(message: string)

  /** `'{end_date} 20:59:00'::TIMESTAMP - INTERVAL '1 day' - INTERVAL '1 hour'`. */
  function LastHourStart(endDate: int): (t: int)
    ensures t + MinutesPerHour == DayStart(endDate - 1) + EndTime
    ensures DayStart(endDate - 1) <= t < DayStart(endDate)
  {
    DayStart(endDate - 1) + EndTime - MinutesPerHour
  }

  /** `SELECT DISTINCT xd_id`: the segment ids present in `rows`. */
  function Segments(rows: seq<Row>): (ids: set<int>)
    ensures forall x :: x in ids <==> exists r :: r in rows && r.xd == x
  {
    set r | r in rows :: r.xd
  }

  /** The distinct segments reporting from the start of the last hour on. */
  function LastHourSegments(rows: seq<Row>, endDate: int): (ids: set<int>)
    ensures forall x :: x in ids <==> exists r :: r in rows && r.xd == x && r.tstamp >= LastHourStart(endDate)
  {
    Segments(Restrict(rows, AtLeast(LastHourStart(endDate))))
  }

  /** The distinct ids of the last hour are among those of the whole batch. */
  lemma LastHourWithinTotal(rows: seq<Row>, endDate: int)
    ensures LastHourSegments(rows, endDate) <= Segments(rows)
    ensures |LastHourSegments(rows, endDate)| <= |Segments(rows)|
  {
    var last, all := LastHourSegments(rows, endDate), Segments(rows);
    assert last <= all;
    assert all == last + (all - last);
  }

  /** The verdict of line 80 on the two counts. */
  datatype Verdict = DivisionByZero | Incomplete | Complete

  /** `last / total <= 0.7` rejects; a zero total makes the division raise. */
  function Gate(last: nat, total: nat): (v: Verdict)
    ensures v == DivisionByZero <==> total == 0
  {
    if total == 0 then DivisionByZero
    else if last * 10 <= total * 7 then Incomplete
    else Complete
  }

  /** Multiplying both sides by a positive number keeps a strict order. */
  lemma ScaleLess(a: real, b: real, t: real)
    requires a < b && t > 0.0
    ensures a * t < b * t
  {
    assert b * t - a * t == (b - a) * t;
  }

  /** The integer test is the ratio test on exact quotients. */
  lemma GateIsRatioTest(last: nat, total: nat)
    requires total > 0
    ensures Gate(last, total) == Incomplete <==> (last as real) / (total as real) <= 0.7
    ensures Gate(last, total) == Complete <==> (last as real) / (total as real) > 0.7
  {
    var l, t := last as real, total as real;
    var r := l / t;
    assert r * t == l;
    if r < 0.7 {
      ScaleLess(r, 0.7, t);
      assert l < 0.7 * t;
    } else if r > 0.7 {
      ScaleLess(0.7, r, t);
      assert 0.7 * t < l;
    } else {
      assert l == 0.7 * t;
    }
    assert (last * 10) as real == 10.0 * l && (total * 7) as real == 7.0 * t;
  }

  /** Exactly 70% is rejected and 71% is accepted. */
  lemma GateBoundary()
    ensures Gate(70, 100) == Incomplete
    ensures Gate(71, 100) == Complete
    ensures Gate(7, 10) == Incomplete
  {
  }

  /** A non-empty batch never divides by zero. */
  lemma GateNeedsRows(rows: seq<Row>, endDate: int)
    ensures Gate(|LastHourSegments(rows, endDate)|, |Segments(rows)|) == DivisionByZero <==> rows == []
  {
    if rows != [] {
      assert rows[0].xd in Segments(rows);
    }
  }

  /** `[c.upper() for c in df.columns]`. */
  function UpperColumns(columns: seq<string>): (u: seq<string>)
    ensures |u| == |columns|
    ensures forall i :: 0 <= i < |columns| ==> u[i] == Upper(columns[i])
  {
    if columns == [] then [] else [Upper(columns[0])] + UpperColumns(columns[1..])
  }

  /** Renaming keeps the names' order and leaves no lower-case letter; a
      second rename changes nothing. */
  lemma UpperColumnsIdempotent(columns: seq<string>)
    ensures UpperColumns(UpperColumns(columns)) == UpperColumns(columns)
    ensures forall i, j :: 0 <= i < |columns| && 0 <= j < |columns[i]| ==> !('a' <= UpperColumns(columns)[i][j] <= 'z')
  {
    forall i | 0 <= i < |columns|
      ensures Upper(Upper(columns[i])) == Upper(columns[i])
    {
      UpperIdempotent(columns[i]);
    }
  }

  const IncompleteData: string := "Incomplete Data"
  const DivisionMessage: string := "division by zero"

  /** The table XD_TRAVEL_TIME: its rows, and the column list of every
      write_pandas call made into it. */
  class TravelTimeTable {
    var rows: seq<Row>
    var writes: seq<seq<string>>

    constructor (initial: seq<Row>)
      ensures rows == initial && writes == []
    {
      rows := initial;
      writes := [];
    }

    /** `session.write_pandas(df, 'XD_TRAVEL_TIME')`: append the frame. */
    method WritePandas(f: Frame)
      modifies this
      ensures rows == old(rows) + f.rows
      ensures writes == old(writes) + [f.columns]
    {
      rows := rows + f.rows;
      writes := writes + [f.columns];
    }

    /** Lines 66-87 of the procedure, given what the downloader returned. */
    method RitisSproc(endDate: int, download: Download) returns (out: Outcome)
      modifies this
      ensures download.Raised? ==> out == Exception(download.message)
      ensures download.Fetched? ==>
        var df := download.frame;
        match Gate(|LastHourSegments(df.rows, endDate)|, |Segments(df.rows)|)
        case DivisionByZero => out == Exception(DivisionMessage)
        case Incomplete => out == Value(Some(IncompleteData))
        case Complete => out == Value(Some(Success))
      ensures out == Value(Some(Success)) ==>
        rows == old(rows) + download.frame.rows &&
        writes == old(writes) + [UpperColumns(download.frame.columns)]
      ensures out != Value(Some(Success)) ==> rows == old(rows) && writes == old(writes)
    {
      if download.Raised? {
        return Exception(download.message);
      }
      var df := download.frame;
      var total := |Segments(df.rows)|;
      var last := |LastHourSegments(df.rows, endDate)|;
      if total == 0 {
        return Exception(DivisionMessage);
      }
      if last * 10 <= total * 7 {
        return Value(Some(IncompleteData));
      }
      df := df.(columns := UpperColumns(df.columns));
      WritePandas(df);
      return Value(Some(Success));
    }
  }
}
