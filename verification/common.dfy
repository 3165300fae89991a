/** Values shared by the three stored procedures: optional values, measurement
    rows with their timestamps, half-open and open-ended time ranges, the ASCII
    case mappings the procedures apply to text, and what a procedure call yields
    to its caller. Dates are day numbers and timestamps are minutes. */
module Common {

  datatype Option<+T> = None | Some(value: T)

  const MinutesPerDay: int := 1440
  const MinutesPerHour: int := 60

  /** The first minute of day `d`: a date compared with a timestamp means midnight. */
  function DayStart(d: int): int
  {
    d * MinutesPerDay
  }

  /** One row of a result or measurement table: a segment id, a timestamp, and
      the remaining columns, whose contents this model does not interpret. */
  datatype Row = Row(xd: int, tstamp: int, values: seq<real>)

  /** The timestamp filters the procedures apply: `>= lo`, or `>= lo AND < hi`. */
  datatype TimeRange = AtLeast(lo: int) | HalfOpen(lo: int, hi: int)

  predicate Contains(w: TimeRange, ts: int)
  {
    match w
    case AtLeast(lo) => lo <= ts
    case HalfOpen(lo, hi) => lo <= ts < hi
  }

  /** The rows of `rows` whose timestamp lies in `w`: each such row as often
      as it occurs in `rows`, and no other row. */
  function Restrict(rows: seq<Row>, w: TimeRange): (r: seq<Row>)
    ensures |r| <= |rows|
    ensures forall x :: x in r <==> x in rows && Contains(w, x.tstamp)
    ensures forall x :: multiset(r)[x] == if Contains(w, x.tstamp) then multiset(rows)[x] else 0
  {
    if rows == [] then []
    else
      var rest := Restrict(rows[1..], w);
      assert rows == [rows[0]] + rows[1..];
      if Contains(w, rows[0].tstamp) then [rows[0]] + rest else rest
  }

  // ASCII case mappings. Python's str.upper / str.lower are Unicode-aware;
  // only the ASCII letters are mapped here.

  function UpperChar(c: char): (u: char)
    ensures !('a' <= u <= 'z')
    ensures !('a' <= c <= 'z') ==> u == c
  {
    if 'a' <= c <= 'z' then (c as int - 32) as char else c
  }

  function LowerChar(c: char): (l: char)
    ensures !('A' <= l <= 'Z')
    ensures !('A' <= c <= 'Z') ==> l == c
  {
    if 'A' <= c <= 'Z' then (c as int + 32) as char else c
  }

  function Upper(s: string): (u: string)
    ensures |u| == |s|
    ensures forall i :: 0 <= i < |s| ==> u[i] == UpperChar(s[i])
  {
    if s == [] then [] else [UpperChar(s[0])] + Upper(s[1..])
  }

  function Lower(s: string): (l: string)
    ensures |l| == |s|
    ensures forall i :: 0 <= i < |s| ==> l[i] == LowerChar(s[i])
  {
    if s == [] then [] else [LowerChar(s[0])] + Lower(s[1..])
  }

  /** Python's str.capitalize: the first character upper-cased, the rest lower-cased. */
  function Capitalize(s: string): (c: string)
    ensures |c| == |s|
    ensures s != [] ==> c[0] == UpperChar(s[0]) && c[1..] == Lower(s[1..])
  {
    if s == [] then [] else [UpperChar(s[0])] + Lower(s[1..])
  }

  /** Upper-casing is idempotent and leaves no lower-case ASCII letter behind. */
  lemma UpperIdempotent(s: string)
    ensures Upper(Upper(s)) == Upper(s)
    ensures forall i :: 0 <= i < |s| ==> !('a' <= Upper(s)[i] <= 'z')
  {
  }

  /** What a stored-procedure call yields to its caller: the value it returned
      (a string, or NULL), an exception with its message, or nothing at all
      because the enclosing invocation was stopped while the call ran. */
  datatype Outcome = Value(result: Option<string>) | Exception(message: string) | Interrupted

  const Success: string := "success"

  predicate Succeeded(o: Outcome)
  {
    o == Value(Some(Success))
  }

  /** Python's str() of a returned value: a NULL result prints as "None". */
  function PyStr(v: Option<string>): string
  {
    match v
    case None => "None"
    case Some(s) => s
  }
}
