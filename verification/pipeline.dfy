/** The orchestrator procedure (`pipeline_sproc`): backfill the ledger up to
    yesterday, select the eligible records in order, and run them one at a
    time, recording each attempt before the call and stopping at the first
    job that does not return 'success'. The two stored procedures it calls
    are an oracle from the call to its outcome; the wall clock and the
    warehouse's error messages are functions supplied from outside. */
module Pipeline {
  import opened Common
  import opened SqlLiteral
  import opened Ledger

  /** `RITIS_SPROC(date, date + 1)` or `ANALYTICS_SPROC(date, is_last_date)`. */
  datatype Call = DownloadCall(startDate: int, endDate: int) | AnalyticsCall(date: int, isLastDate: string)

  /** What the orchestrator reads from outside its own code: the
      CURRENT_TIMESTAMP() stored as STARTTIME of a job, the measured duration
      of its call, and the message of the SQL error raised by an UPDATE of the
      job's record whose ERROR_MSG text (the second argument) does not form
      one literal. */
  datatype Env = Env(startOf: Key -> int, elapsedOf: Key -> real, sqlErrorOf: (Key, string) -> string)

  function FlagText(b: bool): string
  {
    if b then "true" else "false"
  }

  /** The flag a call carries reads 'true' exactly when it was set. */
  lemma FlagTextTrue(b: bool)
    ensures FlagText(b) == "true" <==> b
  {
    assert |"false"| != |"true"|;
  }

  /** The call that runs job `k`; only an analytics call carries the flag. */
  function CallWith(k: Key, isLastDate: string): Call
  {
    match k.jobType
    case Download => DownloadCall(k.date, k.date + 1)
    case Analytics => AnalyticsCall(k.date, isLastDate)
  }

  /** The call made for position `i` of the queue `q`: a download covers the
      one day from its date to the next, and an analytics call carries 'true'
      exactly for the last analytics job of the queue. */
  function CallFor(q: seq<Key>, i: int): (c: Call)
    requires 0 <= i < |q|
    ensures c.AnalyticsCall? <==> q[i].jobType == Analytics
    ensures c.DownloadCall? ==> c == DownloadCall(q[i].date, q[i].date + 1)
    ensures c.AnalyticsCall? ==> c.date == q[i].date && c.isLastDate in {"true", "false"}
    ensures c.AnalyticsCall? ==> (c.isLastDate == "true" <==> IsLastAnalytics(q, i))
  {
    FlagTextTrue(IsLastAnalytics(q, i));
    CallWith(q[i], FlagText(IsLastAnalytics(q, i)))
  }

  /** The text passed to the escape helper: the returned value, or the
      exception's message. */
  function ErrorText(out: Outcome): Option<string>
  {
    match out
    case Value(v) => v
    case Exception(m) => Some(m)
    case Interrupted => None
  }

  /** The UPDATE that stores `text` as ERROR_MSG parses only when the escaped
      text, placed between two quotes, forms one literal. */
  predicate ErrorUpdateParses(text: Option<string>)
  {
    Unquote(EscapeSqlLiteral(text)).Some?
  }

  /** How a job that did not return 'success' ends: the literal body stored as
      ERROR_MSG, if an UPDATE went through, and what the orchestrator itself
      returns or raises. */
  datatype Handling = Handling(stored: Option<string>, result: Outcome)

  /** "<Type> failed: <result>", returned for a value other than 'success'. */
  function FailedText(t: JobType, v: Option<string>): string
  {
    Capitalize(TypeName(t)) + " failed: " + PyStr(v)
  }

  /** The `except` branch for an exception with message `m`: store the
      escaped message and return it. When that UPDATE does not parse, its SQL
      error is raised inside the handler and leaves the orchestrator. */
  function ExceptBranch(k: Key, m: string, env: Env): (h: Handling)
    ensures h.result.Value? <==> h.stored.Some?
    ensures h.result.Value? ==> h.result == Value(Some(m))
  {
    var body := EscapeSqlLiteral(Some(m));
    if Unquote(body).Some? then Handling(Some(body), Value(Some(m)))
    else Handling(None, Exception(env.sqlErrorOf(k, body)))
  }

  /** The `except` branch stores the escaped message exactly when its UPDATE
      parses, and what it stores reads back as a prefix of the message. */
  lemma ExceptBranchCases(k: Key, m: string, env: Env)
    ensures ErrorUpdateParses(Some(m)) ==>
      ExceptBranch(k, m, env) == Handling(Some(EscapeSqlLiteral(Some(m))), Value(Some(m)))
    ensures !ErrorUpdateParses(Some(m)) ==>
      ExceptBranch(k, m, env) == Handling(None, Exception(env.sqlErrorOf(k, EscapeSqlLiteral(Some(m)))))
    ensures var h := ExceptBranch(k, m, env);
      h.stored.Some? ==> Unquote(h.stored.value).Some? && Unquote(h.stored.value).value <= m
  {
    if ErrorUpdateParses(Some(m)) {
      EscapeReadsBackAsPrefix(m);
    }
  }

  /** What the orchestrator does after job `k` ended with `out`, when that is
      not 'success'. A returned value is stored and reported as "<Type>
      failed: ..."; if its UPDATE does not parse, the SQL error it raises is
      caught by the `except` branch like an exception of the job itself. An
      exception goes to the `except` branch. A run stopped during the call
      stores and returns nothing. */
  function Handle(k: Key, out: Outcome, env: Env): (h: Handling)
    ensures out.Interrupted? <==> h.result.Interrupted?
    ensures out.Interrupted? ==> h.stored.None?
  {
    match out
    case Value(v) =>
      var body := EscapeSqlLiteral(v);
      if Unquote(body).Some? then Handling(Some(body), Value(Some(FailedText(k.jobType, v))))
      else ExceptBranch(k, env.sqlErrorOf(k, body), env)
    case Exception(m) => ExceptBranch(k, m, env)
    case Interrupted => Handling(None, Interrupted)
  }

  /** The handling of each ending: what is stored and what the orchestrator
      returns or raises. */
  lemma HandleCases(k: Key, out: Outcome, env: Env)
    ensures !out.Interrupted? && ErrorUpdateParses(ErrorText(out)) ==>
      Handle(k, out, env).stored == Some(EscapeSqlLiteral(ErrorText(out)))
    ensures out.Value? && ErrorUpdateParses(out.result) ==>
      Handle(k, out, env).result == Value(Some(FailedText(k.jobType, out.result)))
    ensures out.Value? && !ErrorUpdateParses(out.result) ==>
      Handle(k, out, env) == ExceptBranch(k, env.sqlErrorOf(k, EscapeSqlLiteral(out.result)), env)
    ensures out.Exception? ==> Handle(k, out, env) == ExceptBranch(k, out.message, env)
    ensures out.Exception? && ErrorUpdateParses(Some(out.message)) ==> Handle(k, out, env).result == Value(Some(out.message))
    ensures out.Exception? && !ErrorUpdateParses(Some(out.message)) ==>
      Handle(k, out, env) == Handling(None, Exception(env.sqlErrorOf(k, EscapeSqlLiteral(Some(out.message)))))
  {
    if out.Exception? {
      ExceptBranchCases(k, out.message, env);
    }
  }

  /** A record after its job has been dispatched with outcome `out`: the
      attempt and start time are written first, whatever follows; 'success'
      then writes DURATION and COMPLETED; any other ending writes DURATION and
      ERROR_MSG if one of its UPDATEs goes through, and nothing more otherwise. */
  function AfterJob(rec: RunRecord, k: Key, out: Outcome, env: Env): (r: RunRecord)
    ensures r.attempts == rec.attempts + 1 && r.startTime == Some(env.startOf(k))
    ensures r.completed <==> rec.completed || Succeeded(out)
    ensures Succeeded(out) ==> r.duration == Some(env.elapsedOf(k)) && r.errorMsg == rec.errorMsg
    ensures !Succeeded(out) && Handle(k, out, env).stored.None? ==> r.duration == rec.duration && r.errorMsg == rec.errorMsg
    ensures !Succeeded(out) && Handle(k, out, env).stored.Some? ==>
      r.duration == Some(env.elapsedOf(k)) && r.errorMsg == Handle(k, out, env).stored
  {
    var started := rec.(attempts := rec.attempts + 1, startTime := Some(env.startOf(k)));
    if Succeeded(out) then started.(duration := Some(env.elapsedOf(k)), completed := true)
    else
      match Handle(k, out, env).stored
      case None => started
      case Some(body) => started.(duration := Some(env.elapsedOf(k)), errorMsg := Some(body))
  }

  /** The first position at or after `from` whose call does not succeed. */
  function FirstFailure(q: seq<Key>, oracle: Call -> Outcome, from: nat): (f: Option<nat>)
    requires from <= |q|
    ensures f.Some? ==> from <= f.value < |q| && !Succeeded(oracle(CallFor(q, f.value)))
    ensures f.Some? ==> forall j :: from <= j < f.value ==> Succeeded(oracle(CallFor(q, j)))
    ensures f.None? ==> forall j :: from <= j < |q| ==> Succeeded(oracle(CallFor(q, j)))
    decreases |q| - from
  {
    if from == |q| then None
    else if !Succeeded(oracle(CallFor(q, from))) then Some(from)
    else FirstFailure(q, oracle, from + 1)
  }

  /** How many jobs of the queue the run dispatches. */
  function Reached(q: seq<Key>, oracle: Call -> Outcome): nat
  {
    match FirstFailure(q, oracle, 0)
    case None => |q|
    case Some(f) => f + 1
  }

  /** What the orchestrator returns, raises, or fails to finish: "success"
      when every job succeeds, otherwise what the handling of the first
      failure gives. It raises only when an ERROR_MSG update does not parse,
      and ends without a result only when stopped during a call. */
  function RunStatus(q: seq<Key>, oracle: Call -> Outcome, env: Env): (s: Outcome)
  {
    match FirstFailure(q, oracle, 0)
    case None => Value(Some(Success))
    case Some(f) => Handle(q[f], oracle(CallFor(q, f)), env).result
  }

  /** The status is "success" when no job fails; otherwise the run ends
      without a result exactly when the first failure was an interruption,
      and it raises only when that failure's ERROR_MSG update does not parse. */
  lemma RunStatusCases(q: seq<Key>, oracle: Call -> Outcome, env: Env)
    ensures FirstFailure(q, oracle, 0).None? ==> RunStatus(q, oracle, env) == Value(Some(Success))
    ensures RunStatus(q, oracle, env).Interrupted? <==>
      FirstFailure(q, oracle, 0).Some? && oracle(CallFor(q, FirstFailure(q, oracle, 0).value)).Interrupted?
    ensures RunStatus(q, oracle, env).Exception? <==>
      FirstFailure(q, oracle, 0).Some? &&
      HandlingRaises(q[FirstFailure(q, oracle, 0).value], oracle(CallFor(q, FirstFailure(q, oracle, 0).value)), env)
  {
  }

  /** The handling of `out` raises: the UPDATE storing the failure does not
      parse, nor, for a returned value, the UPDATE storing the SQL error that
      the first one raised. */
  predicate HandlingRaises(k: Key, out: Outcome, env: Env)
  {
    match out
    case Value(v) => !ErrorUpdateParses(v) && !ErrorUpdateParses(Some(env.sqlErrorOf(k, EscapeSqlLiteral(v))))
    case Exception(m) => !ErrorUpdateParses(Some(m))
    case Interrupted => false
  }

  /** Every job of `q` has a record in `rows`. */
  ghost predicate Drawn(rows: Rows, q: seq<Key>)
  {
    forall k :: k in q ==> k in rows
  }

  ghost predicate NoRepeats(q: seq<Key>)
  {
    forall a, b :: 0 <= a < b < |q| ==> q[a] != q[b]
  }

  lemma QueueDrawn(rows: Rows)
    ensures Drawn(rows, Queue(rows)) && NoRepeats(Queue(rows))
  {
    QueueSorted(rows);
  }

  /** The ledger after the first `n` jobs of `q` have been dispatched, each
      record written as its outcome dictates. */
  function Dispatched(before: Rows, q: seq<Key>, oracle: Call -> Outcome, env: Env, n: nat): (r: Rows)
    requires n <= |q| && Drawn(before, q)
    ensures r.Keys == before.Keys
  {
    if n == 0 then before
    else
      assert q[n - 1] in q;
      Dispatched(before, q, oracle, env, n - 1)[q[n - 1] := AfterJob(before[q[n - 1]], q[n - 1], oracle(CallFor(q, n - 1)), env)]
  }

  /** The calls made for the first `n` jobs of `q`, in order. */
  function CallsFor(q: seq<Key>, n: nat): seq<Call>
    requires n <= |q|
  {
    if n == 0 then [] else CallsFor(q, n - 1) + [CallFor(q, n - 1)]
  }

  /** The effect of one pass over the queue `q` drawn from `before`: the
      first `Reached` jobs are dispatched in order, and the status is that of
      the first failure, or "success". */
  ghost predicate RunEffect(before: Rows, q: seq<Key>, after: Rows, oracle: Call -> Outcome, env: Env,
                            status: Outcome, calls: seq<Call>)
  {
    var n := Reached(q, oracle);
    && Drawn(before, q)
    && n <= |q|
    && after == Dispatched(before, q, oracle, env, n)
    && calls == CallsFor(q, n)
    && status == RunStatus(q, oracle, env)
  }

  lemma {:induction false} CallsForAt(q: seq<Key>, n: nat)
    requires n <= |q|
    ensures |CallsFor(q, n)| == n
    ensures forall j :: 0 <= j < n ==> CallsFor(q, n)[j] == CallFor(q, j)
  {
    if n > 0 {
      CallsForAt(q, n - 1);
    }
  }

  lemma {:induction false} DispatchedDoneAt(before: Rows, q: seq<Key>, oracle: Call -> Outcome, env: Env, n: nat, j: nat)
    requires j < n <= |q| && Drawn(before, q) && NoRepeats(q)
    ensures Dispatched(before, q, oracle, env, n)[q[j]] == AfterJob(before[q[j]], q[j], oracle(CallFor(q, j)), env)
  {
    var last := q[n - 1];
    assert last in q;
    var written := AfterJob(before[last], last, oracle(CallFor(q, n - 1)), env);
    assert Dispatched(before, q, oracle, env, n) == Dispatched(before, q, oracle, env, n - 1)[last := written];
    if j < n - 1 {
      assert q[j] != last;
      DispatchedDoneAt(before, q, oracle, env, n - 1, j);
    }
  }

  lemma DispatchedDone(before: Rows, q: seq<Key>, oracle: Call -> Outcome, env: Env, n: nat)
    requires n <= |q| && Drawn(before, q) && NoRepeats(q)
    ensures forall j :: 0 <= j < n ==>
      Dispatched(before, q, oracle, env, n)[q[j]] == AfterJob(before[q[j]], q[j], oracle(CallFor(q, j)), env)
  {
    forall j | 0 <= j < n
      ensures Dispatched(before, q, oracle, env, n)[q[j]] == AfterJob(before[q[j]], q[j], oracle(CallFor(q, j)), env)
    {
      DispatchedDoneAt(before, q, oracle, env, n, j);
    }
  }

  lemma {:induction false} DispatchedPending(before: Rows, q: seq<Key>, oracle: Call -> Outcome, env: Env, n: nat)
    requires n <= |q| && Drawn(before, q) && NoRepeats(q)
    ensures forall j :: n <= j < |q| ==> Dispatched(before, q, oracle, env, n)[q[j]] == before[q[j]]
  {
    if n > 0 {
      DispatchedPending(before, q, oracle, env, n - 1);
      forall j | n <= j < |q|
        ensures q[j] != q[n - 1]
      {
      }
    }
  }

  lemma {:induction false} DispatchedOthers(before: Rows, q: seq<Key>, oracle: Call -> Outcome, env: Env, n: nat)
    requires n <= |q| && Drawn(before, q)
    ensures forall k :: k in before && k !in q ==> Dispatched(before, q, oracle, env, n)[k] == before[k]
  {
    if n > 0 {
      DispatchedOthers(before, q, oracle, env, n - 1);
      assert q[n - 1] in q;
    }
  }

  /** Dispatching `n` jobs writes exactly their records: each of the first `n`
      positions holds its job's outcome, and every other record is as before. */
  lemma DispatchedAt(before: Rows, q: seq<Key>, oracle: Call -> Outcome, env: Env, n: nat)
    requires n <= |q| && Drawn(before, q) && NoRepeats(q)
    ensures Dispatched(before, q, oracle, env, n).Keys == before.Keys
    ensures forall j :: 0 <= j < n ==>
      Dispatched(before, q, oracle, env, n)[q[j]] == AfterJob(before[q[j]], q[j], oracle(CallFor(q, j)), env)
    ensures forall j :: n <= j < |q| ==> Dispatched(before, q, oracle, env, n)[q[j]] == before[q[j]]
    ensures forall k :: k in before && k !in q ==> Dispatched(before, q, oracle, env, n)[k] == before[k]
  {
    DispatchedDone(before, q, oracle, env, n);
    DispatchedPending(before, q, oracle, env, n);
    DispatchedOthers(before, q, oracle, env, n);
  }

  /** A record not yet reached still holds its value from before the run. */
  lemma DispatchedAhead(before: Rows, q: seq<Key>, oracle: Call -> Outcome, env: Env, n: nat)
    requires n < |q| && Drawn(before, q) && NoRepeats(q)
    ensures q[n] in Dispatched(before, q, oracle, env, n) && Dispatched(before, q, oracle, env, n)[q[n]] == before[q[n]]
  {
    DispatchedAt(before, q, oracle, env, n);
    assert q[n] in q;
  }

  /** RunEffect spelled out record by record. */
  lemma RunEffectRecords(before: Rows, q: seq<Key>, after: Rows, oracle: Call -> Outcome, env: Env,
                         status: Outcome, calls: seq<Call>)
    requires RunEffect(before, q, after, oracle, env, status, calls) && NoRepeats(q)
    ensures after.Keys == before.Keys
    ensures |calls| == Reached(q, oracle) <= |q|
    ensures forall j :: 0 <= j < |calls| ==> calls[j] == CallFor(q, j)
    ensures forall j :: 0 <= j < |calls| ==> after[q[j]] == AfterJob(before[q[j]], q[j], oracle(CallFor(q, j)), env)
    ensures forall j :: |calls| <= j < |q| ==> after[q[j]] == before[q[j]]
    ensures forall k :: k in before && k !in q ==> after[k] == before[k]
  {
    CallsForAt(q, Reached(q, oracle));
    DispatchedAt(before, q, oracle, env, Reached(q, oracle));
  }

  /** The loop's invariant after `i` jobs of the queue `q` have succeeded. */
  ghost predicate Progress(before: Rows, rows: Rows, q: seq<Key>, oracle: Call -> Outcome, env: Env,
                           calls: seq<Call>, i: nat)
  {
    && Drawn(before, q)
    && i <= |q|
    && (forall j :: 0 <= j < i ==> Succeeded(oracle(CallFor(q, j))))
    && rows == Dispatched(before, q, oracle, env, i)
    && calls == CallsFor(q, i)
  }

  /** The first job that does not succeed decides how far the run gets and what it returns. */
  lemma StopAt(q: seq<Key>, oracle: Call -> Outcome, env: Env, i: nat)
    requires i < |q| && !Succeeded(oracle(CallFor(q, i)))
    requires forall j :: 0 <= j < i ==> Succeeded(oracle(CallFor(q, j)))
    ensures FirstFailure(q, oracle, 0) == Some(i)
    ensures Reached(q, oracle) == i + 1
    ensures RunStatus(q, oracle, env) == Handle(q[i], oracle(CallFor(q, i)), env).result
  {
  }

  /** A job that succeeds extends the progress by one. */
  lemma ProgressStep(before: Rows, rows: Rows, q: seq<Key>, oracle: Call -> Outcome, env: Env,
                     calls: seq<Call>, i: nat, rows': Rows, calls': seq<Call>)
    requires Progress(before, rows, q, oracle, env, calls, i)
    requires i < |q| && Succeeded(oracle(CallFor(q, i)))
    requires rows' == rows[q[i] := AfterJob(before[q[i]], q[i], oracle(CallFor(q, i)), env)]
    requires calls' == calls + [CallFor(q, i)]
    ensures Progress(before, rows', q, oracle, env, calls', i + 1)
  {
  }

  /** A job that does not succeed ends the run with its status. */
  lemma ProgressStop(before: Rows, rows: Rows, q: seq<Key>, oracle: Call -> Outcome, env: Env,
                     calls: seq<Call>, i: nat, rows': Rows, status: Outcome, calls': seq<Call>)
    requires Progress(before, rows, q, oracle, env, calls, i)
    requires i < |q| && !Succeeded(oracle(CallFor(q, i)))
    requires rows' == rows[q[i] := AfterJob(before[q[i]], q[i], oracle(CallFor(q, i)), env)]
    requires status == Handle(q[i], oracle(CallFor(q, i)), env).result
    requires calls' == calls + [CallFor(q, i)]
    ensures RunEffect(before, q, rows', oracle, env, status, calls')
  {
    StopAt(q, oracle, env, i);
    var n := Reached(q, oracle);
    assert n == i + 1;
    assert calls' == CallsFor(q, n);
    assert rows' == Dispatched(before, q, oracle, env, n);
    assert status == RunStatus(q, oracle, env);
  }

  /** One job of the loop: a success advances the progress, anything else ends the run. */
  lemma JobStep(before: Rows, rows: Rows, q: seq<Key>, oracle: Call -> Outcome, env: Env,
                calls: seq<Call>, i: nat, out: Outcome, ending: Outcome, rows': Rows, calls': seq<Call>)
    requires Progress(before, rows, q, oracle, env, calls, i) && i < |q| && NoRepeats(q)
    requires q[i] in rows && out == oracle(CallFor(q, i))
    requires rows' == rows[q[i] := AfterJob(rows[q[i]], q[i], out, env)]
    requires !Succeeded(out) ==> ending == Handle(q[i], out, env).result
    requires calls' == calls + [CallFor(q, i)]
    ensures Succeeded(out) ==> Progress(before, rows', q, oracle, env, calls', i + 1)
    ensures !Succeeded(out) ==> RunEffect(before, q, rows', oracle, env, ending, calls')
  {
    DispatchedAhead(before, q, oracle, env, i);
    if Succeeded(out) {
      ProgressStep(before, rows, q, oracle, env, calls, i, rows', calls');
    } else {
      ProgressStop(before, rows, q, oracle, env, calls, i, rows', ending, calls');
    }
  }

  /** A queue run to its end ends with "success". */
  lemma ProgressFinish(before: Rows, rows: Rows, q: seq<Key>, oracle: Call -> Outcome, env: Env,
                       calls: seq<Call>)
    requires Progress(before, rows, q, oracle, env, calls, |q|)
    ensures RunEffect(before, q, rows, oracle, env, Value(Some(Success)), calls)
  {
    assert FirstFailure(q, oracle, 0) == None;
  }

  // ---------------------------------------------------------------------------
  // What one run guarantees

  /** The text "success" is stored and read back unchanged. */
  lemma SuccessParses()
    ensures ErrorUpdateParses(Some(Success))
  {
    assert Quote !in Success;
    EscapeUnchanged(Success);
  }

  /** Whatever a failed job stores as ERROR_MSG is one well-formed literal
      that reads back as a prefix of the job's own error text or, when that
      text could not be stored, of the SQL error raised in its place. */
  lemma StoredErrorIsPrefix(rec: RunRecord, k: Key, out: Outcome, env: Env)
    requires !Succeeded(out) && Handle(k, out, env).stored.Some?
    ensures var r := AfterJob(rec, k, out, env);
      r.errorMsg.Some? && Unquote(r.errorMsg.value).Some? &&
      (Unquote(r.errorMsg.value).value <= OrEmpty(ErrorText(out)) ||
       (out.Value? && Unquote(r.errorMsg.value).value <= env.sqlErrorOf(k, EscapeSqlLiteral(out.result))))
  {
    HandleCases(k, out, env);
    if out.Value? {
      var e := env.sqlErrorOf(k, EscapeSqlLiteral(out.result));
      if !ErrorUpdateParses(out.result) {
        ExceptBranchCases(k, e, env);
      } else if out.result.Some? {
        EscapeReadsBackAsPrefix(out.result.value);
      }
    } else {
      ExceptBranchCases(k, out.message, env);
    }
  }

  /** Two failed endings handled alike leave the record alike. */
  lemma SameHandlingSameRecord(rec: RunRecord, k: Key, out1: Outcome, out2: Outcome, env: Env)
    requires !Succeeded(out1) && !Succeeded(out2) && Handle(k, out1, env) == Handle(k, out2, env)
    ensures AfterJob(rec, k, out1, env) == AfterJob(rec, k, out2, env)
  {
  }

  /** A returned value whose escaped text does not form a literal makes its
      UPDATE raise inside the `try`; the job then ends exactly as if it had
      raised that SQL error itself. */
  lemma UnparsableValueIsCaught(rec: RunRecord, k: Key, v: Option<string>, env: Env)
    requires !ErrorUpdateParses(v)
    ensures var e := env.sqlErrorOf(k, EscapeSqlLiteral(v));
      Handle(k, Value(v), env) == Handle(k, Exception(e), env) &&
      AfterJob(rec, k, Value(v), env) == AfterJob(rec, k, Exception(e), env)
  {
    SuccessParses();
    var e := env.sqlErrorOf(k, EscapeSqlLiteral(v));
    HandleCases(k, Value(v), env);
    HandleCases(k, Exception(e), env);
    SameHandlingSameRecord(rec, k, Value(v), Exception(e), env);
  }

  /** The retry cap: after an attempt, a record is selected again exactly
      when it did not succeed and has fewer than three attempts. */
  lemma EligibleAfterJob(rec: RunRecord, k: Key, out: Outcome, env: Env)
    ensures Eligible(AfterJob(rec, k, out, env)) <==>
      !rec.completed && !Succeeded(out) && rec.attempts + 1 < MaxAttempts
  {
  }

  /** Records the query does not select are left exactly as they were;
      attempts never go down, a completed record stays completed, and no
      record passes the retry cap. */
  lemma RunTouchesOnlyEligible(before: Rows, after: Rows, oracle: Call -> Outcome, env: Env,
                               status: Outcome, calls: seq<Call>)
    requires RunEffect(before, Queue(before), after, oracle, env, status, calls)
    ensures after.Keys == before.Keys
    ensures forall k :: k in before && !Eligible(before[k]) ==> after[k] == before[k]
    ensures forall k :: k in before ==> before[k].attempts <= after[k].attempts <= before[k].attempts + 1
    ensures forall k :: k in before && before[k].completed ==> after[k].completed
    ensures forall k :: k in before && before[k].attempts <= MaxAttempts ==> after[k].attempts <= MaxAttempts
  {
    var q := Queue(before);
    QueueDrawn(before);
    RunEffectRecords(before, q, after, oracle, env, status, calls);
    forall k | k in before
      ensures before[k].attempts <= after[k].attempts <= before[k].attempts + 1
      ensures !Eligible(before[k]) ==> after[k] == before[k]
      ensures before[k].completed ==> after[k].completed
      ensures before[k].attempts <= MaxAttempts ==> after[k].attempts <= MaxAttempts
    {
      if k in q {
        var j :| 0 <= j < |q| && q[j] == k;
        if j < |calls| {
          assert after[k] == AfterJob(before[k], k, oracle(CallFor(q, j)), env);
        }
      }
    }
  }

  /** When every job succeeds the run returns "success", makes one call per
      selected record, and leaves each of them completed after one more attempt. */
  lemma RunAllSucceed(before: Rows, after: Rows, oracle: Call -> Outcome, env: Env,
                      status: Outcome, calls: seq<Call>)
    requires RunEffect(before, Queue(before), after, oracle, env, status, calls)
    requires forall j :: 0 <= j < |Queue(before)| ==> Succeeded(oracle(CallFor(Queue(before), j)))
    ensures status == Value(Some(Success))
    ensures |calls| == |Queue(before)|
    ensures after.Keys == before.Keys
    ensures forall k :: k in before && Eligible(before[k]) ==>
      after[k].completed && after[k].attempts == before[k].attempts + 1
  {
    var q := Queue(before);
    QueueDrawn(before);
    assert FirstFailure(q, oracle, 0) == None;
    RunEffectRecords(before, q, after, oracle, env, status, calls);
    forall k | k in before && Eligible(before[k])
      ensures after[k].completed && after[k].attempts == before[k].attempts + 1
    {
      var j :| 0 <= j < |q| && q[j] == k;
      assert after[k] == AfterJob(before[k], k, oracle(CallFor(q, j)), env);
    }
  }

  /** The first job that does not succeed is the last one called: its record
      carries the new attempt and stays incomplete, its escaped error text is
      stored whenever that UPDATE parses, every later job is left for the
      next run, and the run ends as the handling of that job dictates. */
  lemma RunStopsAtFirstFailure(before: Rows, after: Rows, oracle: Call -> Outcome, env: Env,
                               status: Outcome, calls: seq<Call>, f: nat)
    requires RunEffect(before, Queue(before), after, oracle, env, status, calls)
    requires FirstFailure(Queue(before), oracle, 0) == Some(f)
    ensures f < |Queue(before)| && |calls| == f + 1
    ensures after.Keys == before.Keys
    ensures var k := Queue(before)[f];
      after[k].attempts == before[k].attempts + 1 && !after[k].completed
    ensures var k, out := Queue(before)[f], oracle(CallFor(Queue(before), f));
      !out.Interrupted? && ErrorUpdateParses(ErrorText(out)) ==> after[k].errorMsg == Some(EscapeSqlLiteral(ErrorText(out)))
    ensures var k, out := Queue(before)[f], oracle(CallFor(Queue(before), f));
      after[k] == AfterJob(before[k], k, out, env)
    ensures forall j :: f < j < |Queue(before)| ==> after[Queue(before)[j]] == before[Queue(before)[j]]
    ensures status == Handle(Queue(before)[f], oracle(CallFor(Queue(before), f)), env).result
  {
    var q := Queue(before);
    QueueDrawn(before);
    RunEffectRecords(before, q, after, oracle, env, status, calls);
    assert q[f] in q;
  }

  /** A returned value never reads as "success" once prefixed with the job type. */
  lemma FailedTextIsNotSuccess(t: JobType, v: Option<string>)
    ensures FailedText(t, v) != Success
  {
    var c := Capitalize(TypeName(t));
    assert c[0] == UpperChar(TypeName(t)[0]);
    assert (c + " failed: " + PyStr(v))[0] == c[0];
  }

  /** The run returns "success" exactly when every job succeeded, or when the
      first one that did not either raised an exception whose message is
      "success", or returned a value whose UPDATE raised an SQL error whose
      message is "success". */
  lemma RunSuccessStatus(before: Rows, after: Rows, oracle: Call -> Outcome, env: Env,
                         status: Outcome, calls: seq<Call>)
    requires RunEffect(before, Queue(before), after, oracle, env, status, calls)
    ensures status == Value(Some(Success)) <==>
      match FirstFailure(Queue(before), oracle, 0)
      case None => true
      case Some(f) =>
        var k, out := Queue(before)[f], oracle(CallFor(Queue(before), f));
        out == Exception(Success) ||
        (out.Value? && !ErrorUpdateParses(out.result) && env.sqlErrorOf(k, EscapeSqlLiteral(out.result)) == Success)
  {
    var q := Queue(before);
    SuccessParses();
    match FirstFailure(q, oracle, 0)
    case None =>
    case Some(f) =>
      var out := oracle(CallFor(q, f));
      if out.Value? && ErrorUpdateParses(out.result) {
        FailedTextIsNotSuccess(q[f].jobType, out.result);
      }
  }

  /** A download whose procedure reports 'Incomplete Data' stops the run with
      "Download failed: Incomplete Data" and stores that text as its error. */
  lemma IncompleteDataStopsRun(before: Rows, after: Rows, oracle: Call -> Outcome, env: Env,
                               status: Outcome, calls: seq<Call>, f: nat)
    requires RunEffect(before, Queue(before), after, oracle, env, status, calls)
    requires FirstFailure(Queue(before), oracle, 0) == Some(f)
    requires Queue(before)[f].jobType == Download
    requires oracle(CallFor(Queue(before), f)) == Value(Some("Incomplete Data"))
    ensures status == Value(Some("Download failed: Incomplete Data"))
    ensures after[Queue(before)[f]].errorMsg == Some("Incomplete Data")
  {
    RunStopsAtFirstFailure(before, after, oracle, env, status, calls, f);
    IncompleteDataTexts();
  }

  /** A job that raises stops the run. When the escaped message forms a
      literal, it is stored and the message is returned; otherwise the UPDATE
      raises, nothing more is stored, and the orchestrator raises its SQL error. */
  lemma ExceptionStopsRun(before: Rows, after: Rows, oracle: Call -> Outcome, env: Env,
                          status: Outcome, calls: seq<Call>, f: nat, message: string)
    requires RunEffect(before, Queue(before), after, oracle, env, status, calls)
    requires FirstFailure(Queue(before), oracle, 0) == Some(f)
    requires oracle(CallFor(Queue(before), f)) == Exception(message)
    ensures |calls| == f + 1
    ensures var k := Queue(before)[f];
      ErrorUpdateParses(Some(message)) ==>
        status == Value(Some(message)) && after[k].errorMsg == Some(EscapeSqlLiteral(Some(message)))
    ensures var k := Queue(before)[f];
      !ErrorUpdateParses(Some(message)) ==>
        status == Exception(env.sqlErrorOf(k, EscapeSqlLiteral(Some(message)))) &&
        after[k].errorMsg == before[k].errorMsg && after[k].duration == before[k].duration
  {
    RunStopsAtFirstFailure(before, after, oracle, env, status, calls, f);
  }

  lemma DownloadCapitalized()
    ensures Capitalize(TypeName(Download)) == "Download"
  {
    var s := "download";
    var c := Capitalize(s);
    assert c[1..] == Lower(s[1..]);
    forall i | 0 <= i < |s| ensures c[i] == "Download"[i] {
      if i > 0 {
        assert c[i] == c[1..][i - 1] == LowerChar(s[i]);
      }
    }
  }

  /** The status and the stored error of a download that reports 'Incomplete Data'. */
  lemma IncompleteDataTexts()
    ensures ErrorUpdateParses(Some("Incomplete Data"))
    ensures EscapeSqlLiteral(Some("Incomplete Data")) == "Incomplete Data"
    ensures FailedText(Download, Some("Incomplete Data")) == "Download failed: Incomplete Data"
  {
    IncompleteDataStored();
    IncompleteDataReported();
  }

  lemma IncompleteDataStored()
    ensures ErrorUpdateParses(Some("Incomplete Data"))
    ensures EscapeSqlLiteral(Some("Incomplete Data")) == "Incomplete Data"
  {
    assert Quote !in "Incomplete Data";
    EscapeUnchanged("Incomplete Data");
  }

  lemma IncompleteDataReported()
    ensures FailedText(Download, Some("Incomplete Data")) == "Download failed: Incomplete Data"
  {
    DownloadCapitalized();
    IncompleteDataMessage();
  }

  lemma IncompleteDataMessage()
    ensures "Download" + " failed: " + "Incomplete Data" == "Download failed: Incomplete Data"
  {
    var a := "Download" + " failed: " + "Incomplete Data";
    var b := "Download failed: Incomplete Data";
    assert |a| == |b|;
    forall i | 0 <= i < |b| ensures a[i] == b[i] {
      if i < 8 {
        assert a[i] == "Download"[i];
      } else if i < 17 {
        assert a[i] == " failed: "[i - 8];
      } else {
        assert a[i] == "Incomplete Data"[i - 17];
      }
    }
    assert a == b;
  }

  /** The calls of a run are those for the first positions of its queue, in order. */
  lemma RunCalls(before: Rows, q: seq<Key>, after: Rows, oracle: Call -> Outcome, env: Env,
                 status: Outcome, calls: seq<Call>)
    requires RunEffect(before, q, after, oracle, env, status, calls)
    ensures |calls| <= |q|
    ensures forall j :: 0 <= j < |calls| ==> calls[j] == CallFor(q, j)
  {
    var n := Reached(q, oracle);
    assert n <= |q| && calls == CallsFor(q, n);
    CallsForAt(q, n);
  }

  /** An analytics call that carries is_last_date = 'true'. */
  predicate CarriesLastDate(c: Call)
  {
    c.AnalyticsCall? && c.isLastDate == "true"
  }

  /** A download job is called for the one day [d, d + 1) and an analytics
      job for its date and a flag; the flag reads 'true' exactly when the job
      is the last analytics job of the queue, so at most one call carries it
      and a run that stops before that job makes no such call. */
  lemma RunFlagsLastAnalytics(before: Rows, after: Rows, oracle: Call -> Outcome, env: Env,
                              status: Outcome, calls: seq<Call>)
    requires RunEffect(before, Queue(before), after, oracle, env, status, calls)
    ensures |calls| <= |Queue(before)|
    ensures forall j :: 0 <= j < |calls| ==>
      (calls[j].AnalyticsCall? <==> Queue(before)[j].jobType == Analytics)
    ensures forall j :: 0 <= j < |calls| && Queue(before)[j].jobType == Download ==>
      calls[j] == DownloadCall(Queue(before)[j].date, Queue(before)[j].date + 1)
    ensures forall j :: 0 <= j < |calls| && Queue(before)[j].jobType == Analytics ==>
      calls[j].date == Queue(before)[j].date && calls[j].isLastDate in {"true", "false"}
    ensures forall j :: 0 <= j < |calls| ==> (CarriesLastDate(calls[j]) <==> IsLastAnalytics(Queue(before), j))
    ensures forall a, b :: 0 <= a < |calls| && 0 <= b < |calls| && CarriesLastDate(calls[a]) && CarriesLastDate(calls[b]) ==> a == b
  {
    var q := Queue(before);
    RunCalls(before, q, after, oracle, env, status, calls);
    forall a, b | 0 <= a < |calls| && 0 <= b < |calls| && CarriesLastDate(calls[a]) && CarriesLastDate(calls[b])
      ensures a == b
    {
      IsLastAnalyticsMeans(q, a);
      IsLastAnalyticsMeans(q, b);
    }
  }

  /** The `except` branch for an exception with message `m`: what it stores
      as ERROR_MSG and what the orchestrator then returns or raises. */
  method Except(k: Key, m: string, env: Env) returns (stored: Option<string>, ending: Outcome)
    ensures Handling(stored, ending) == ExceptBranch(k, m, env)
  {
    var body := EscapeSqlLiteral(Some(m));
    if Unquote(body).Some? {
      stored, ending := Some(body), Value(Some(m));
    } else {
      stored, ending := None, Exception(env.sqlErrorOf(k, body));
    }
  }

  /** The end of job `k`, whose record `rec` already carries the attempt and
      start time in `started`: the record to write back and, when the job did
      not succeed, what the orchestrator returns or raises. */
  method Conclude(k: Key, rec: RunRecord, started: RunRecord, out: Outcome, env: Env)
    returns (r: RunRecord, ending: Outcome)
    requires started == rec.(attempts := rec.attempts + 1, startTime := Some(env.startOf(k)))
    ensures r == AfterJob(rec, k, out, env)
    ensures !Succeeded(out) ==> ending == Handle(k, out, env).result
  {
    r, ending := started, out;
    if out.Interrupted? {
      return;
    }
    var elapsed := env.elapsedOf(k);
    if Succeeded(out) {
      r := started.(duration := Some(elapsed), completed := true);
      return;
    }
    // The message of the exception the `except` branch catches.
    var message: string;
    if out.Value? {
      var body := EscapeSqlLiteral(out.result);
      if Unquote(body).Some? {
        r := started.(duration := Some(elapsed), errorMsg := Some(body));
        ending := Value(Some(FailedText(k.jobType, out.result)));
        return;
      }
      message := env.sqlErrorOf(k, body);
    } else {
      message := out.message;
    }
    var stored;
    stored, ending := Except(k, message, env);
    if stored.Some? {
      r := started.(duration := Some(elapsed), errorMsg := stored);
    }
  }

  /** The run_stats table, owned by the orchestrator. */
  class JobLedger {
    var rows: Rows

    constructor (initial: Rows)
      ensures rows == initial
    {
      rows := initial;
    }

    /** Step 1: insert, for each TYPE present, the dates after its maximum
        through `yesterday`, in a single INSERT. */
    method Backfill(yesterday: int) returns (inserted: seq<Key>)
      modifies this
      ensures rows == Backfilled(old(rows), yesterday)
      ensures forall k :: k in inserted <==> k in BackfillKeys(old(rows), yesterday)
      ensures forall i, j :: 0 <= i < j < |inserted| ==> inserted[i] != inserted[j]
    {
      inserted := PlanBackfill(MaxDates(rows), yesterday);
      BackfillPlanIsBackfill(rows, yesterday, inserted);
      if inserted != [] {
        rows := rows + map k | k in inserted :: NewRecord;
      }
    }

    /** The job at position `i` of the queue `q`: record the attempt and its
        start time, count it if it is an analytics job, make the call, then
        record how it ended. `count` is the number of analytics jobs before
        position `i` and `total` the number in the whole queue. `ending` is
        what the orchestrator returns or raises if the job did not succeed. */
    method RunJob(q: seq<Key>, i: int, count: nat, total: nat, oracle: Call -> Outcome, env: Env)
      returns (call: Call, out: Outcome, count': nat, ending: Outcome)
      requires 0 <= i < |q| && q[i] in rows
      requires count == AnalyticsIn(q, 0, i) && total == CountAnalytics(q)
      modifies this
      ensures call == CallFor(q, i) && out == oracle(call)
      ensures count' == AnalyticsIn(q, 0, i + 1)
      ensures !Succeeded(out) ==> ending == Handle(q[i], out, env).result
      ensures rows == old(rows)[q[i] := AfterJob(old(rows)[q[i]], q[i], out, env)]
    {
      var k := q[i];
      var rec := rows[k];
      var started := rec.(attempts := rec.attempts + 1, startTime := Some(env.startOf(k)));
      rows := rows[k := started];
      count' := count;
      if k.jobType == Download {
        call := DownloadCall(k.date, k.date + 1);
      } else {
        count' := count' + 1;
        CounterMarksLastAnalytics(q, i);
        call := AnalyticsCall(k.date, if count' == total then "true" else "false");
      }
      out := oracle(call);
      var r;
      r, ending := Conclude(k, rec, started, out, env);
      rows := rows[k := r];
    }

    /** Step 2: run the selected jobs in order, stopping at the first failure. */
    method RunJobs(oracle: Call -> Outcome, env: Env) returns (status: Outcome, calls: seq<Call>)
      modifies this
      ensures RunEffect(old(rows), Queue(old(rows)), rows, oracle, env, status, calls)
    {
      var q := Queue(rows);
      QueueDrawn(rows);
      status, calls := RunQueue(q, oracle, env);
    }

    /** The dispatch loop over the queue `q` selected from the ledger. */
    method RunQueue(q: seq<Key>, oracle: Call -> Outcome, env: Env) returns (status: Outcome, calls: seq<Call>)
      requires Drawn(rows, q) && NoRepeats(q)
      modifies this
      ensures RunEffect(old(rows), q, rows, oracle, env, status, calls)
    {
      ghost var before := rows;
      var total := CountAnalytics(q);
      var count := 0;
      var i := 0;
      calls := [];
      while i < |q|
        invariant Progress(before, rows, q, oracle, env, calls, i)
        invariant count == AnalyticsIn(q, 0, i)
        decreases |q| - i
      {
        ghost var rowsBefore, callsBefore := rows, calls;
        assert q[i] in q;
        var call, out, ending;
        call, out, count, ending := RunJob(q, i, count, total, oracle, env);
        calls := calls + [call];
        JobStep(before, rowsBefore, q, oracle, env, callsBefore, i, out, ending, rows, calls);
        if !Succeeded(out) {
          status := ending;
          return;
        }
        i := i + 1;
      }
      ProgressFinish(before, rows, q, oracle, env, calls);
      status := Value(Some(Success));
    }

    /** One invocation of the orchestrator: backfill, then run the queue. */
    method PipelineRun(yesterday: int, oracle: Call -> Outcome, env: Env)
      returns (status: Outcome, calls: seq<Call>)
      modifies this
      ensures RunEffect(Backfilled(old(rows), yesterday), Queue(Backfilled(old(rows), yesterday)), rows, oracle, env, status, calls)
    {
      var _ := Backfill(yesterday);
      status, calls := RunJobs(oracle, env);
    }
  }
}
