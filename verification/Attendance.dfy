/** Attendance logs, and the two ways of reading sessions out of them
    (contracts/manage_hub/src/attendance_log.rs). */
module Attendance {
  import opened Prelude

  datatype AttendanceAction = ClockIn | ClockOut

  datatype LogEntry = LogEntry(id: nat, user: Address, action: AttendanceAction, timestamp: u64)

  datatype SessionPair = SessionPair(clockIn: u64, clockOut: u64, duration: u64)

  datatype AttendanceSummary = AttendanceSummary(
    totalClockIns: nat, totalClockOuts: nat, totalDuration: u64, averageDuration: u64, totalSessions: nat)

  datatype UserStatistics = UserStatistics(
    totalSessions: nat, totalDuration: u64, averageDuration: u64, firstClockIn: u64, lastClockOut: u64, totalDays: nat)

  datatype Error = InvalidEventDetails | InvalidDateRange | NoAttendanceRecords

  /** `Trap`: an unchecked addition overflowed and the host ended the call. */
  datatype Outcome<+T> = Ok(value: T) | Err(error: Error) | Trap

  datatype DateRange = DateRange(start: u64, end: u64)

  /** Entries in the order of their times: what appending under a ledger clock yields. */
  ghost predicate Sorted(logs: seq<LogEntry>) {
    forall i, j :: 0 <= i < j < |logs| ==> logs[i].timestamp <= logs[j].timestamp
  }

  // ---------------------------------------------------------------- the storage

  class AttendanceStore {
    var byId: map<nat, LogEntry>
    var byUser: map<Address, seq<LogEntry>>

    function LogsOf(user: Address): seq<LogEntry>
      reads this
    {
      if user in byUser then byUser[user] else []
    }

    constructor ()
      ensures byId == map[] && byUser == map[]
    {
      byId, byUser := map[], map[];
    }

    /** `log_attendance_internal`: the user's log grows at its end, other logs stay as they are. */
    method LogAttendance(now: u64, id: nat, user: Address, action: AttendanceAction, detailCount: nat)
      returns (r: Outcome<()>)
      modifies this
      ensures r == if detailCount > 50 then Err(InvalidEventDetails) else Ok(())
      ensures r.Err? ==> byId == old(byId) && byUser == old(byUser)
      ensures r.Ok? ==>
                var entry := LogEntry(id, user, action, now);
                byId == old(byId)[id := entry] && byUser == old(byUser)[user := old(LogsOf(user)) + [entry]]
    {
      if detailCount > 50 { return Err(InvalidEventDetails); }
      var log := LogEntry(id, user, action, now);
      byId := byId[id := log];
      var userLogs := if user in byUser then byUser[user] else [];
      userLogs := userLogs + [log];
      byUser := byUser[user := userLogs];
      return Ok(());
    }
  }

  datatype Append = Append(now: u64, id: nat, user: Address, action: AttendanceAction, detailCount: nat)

  type UserLogs = map<Address, seq<LogEntry>>

  /** All users' logs after a series of calls. */
  function LogsAfter(calls: seq<Append>): UserLogs {
    if calls == [] then map[]
    else
      var before, c := LogsAfter(calls[..|calls| - 1]), calls[|calls| - 1];
      if c.detailCount > 50 then before
      else
        before[c.user := (if c.user in before then before[c.user] else [])
                         + [LogEntry(c.id, c.user, c.action, c.now)]]
  }

  /** While the ledger clock does not run back, every user's log is sorted and holds only that user's entries. */
  lemma {:induction false} LogsAreSorted(calls: seq<Append>)
    requires forall i, j :: 0 <= i < j < |calls| ==> calls[i].now <= calls[j].now
    ensures forall u :: u in LogsAfter(calls) ==>
              && Sorted(LogsAfter(calls)[u])
              && (forall e :: e in LogsAfter(calls)[u] ==>
                    e.user == u && calls != [] && e.timestamp <= calls[|calls| - 1].now)
  {
    if calls != [] {
      var init, c := calls[..|calls| - 1], calls[|calls| - 1];
      LogsAreSorted(init);
      assert init != [] ==> init[|init| - 1].now <= c.now;
    }
  }

  // ---------------------------------------------------------------- date ranges

  predicate InRange(e: LogEntry, r: DateRange) {
    r.start <= e.timestamp <= r.end
  }

  function Filtered(logs: seq<LogEntry>, r: DateRange): seq<LogEntry> {
    if logs == [] then []
    else
      var last := logs[|logs| - 1];
      Filtered(logs[..|logs| - 1], r) + if InRange(last, r) then [last] else []
  }

  /** Filtering keeps exactly the entries of the range, and keeps the log sorted. */
  lemma {:induction false} FilteredIsSorted(logs: seq<LogEntry>, r: DateRange)
    requires Sorted(logs)
    ensures Sorted(Filtered(logs, r))
    ensures forall e :: e in Filtered(logs, r) <==> e in logs && r.start <= e.timestamp <= r.end
  {
    if logs != [] {
      var init, last := logs[..|logs| - 1], logs[|logs| - 1];
      assert logs == init + [last];
      FilteredIsSorted(init, r);
      forall e | e in Filtered(init, r) ensures e.timestamp <= last.timestamp {
        var i :| 0 <= i < |init| && init[i] == e;
        assert logs[i] == e;
      }
    }
  }

  /** Filtering drops no entry of the range, not even a repeated one. */
  lemma {:induction false} FilteringCounts(logs: seq<LogEntry>, r: DateRange, e: LogEntry)
    ensures multiset(Filtered(logs, r))[e] == if r.start <= e.timestamp <= r.end then multiset(logs)[e] else 0
  {
    if logs != [] {
      var init, last := logs[..|logs| - 1], logs[|logs| - 1];
      assert logs == init + [last];
      FilteringCounts(init, r, e);
    }
  }

  method FilterLogsByDateRange(logs: seq<LogEntry>, r: DateRange) returns (filtered: seq<LogEntry>)
    ensures filtered == Filtered(logs, r)
  {
    filtered := [];
    for i := 0 to |logs|
      invariant filtered == Filtered(logs[..i], r)
    {
      assert logs[..i + 1][..i] == logs[..i];
      if logs[i].timestamp >= r.start && logs[i].timestamp <= r.end {
        filtered := filtered + [logs[i]];
      }
    }
    assert logs[..|logs|] == logs;
  }

  // ---------------------------------------------------------------- the two readings

  function PairOf(clockIn: LogEntry, clockOut: LogEntry): SessionPair
    requires clockIn.timestamp <= clockOut.timestamp
  {
    SessionPair(clockIn.timestamp, clockOut.timestamp, clockOut.timestamp - clockIn.timestamp)
  }

  /** The position of the first ClockOut from `j` on, or the length of the log. */
  function NextOut(logs: seq<LogEntry>, j: nat): (k: nat)
    requires j <= |logs|
    ensures j <= k <= |logs|
    ensures k < |logs| ==> logs[k].action == ClockOut
    ensures forall i :: j <= i < k ==> logs[i].action == ClockIn
    decreases |logs| - j
  {
    if j == |logs| then j
    else match logs[j].action case ClockOut => j case ClockIn => NextOut(logs, j + 1)
  }

  /** The summary's reading: every ClockIn before `n` is paired with the next ClockOut, if there is one. */
  ghost function AllPairs(logs: seq<LogEntry>, n: nat): seq<SessionPair>
    requires Sorted(logs) && n <= |logs|
  {
    if n == 0 then []
    else
      AllPairs(logs, n - 1) +
      if logs[n - 1].action == ClockIn && NextOut(logs, n) < |logs|
      then [PairOf(logs[n - 1], logs[NextOut(logs, n)])] else []
  }

  /** The statistics' reading: only the last ClockIn before a ClockOut, which the ClockOut directly follows. */
  ghost function LastPairs(logs: seq<LogEntry>, n: nat): seq<SessionPair>
    requires Sorted(logs) && n <= |logs|
  {
    if n == 0 then []
    else
      LastPairs(logs, n - 1) +
      if logs[n - 1].action == ClockIn && n < |logs| && logs[n].action == ClockOut
      then [PairOf(logs[n - 1], logs[n])] else []
  }

  /** `parse_sessions`. */
  method ParseSessions(logs: seq<LogEntry>) returns (sessions: seq<SessionPair>)
    requires Sorted(logs)
    ensures sessions == LastPairs(logs, |logs|)
  {
    sessions := [];
    var pendingClockIn: Option<u64> := None;
    for i := 0 to |logs|
      invariant sessions == LastPairs(logs, if i == 0 then 0 else i - 1)
      invariant pendingClockIn == if i > 0 && logs[i - 1].action == ClockIn then Some(logs[i - 1].timestamp) else None
    {
      match logs[i].action {
        case ClockIn => pendingClockIn := Some(logs[i].timestamp);
        case ClockOut =>
          if pendingClockIn.Some? {
            var duration := logs[i].timestamp - pendingClockIn.value;
            sessions := sessions + [SessionPair(pendingClockIn.value, logs[i].timestamp, duration)];
            pendingClockIn := None;
          }
      }
    }
  }

  function TotalOf(pairs: seq<SessionPair>): nat {
    if pairs == [] then 0 else TotalOf(pairs[..|pairs| - 1]) + pairs[|pairs| - 1].duration
  }

  function CountOf(logs: seq<LogEntry>, action: AttendanceAction): nat {
    if logs == [] then 0
    else CountOf(logs[..|logs| - 1], action) + if logs[|logs| - 1].action == action then 1 else 0
  }

  function Average(total: u64, sessions: nat): u64 {
    if sessions > 0 then
      QuotientBound(total, sessions);
      total / sessions
    else 0
  }

  /** Every entry is counted on one side, so neither count outgrows the log, and every pair starts at a ClockIn. */
  lemma {:induction false} CountsAddUp(logs: seq<LogEntry>, n: nat)
    requires Sorted(logs) && n <= |logs|
    ensures CountOf(logs[..n], ClockIn) + CountOf(logs[..n], ClockOut) == n
    ensures |AllPairs(logs, n)| <= CountOf(logs[..n], ClockIn)
  {
    if n > 0 {
      CountsAddUp(logs, n - 1);
      assert logs[..n][..n - 1] == logs[..n - 1];
    }
  }

  lemma {:induction false} FilteredIsShorter(logs: seq<LogEntry>, r: DateRange)
    ensures |Filtered(logs, r)| <= |logs|
  {
    if logs != [] {
      FilteredIsShorter(logs[..|logs| - 1], r);
    }
  }

  lemma TotalSnoc(pairs: seq<SessionPair>, p: SessionPair)
    ensures TotalOf(pairs + [p]) == TotalOf(pairs) + p.duration
  {
    assert (pairs + [p])[..|pairs|] == pairs;
  }

  lemma {:induction false} TotalGrows(logs: seq<LogEntry>, k: nat, n: nat)
    requires Sorted(logs) && k <= n <= |logs|
    ensures TotalOf(AllPairs(logs, k)) <= TotalOf(AllPairs(logs, n))
    decreases n
  {
    if k < n {
      TotalGrows(logs, k, n - 1);
      if AllPairs(logs, n) != AllPairs(logs, n - 1) {
        TotalSnoc(AllPairs(logs, n - 1), PairOf(logs[n - 1], logs[NextOut(logs, n)]));
      }
    }
  }

  /** The inner loop of `get_attendance_summary`. */
  method FindClockOut(logs: seq<LogEntry>, i: nat) returns (j: nat)
    requires i < |logs|
    ensures j == NextOut(logs, i + 1)
  {
    j := i + 1;
    while j < |logs| && logs[j].action != ClockOut
      invariant i < j <= |logs| && NextOut(logs, i + 1) == NextOut(logs, j)
    {
      j := j + 1;
    }
  }

  /** The loops of `get_attendance_summary` over the filtered log. */
  method PairAll(logs: seq<LogEntry>) returns (r: Option<AttendanceSummary>)
    requires Sorted(logs)
    ensures r.None? <==> TotalOf(AllPairs(logs, |logs|)) > U64_MAX
    ensures r.Some? ==>
      var pairs := AllPairs(logs, |logs|);
      && r.value.totalClockIns == CountOf(logs, ClockIn) && r.value.totalClockOuts == CountOf(logs, ClockOut)
      && r.value.totalDuration == TotalOf(pairs) && r.value.totalSessions == |pairs|
      && r.value.averageDuration == Average(r.value.totalDuration, |pairs|)
  {
    var totalClockIns, totalClockOuts, totalDuration, sessions := 0, 0, 0, [];
    var i := 0;
    while i < |logs|
      invariant 0 <= i <= |logs|
      invariant totalClockIns == CountOf(logs[..i], ClockIn) && totalClockOuts == CountOf(logs[..i], ClockOut)
      invariant sessions == AllPairs(logs, i)
      invariant 0 <= totalDuration <= U64_MAX && totalDuration == TotalOf(sessions)
    {
      assert logs[..i + 1][..i] == logs[..i];
      match logs[i].action {
        case ClockIn =>
          totalClockIns := totalClockIns + 1;
          var j := FindClockOut(logs, i);
          if j < |logs| {
            var duration := logs[j].timestamp - logs[i].timestamp;
            var pair := SessionPair(logs[i].timestamp, logs[j].timestamp, duration);
            TotalSnoc(sessions, pair);
            sessions := sessions + [pair];
            if totalDuration + duration > U64_MAX {
              TotalGrows(logs, i + 1, |logs|);
              return None;
            }
            totalDuration := totalDuration + duration;
          }
        case ClockOut => totalClockOuts := totalClockOuts + 1;
      }
      i := i + 1;
    }
    assert logs[..|logs|] == logs;
    return Some(AttendanceSummary(totalClockIns, totalClockOuts, totalDuration,
                                  Average(totalDuration, |sessions|), |sessions|));
  }

  method GetAttendanceSummary(logs: seq<LogEntry>, range: DateRange) returns (r: Outcome<AttendanceSummary>)
    requires Sorted(logs)
    ensures range.start > range.end ==> r == Err(InvalidDateRange)
    ensures range.start <= range.end && Filtered(logs, range) == [] ==> r == Err(NoAttendanceRecords)
    ensures range.start <= range.end && Filtered(logs, range) != [] ==>
      Sorted(Filtered(logs, range)) &&
      var pairs := AllPairs(Filtered(logs, range), |Filtered(logs, range)|);
      && (r.Trap? <==> TotalOf(pairs) > U64_MAX) && !r.Err?
      && (r.Ok? ==>
            && r.value.totalClockIns + r.value.totalClockOuts == |Filtered(logs, range)| <= |logs|
            && r.value.totalSessions <= r.value.totalClockIns
            && r.value.totalClockIns == CountOf(Filtered(logs, range), ClockIn)
            && r.value.totalClockOuts == CountOf(Filtered(logs, range), ClockOut)
            && r.value.totalDuration == TotalOf(pairs) && r.value.totalSessions == |pairs|
            && r.value.averageDuration == if pairs == [] then 0 else r.value.totalDuration / |pairs|)
  {
    FilteredIsSorted(logs, range);
    if range.start > range.end { return Err(InvalidDateRange); }
    if |logs| == 0 { return Err(NoAttendanceRecords); }
    var filtered := FilterLogsByDateRange(logs, range);
    if |filtered| == 0 { return Err(NoAttendanceRecords); }
    CountsAddUp(filtered, |filtered|);
    assert filtered[..|filtered|] == filtered;
    FilteredIsShorter(logs, range);
    var summary := PairAll(filtered);
    return if summary.Some? then Ok(summary.value) else Trap;
  }

  // ---------------------------------------------------------------- sessions are disjoint intervals

  /** Sessions follow one another without overlapping. */
  ghost predicate Disjoint(sessions: seq<SessionPair>) {
    && (forall i :: 0 <= i < |sessions| ==>
          && sessions[i].clockIn <= sessions[i].clockOut
          && sessions[i].duration == sessions[i].clockOut - sessions[i].clockIn)
    && (forall i, j :: 0 <= i < j < |sessions| ==> sessions[i].clockOut <= sessions[j].clockIn)
  }

  lemma {:induction false} SessionsAreDisjoint(logs: seq<LogEntry>, n: nat)
    requires Sorted(logs) && n <= |logs|
    ensures Disjoint(LastPairs(logs, n))
    ensures n > 0 ==> forall p :: p in LastPairs(logs, n) ==> p.clockOut <= logs[Min(n, |logs| - 1)].timestamp
    ensures n > 0 && n < |logs| && logs[n - 1].action == ClockOut ==>
              forall p :: p in LastPairs(logs, n) ==> p.clockOut <= logs[n - 1].timestamp
    ensures n > 0 && n < |logs| && logs[n - 1].action == ClockIn && logs[n].action == ClockIn ==>
              forall p :: p in LastPairs(logs, n) ==> p.clockOut <= logs[n - 1].timestamp
  {
    if n > 1 {
      SessionsAreDisjoint(logs, n - 1);
    }
  }

  lemma {:induction false} DisjointTotal(sessions: seq<SessionPair>)
    requires Disjoint(sessions) && sessions != []
    ensures TotalOf(sessions) <= sessions[|sessions| - 1].clockOut - sessions[0].clockIn
  {
    var n := |sessions| - 1;
    if n > 0 {
      var init := sessions[..n];
      DisjointTotal(init);
      assert sessions[n - 1].clockOut <= sessions[n].clockIn;
      assert init[n - 1] == sessions[n - 1] && init[0] == sessions[0];
    } else {
      assert TotalOf(sessions[..0]) == 0;
    }
  }

  /** `parse_sessions` yields intervals that follow one another without overlap, so together they last no longer than
      from the first clock-in to the last clock-out. */
  lemma ParsedSessionsAreDisjoint(logs: seq<LogEntry>)
    requires Sorted(logs)
    ensures var sessions := LastPairs(logs, |logs|);
      && Disjoint(sessions)
      && (sessions != [] ==>
            TotalOf(sessions) <= sessions[|sessions| - 1].clockOut - sessions[0].clockIn <= U64_MAX)
  {
    SessionsAreDisjoint(logs, |logs|);
    if LastPairs(logs, |logs|) != [] {
      DisjointTotal(LastPairs(logs, |logs|));
    }
  }

  // ---------------------------------------------------------------- one reading within the other

  ghost predicate Subsequence(a: seq<SessionPair>, b: seq<SessionPair>) {
    if a == [] then true
    else if b == [] then false
    else
      || Subsequence(a, b[..|b| - 1])
      || (a[|a| - 1] == b[|b| - 1] && Subsequence(a[..|a| - 1], b[..|b| - 1]))
  }

  lemma {:induction false} SubsequenceSnoc(a: seq<SessionPair>, b: seq<SessionPair>, p: SessionPair)
    requires Subsequence(a, b)
    ensures Subsequence(a, b + [p]) && Subsequence(a + [p], b + [p])
  {
    assert (b + [p])[..|b|] == b && (a + [p])[..|a|] == a;
  }

  /** A second ClockIn right after the one at `i`, before some later ClockOut. */
  ghost predicate DoubleAt(logs: seq<LogEntry>, i: nat) {
    && i + 1 < |logs| && logs[i].action == ClockIn && logs[i + 1].action == ClockIn
    && NextOut(logs, i + 1) < |logs|
  }

  /** What the position `n - 1` adds to the two readings. */
  lemma PairStep(logs: seq<LogEntry>, n: nat)
    requires Sorted(logs) && 0 < n <= |logs|
    ensures var l, a := LastPairs(logs, n - 1), AllPairs(logs, n - 1);
      || (!DoubleAt(logs, n - 1) && LastPairs(logs, n) == l && AllPairs(logs, n) == a)
      || (exists p ::
            && AllPairs(logs, n) == a + [p]
            && LastPairs(logs, n) == if DoubleAt(logs, n - 1) then l else l + [p])
  {
    assert n < |logs| && logs[n].action == ClockOut ==> NextOut(logs, n) == n;
    if logs[n - 1].action == ClockIn && NextOut(logs, n) < |logs| {
      assert AllPairs(logs, n) == AllPairs(logs, n - 1) + [PairOf(logs[n - 1], logs[NextOut(logs, n)])];
    }
  }

  lemma {:induction false} ReadingsCompare(logs: seq<LogEntry>, n: nat)
    requires Sorted(logs) && n <= |logs|
    ensures var l, a := LastPairs(logs, n), AllPairs(logs, n);
      && Subsequence(l, a) && |l| <= |a| && TotalOf(l) <= TotalOf(a)
      && (l == a <==> forall i :: 0 <= i < n ==> !DoubleAt(logs, i))
  {
    if n > 0 {
      ReadingsCompare(logs, n - 1);
      PairStep(logs, n);
      var l, a := LastPairs(logs, n - 1), AllPairs(logs, n - 1);
      if AllPairs(logs, n) != a {
        var p :| AllPairs(logs, n) == a + [p] && LastPairs(logs, n) == if DoubleAt(logs, n - 1) then l else l + [p];
        SubsequenceSnoc(l, a, p);
        TotalSnoc(l, p);
        TotalSnoc(a, p);
        assert (l + [p])[..|l|] == l && (a + [p])[..|a|] == a;
      }
    }
  }

  /** A ClockOut at `k` with two ClockIns since the previous ClockOut. */
  ghost predicate TwoInsBefore(logs: seq<LogEntry>, k: nat) {
    && k < |logs| && logs[k].action == ClockOut
    && exists i :: 0 <= i && i + 1 < k && OnlyIns(logs, i, k)
  }

  ghost predicate OnlyIns(logs: seq<LogEntry>, i: nat, k: nat)
    requires k <= |logs|
  {
    forall j :: i <= j < k ==> logs[j].action == ClockIn
  }

  lemma DoubleMeansTwoIns(logs: seq<LogEntry>)
    ensures (exists i :: 0 <= i < |logs| && DoubleAt(logs, i))
       <==> (exists k :: 0 <= k < |logs| && TwoInsBefore(logs, k))
  {
    if i :| 0 <= i < |logs| && DoubleAt(logs, i) {
      var k := NextOut(logs, i + 1);
      assert OnlyIns(logs, i, k);
      assert i + 1 < k;
      assert TwoInsBefore(logs, k);
    }
    if k :| 0 <= k < |logs| && TwoInsBefore(logs, k) {
      var i :| 0 <= i && i + 1 < k && OnlyIns(logs, i, k);
      assert NextOut(logs, i + 1) <= k;
      assert DoubleAt(logs, i);
    }
  }

  /** `p` runs from the ClockIn at `i` to the ClockOut at `j`, the first one after it. */
  ghost predicate Spans(logs: seq<LogEntry>, i: nat, j: nat, p: SessionPair) {
    && i < j < |logs| && logs[i].action == ClockIn && logs[j].action == ClockOut
    && (forall k :: i < k < j ==> logs[k].action == ClockIn)
    && p.clockIn == logs[i].timestamp && p.clockOut == logs[j].timestamp && p.duration == p.clockOut - p.clockIn
  }

  ghost predicate SpanFrom(logs: seq<LogEntry>, i: nat, p: SessionPair) {
    exists j: nat :: Spans(logs, i, j, p)
  }

  ghost predicate DirectSpan(logs: seq<LogEntry>, i: nat, p: SessionPair) {
    Spans(logs, i, i + 1, p)
  }

  lemma SpansEndAtNextOut(logs: seq<LogEntry>, i: nat, p: SessionPair)
    requires Sorted(logs) && i < |logs|
    ensures SpanFrom(logs, i, p) <==>
              && logs[i].action == ClockIn && NextOut(logs, i + 1) < |logs|
              && p == PairOf(logs[i], logs[NextOut(logs, i + 1)])
  {
    var k := NextOut(logs, i + 1);
    if j: nat :| Spans(logs, i, j, p) {
      assert k == j;
    }
    if logs[i].action == ClockIn && k < |logs| && p == PairOf(logs[i], logs[k]) {
      assert Spans(logs, i, k, p);
    }
  }

  /** The summary's pairs are the spans from any ClockIn to the first ClockOut after it. */
  lemma {:induction false} AllPairsAreSpans(logs: seq<LogEntry>, n: nat, p: SessionPair)
    requires Sorted(logs) && n <= |logs|
    ensures p in AllPairs(logs, n) <==> exists i: nat :: i < n && SpanFrom(logs, i, p)
  {
    if n > 0 {
      AllPairsAreSpans(logs, n - 1, p);
      SpansEndAtNextOut(logs, n - 1, p);
      assert p in AllPairs(logs, n) <==> p in AllPairs(logs, n - 1) || SpanFrom(logs, n - 1, p);
    }
  }

  /** The statistics' sessions are the spans from a ClockIn to a ClockOut that directly follows it. */
  lemma {:induction false} LastPairsAreSpans(logs: seq<LogEntry>, n: nat, p: SessionPair)
    requires Sorted(logs) && n <= |logs|
    ensures p in LastPairs(logs, n) <==> exists i: nat :: i < n && DirectSpan(logs, i, p)
  {
    if n > 0 {
      LastPairsAreSpans(logs, n - 1, p);
      assert p in LastPairs(logs, n) <==> p in LastPairs(logs, n - 1) || DirectSpan(logs, n - 1, p);
    }
  }

  /** The statistics' sessions are the summary's pairs without those of a ClockIn that another ClockIn follows; they
      last at most as long; and the two lists are equal exactly when no ClockOut has two ClockIns since the previous
      ClockOut. */
  lemma TwoReadingsOfOneLog(logs: seq<LogEntry>)
    requires Sorted(logs)
    ensures var parsed, paired := LastPairs(logs, |logs|), AllPairs(logs, |logs|);
      && Subsequence(parsed, paired)
      && TotalOf(parsed) <= TotalOf(paired)
      && (parsed == paired <==> !exists k :: 0 <= k < |logs| && TwoInsBefore(logs, k))
  {
    ReadingsCompare(logs, |logs|);
    DoubleMeansTwoIns(logs);
  }

  /** Clocking in twice and out once: the summary counts two sessions and the statistics one. */
  lemma ReadingsCanDiffer()
    ensures var logs := [LogEntry(0, 1, ClockIn, 10), LogEntry(1, 1, ClockIn, 20), LogEntry(2, 1, ClockOut, 30)];
      && Sorted(logs)
      && AllPairs(logs, 3) == [SessionPair(10, 30, 20), SessionPair(20, 30, 10)]
      && LastPairs(logs, 3) == [SessionPair(20, 30, 10)]
  {
    var logs := [LogEntry(0, 1, ClockIn, 10), LogEntry(1, 1, ClockIn, 20), LogEntry(2, 1, ClockOut, 30)];
    assert NextOut(logs, 3) == 3 && NextOut(logs, 2) == 2 && NextOut(logs, 1) == 2;
    assert AllPairs(logs, 0) == [] && LastPairs(logs, 0) == [];
    assert AllPairs(logs, 1) == [SessionPair(10, 30, 20)] && LastPairs(logs, 1) == [];
    assert AllPairs(logs, 2) == [SessionPair(10, 30, 20), SessionPair(20, 30, 10)];
    assert LastPairs(logs, 2) == [SessionPair(20, 30, 10)];
  }

  // ---------------------------------------------------------------- user statistics

  ghost function DaysOf(sessions: seq<SessionPair>): set<nat> {
    set i | 0 <= i < |sessions| :: sessions[i].clockIn / 86400
  }

  /** The inner loop of `get_user_statistics`: `day` is appended if it is not listed yet. */
  method AddDay(days: seq<nat>, day: nat) returns (more: seq<nat>)
    requires Distinct(days)
    ensures Distinct(more) && forall d :: d in more <==> d in days || d == day
  {
    var dayExists := false;
    for j := 0 to |days|
      invariant dayExists <==> day in days[..j]
    {
      if days[j] == day { dayExists := true; break; }
    }
    more := days;
    if !dayExists {
      DistinctSnoc(days, day);
      more := days + [day];
    }
  }

  /** The loops of `get_user_statistics` over the parsed sessions: sums, extremes and distinct days. */
  method Accumulate(sessions: seq<SessionPair>)
    returns (totalDuration: u64, firstClockIn: u64, lastClockOut: u64, days: seq<nat>)
    requires Disjoint(sessions) && TotalOf(sessions) <= U64_MAX
    ensures totalDuration == TotalOf(sessions)
    ensures sessions == [] ==> firstClockIn == U64_MAX && lastClockOut == 0
    ensures sessions != [] ==> firstClockIn == sessions[0].clockIn && lastClockOut == sessions[|sessions| - 1].clockOut
    ensures Distinct(days) && forall d :: d in days <==> d in DaysOf(sessions)
  {
    totalDuration, firstClockIn, lastClockOut, days := 0, U64_MAX, 0, [];
    for i := 0 to |sessions|
      invariant totalDuration == TotalOf(sessions[..i])
      invariant i == 0 ==> firstClockIn == U64_MAX && lastClockOut == 0
      invariant i > 0 ==> firstClockIn == sessions[0].clockIn && lastClockOut == sessions[i - 1].clockOut
      invariant Distinct(days) && forall d :: d in days <==> d in DaysOf(sessions[..i])
    {
      var s := sessions[i];
      assert sessions[..i + 1] == sessions[..i] + [s];
      TotalSnoc(sessions[..i], s);
      TotalPrefix(sessions, i + 1);
      totalDuration := totalDuration + s.duration;
      if s.clockIn < firstClockIn { firstClockIn := s.clockIn; }
      if s.clockOut > lastClockOut { lastClockOut := s.clockOut; }
      var day := s.clockIn / 86400;
      DaysSnoc(sessions[..i], s);
      days := AddDay(days, day);
    }
    assert sessions[..|sessions|] == sessions;
  }

  lemma {:induction false} TotalPrefix(sessions: seq<SessionPair>, n: nat)
    requires n <= |sessions|
    ensures TotalOf(sessions[..n]) <= TotalOf(sessions)
    decreases |sessions| - n
  {
    if n < |sessions| {
      TotalPrefix(sessions, n + 1);
      assert sessions[..n + 1][..n] == sessions[..n];
    } else {
      assert sessions[..n] == sessions;
    }
  }

  lemma DaysSnoc(sessions: seq<SessionPair>, s: SessionPair)
    ensures DaysOf(sessions + [s]) == DaysOf(sessions) + {s.clockIn / 86400}
  {
    var all := sessions + [s];
    assert all[|sessions|] == s;
    forall d | d in DaysOf(sessions) ensures d in DaysOf(all) {
      var i :| 0 <= i < |sessions| && sessions[i].clockIn / 86400 == d;
      assert all[i] == sessions[i];
    }
  }

  /** `s` summarises `sessions`: their number, total and mean length, extremes and distinct days, and the total
      presence does not exceed the time between the first clock-in and the last clock-out. */
  ghost predicate Describes(s: UserStatistics, sessions: seq<SessionPair>) {
    && s.totalSessions == |sessions| && s.totalDuration == TotalOf(sessions)
    && s.averageDuration == (if sessions == [] then 0 else s.totalDuration / |sessions|)
    && (sessions == [] ==> s.firstClockIn == U64_MAX && s.lastClockOut == 0)
    && (sessions != [] ==>
          && s.firstClockIn == sessions[0].clockIn
          && s.lastClockOut == sessions[|sessions| - 1].clockOut
          && s.totalDuration <= s.lastClockOut - s.firstClockIn)
    && s.totalDays == |DaysOf(sessions)|
  }

  method StatisticsOf(used: seq<LogEntry>) returns (s: UserStatistics)
    requires Sorted(used)
    ensures Describes(s, LastPairs(used, |used|))
  {
    var sessions := ParseSessions(used);
    ParsedSessionsAreDisjoint(used);
    var totalDuration, firstClockIn, lastClockOut, days := Accumulate(sessions);
    DistinctSize(days, DaysOf(sessions));
    s := UserStatistics(|sessions|, totalDuration, Average(totalDuration, |sessions|), firstClockIn, lastClockOut,
                        |days|);
  }

  /** `get_user_statistics`: over the whole log or a range, the total presence never exceeds the time between the first
      clock-in and the last clock-out, and no addition overflows. */
  method GetUserStatistics(logs: seq<LogEntry>, range: Option<DateRange>) returns (r: Outcome<UserStatistics>)
    requires Sorted(logs)
    ensures !r.Trap?
    ensures r == Err(InvalidDateRange) <==> logs != [] && range.Some? && range.value.start > range.value.end
    ensures r.Ok? <==> if range.None? then logs != []
                       else range.value.start <= range.value.end && Filtered(logs, range.value) != []
    ensures r.Ok? ==>
      var used := if range.Some? then Filtered(logs, range.value) else logs;
      Sorted(used) && Describes(r.value, LastPairs(used, |used|))
  {
    if |logs| == 0 { return Err(NoAttendanceRecords); }
    var used := logs;
    if range.Some? {
      if range.value.start > range.value.end { return Err(InvalidDateRange); }
      FilteredIsSorted(logs, range.value);
      used := FilterLogsByDateRange(logs, range.value);
    }
    if |used| == 0 { return Err(NoAttendanceRecords); }
    var stats := StatisticsOf(used);
    return Ok(stats);
  }

  lemma {:induction false} DistinctSize(s: seq<nat>, elements: set<nat>)
    requires Distinct(s) && forall x :: x in s <==> x in elements
    ensures |s| == |elements|
  {
    if s == [] {
      assert elements == {};
    } else {
      var init, x := s[..|s| - 1], s[|s| - 1];
      assert s == init + [x];
      forall i | 0 <= i < |init| ensures init[i] != x {
        assert s[i] != s[|s| - 1];
      }
      forall y ensures y in init <==> y in elements - {x} {
        assert y in s <==> y in init || y == x;
      }
      DistinctSize(init, elements - {x});
    }
  }
}
