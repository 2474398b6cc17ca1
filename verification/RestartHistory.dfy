/**
 Restart and flap detection (fleet/sgcia-fleet-server/store.go): the two columns
 kept per agent, the update made for every reported process start time, and what
 the capped list still says about the whole history.
 */
module RestartHistory {
  import opened Options
  import opened Sequences
  import opened Text

  const MAX_RESTART_HISTORY := 10
  const FLAP_THRESHOLD := 3

  /** Ten minutes, in the nanoseconds times are measured in here. */
  const FLAP_WINDOW := 600_000_000_000

  /** Columns last_started_at and restart_history. */
  datatype Record = Record(lastStartedAt: string, historyCsv: string)

  const EMPTY := Record("", "")

  /** A start time that differs from the recorded one: a baseline if there was none,
      a restart otherwise. */
  function Observe(rec: Record, startedAt: string): Record {
    if rec.lastStartedAt == "" then Record(startedAt, rec.historyCsv)
    else Record(startedAt, Join(LastN(ParseList(rec.historyCsv) + [startedAt], MAX_RESTART_HISTORY), ","))
  }

  function Report(rec: Record, startedAt: string): Record {
    if rec.lastStartedAt == startedAt then rec else Observe(rec, startedAt)
  }

  function AfterReports(reports: seq<string>): Record {
    if reports == [] then EMPTY
    else Report(AfterReports(reports[..|reports| - 1]), reports[|reports| - 1])
  }

  /** The restarts an unbounded history would hold: every report but the first that
      differs from its predecessor. */
  function Changes(reports: seq<string>): seq<string> {
    if |reports| < 2 then []
    else
      var n := |reports| - 1;
      if reports[n] == reports[n - 1] then Changes(reports[..n]) else Changes(reports[..n]) + [reports[n]]
  }

  predicate IsChange(reports: seq<string>, i: nat) {
    0 < i < |reports| && reports[i] != reports[i - 1]
  }

  lemma NoChange(reports: seq<string>)
    requires reports == []
    ensures forall i: nat :: !IsChange(reports, i)
  {
  }

  lemma ChangesOfMore(reports: seq<string>, i: nat)
    requires reports != []
    ensures var n := |reports| - 1;
            IsChange(reports, i) <==> IsChange(reports[..n], i) || (i == n && n > 0 && reports[n] != reports[n - 1])
  {
  }

  /** They stand in the reports at the increasing positions `at`: those where a report differs
      from the one before it. */
  lemma {:induction false} ChangesAreAt(reports: seq<string>) returns (at: seq<nat>)
    ensures |at| == |Changes(reports)|
    ensures forall k :: 0 <= k < |at| ==> at[k] < |reports| && reports[at[k]] == Changes(reports)[k]
    ensures forall j, k :: 0 <= j < k < |at| ==> at[j] < at[k]
    ensures forall i: nat :: i in at <==> IsChange(reports, i)
  {
    hide IsChange;
    at := [];
    if reports == [] {
      NoChange(reports);
    } else {
      var n := |reports| - 1;
      var before := ChangesAreAt(reports[..n]);
      at := if n > 0 && reports[n] != reports[n - 1] then before + [n] else before;
      forall i: nat ensures i in at <==> IsChange(reports, i) { ChangesOfMore(reports, i); }
    }
  }

  ghost predicate Storable(s: string) {
    s != "" && Plain(s, ',')
  }

  lemma {:induction false} ChangesAreReports(reports: seq<string>)
    ensures forall s :: s in Changes(reports) ==> s in reports
  {
    if |reports| >= 2 { ChangesAreReports(reports[..|reports| - 1]); }
  }

  lemma CappingTwice(all: seq<string>, s: string, n: nat)
    ensures LastN(LastN(all, n) + [s], n) == LastN(all + [s], n)
  {
  }

  /** One more restart is one more entry of the parsed list. */
  lemma ObserveAppends(rec: Record, all: seq<string>, s: string)
    requires rec.lastStartedAt != "" && ParseList(rec.historyCsv) == LastN(all, MAX_RESTART_HISTORY)
    requires forall x :: x in all + [s] ==> Storable(x)
    ensures ParseList(Observe(rec, s).historyCsv) == LastN(all + [s], MAX_RESTART_HISTORY)
  {
    hide ParseList, Join;
    CappingTwice(all, s, MAX_RESTART_HISTORY);
    ParseJoined(LastN(all + [s], MAX_RESTART_HISTORY));
  }

  /** The capped CSV loses nothing but the oldest entries: it always parses to the
      last ten changes. */
  lemma {:induction false} HistoryIsLastChanges(reports: seq<string>)
    requires forall s :: s in reports ==> Storable(s)
    ensures ParseList(AfterReports(reports).historyCsv) == LastN(Changes(reports), MAX_RESTART_HISTORY)
    ensures reports != [] ==> AfterReports(reports).lastStartedAt == reports[|reports| - 1]
  {
    hide ParseList, Join;
    if reports == [] {
      ParseJoined([]);
      EmptyHistory();
    } else {
      var n := |reports| - 1;
      var before := reports[..n];
      HistoryIsLastChanges(before);
      ChangesAreReports(before);
      assert reports[n] in reports;
      if n > 0 {
        assert before[n - 1] == reports[n - 1] && reports[n - 1] in reports;
        if reports[n] != reports[n - 1] { ObserveAppends(AfterReports(before), Changes(before), reports[n]); }
      }
    }
  }

  lemma EmptyHistory()
    ensures ParseList("") == []
  {
    ParseJoined([]);
  }

  // --- Flapping

  /** How many entries parse to a time after the cutoff (scanAgents). */
  function RecentCount(history: seq<string>, time: string -> Option<int>, cutoff: int): nat {
    if history == [] then 0
    else
      var n := |history| - 1;
      RecentCount(history[..n], time, cutoff) + if IsRecent(history[n], time, cutoff) then 1 else 0
  }

  predicate IsRecent(s: string, time: string -> Option<int>, cutoff: int) {
    time(s).Some? && time(s).value > cutoff
  }

  lemma {:induction false} RecentCountCounts(history: seq<string>, time: string -> Option<int>, cutoff: int)
    ensures RecentCount(history, time, cutoff) == |set i | 0 <= i < |history| && IsRecent(history[i], time, cutoff)|
  {
    if history != [] {
      var n := |history| - 1;
      var before := set i | 0 <= i < n && IsRecent(history[..n][i], time, cutoff);
      RecentCountCounts(history[..n], time, cutoff);
      var all := set i | 0 <= i < |history| && IsRecent(history[i], time, cutoff);
      assert all == before + if IsRecent(history[n], time, cutoff) then {n} else {};
    }
  }

  predicate Flapping(history: seq<string>, time: string -> Option<int>, cutoff: int) {
    RecentCount(history, time, cutoff) >= FLAP_THRESHOLD
  }

  ghost predicate Chronological(s: seq<string>, time: string -> Option<int>) {
    && (forall i :: 0 <= i < |s| ==> time(s[i]).Some?)
    && (forall i, j :: 0 <= i <= j < |s| ==> time(s[i]).value <= time(s[j]).value)
  }

  lemma {:induction false} RecentCountAppend(a: seq<string>, b: seq<string>, time: string -> Option<int>, cutoff: int)
    ensures RecentCount(a + b, time, cutoff) == RecentCount(a, time, cutoff) + RecentCount(b, time, cutoff)
  {
    if b == [] {
      assert a + b == a;
    } else {
      var n := |b| - 1;
      RecentCountAppend(a, b[..n], time, cutoff);
      assert (a + b)[..|a + b| - 1] == a + b[..n];
    }
  }

  lemma {:induction false} RecentCountBounds(s: seq<string>, time: string -> Option<int>, cutoff: int)
    ensures RecentCount(s, time, cutoff) <= |s|
    ensures RecentCount(s, time, cutoff) == |s| <==> forall i :: 0 <= i < |s| ==> IsRecent(s[i], time, cutoff)
    ensures RecentCount(s, time, cutoff) == 0 <==> forall i :: 0 <= i < |s| ==> !IsRecent(s[i], time, cutoff)
  {
    if s != [] {
      var n := |s| - 1;
      RecentCountBounds(s[..n], time, cutoff);
      assert s == s[..n] + [s[n]];
      forall i | 0 <= i < n ensures s[..n][i] == s[i] {}
    }
  }

  lemma ChangesChronological(reports: seq<string>, time: string -> Option<int>)
    requires Chronological(reports, time)
    ensures Chronological(Changes(reports), time)
  {
    hide Changes;
    var at := ChangesAreAt(reports);
    var changes := Changes(reports);
    forall i, j | 0 <= i <= j < |changes|
      ensures time(changes[i]).Some? && time(changes[j]).Some? && time(changes[i]).value <= time(changes[j]).value
    {
      assert at[i] <= at[j] && changes[i] == reports[at[i]] && changes[j] == reports[at[j]];
    }
  }

  lemma LaterIsRecentToo(s: seq<string>, k: nat, time: string -> Option<int>, cutoff: int)
    requires Chronological(s, time) && k <= |s|
    requires RecentCount(s[..k], time, cutoff) > 0
    ensures RecentCount(s[k..], time, cutoff) == |s| - k
  {
    RecentCountBounds(s[..k], time, cutoff);
    RecentCountBounds(s[k..], time, cutoff);
    var i :| 0 <= i < k && IsRecent(s[..k][i], time, cutoff);
    forall j | 0 <= j < |s| - k ensures IsRecent(s[k..][j], time, cutoff) {
      assert time(s[i]).value <= time(s[k + j]).value;
    }
  }

  /** Capping a chronological history at n entries caps its recent count at n. */
  lemma RecentCountOfCapped(s: seq<string>, n: nat, time: string -> Option<int>, cutoff: int)
    requires Chronological(s, time)
    ensures RecentCount(LastN(s, n), time, cutoff)
         == if RecentCount(s, time, cutoff) < n then RecentCount(s, time, cutoff) else n
  {
    if |s| <= n {
      RecentCountBounds(s, time, cutoff);
    } else {
      var k := |s| - n;
      assert s == s[..k] + s[k..];
      RecentCountAppend(s[..k], s[k..], time, cutoff);
      RecentCountBounds(s[k..], time, cutoff);
      if RecentCount(s[..k], time, cutoff) > 0 { LaterIsRecentToo(s, k, time, cutoff); }
    }
  }

  /** For agents whose clock does not run backwards, the ten stored entries give the
      flapping verdict of the unbounded history, and its recent count capped at ten. */
  lemma CappedVerdictIsExact(reports: seq<string>, time: string -> Option<int>, cutoff: int)
    requires forall s :: s in reports ==> Storable(s)
    requires Chronological(reports, time)
    ensures var stored := ParseList(AfterReports(reports).historyCsv);
            var full := RecentCount(Changes(reports), time, cutoff);
            && RecentCount(stored, time, cutoff) == (if full < MAX_RESTART_HISTORY then full else MAX_RESTART_HISTORY)
            && (Flapping(stored, time, cutoff) <==> Flapping(Changes(reports), time, cutoff))
  {
    HistoryIsLastChanges(reports);
    ChangesChronological(reports, time);
    RecentCountOfCapped(Changes(reports), MAX_RESTART_HISTORY, time, cutoff);
  }
}
