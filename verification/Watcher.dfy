/**
 The watch loop: `Watcher.Run` of internal/imsg/watcher.go restarts a failing `imsg watch` after the last row seen, and
 the callback in cmd/chatbubbles/main.go keeps a high-water mark in memory and on disk.

 The foreign process is a source of rows: each attempt says which rows it emits before it ends, and how it ends.
*/
module Watcher {
  import opened Basics
  import opened Store

  /** An emitted row, and how the store behaves if its mark is saved. */
  datatype Row = Row(id: int, readable: bool, done: nat)

  /** A watch ends with an error, after which the loop waits (or is cancelled while waiting), or it ends the loop. */
  datatype Ending = Fails(cancelled: bool) | Finishes

  datatype Watch = Watch(rows: seq<Row>, ending: Ending)

  /** The loop and its callback: marks, rows handed over so far, and the delays waited so far. */
  datatype Progress = Progress(
    since: int, mark: int, persisted: int, handed: seq<int>, backoff: int, delays: seq<int>, ended: bool)

  predicate Saves(row: Row) {
    row.readable && row.done == |SAVE_STEPS|
  }

  function Begin(start: int, startBackoff: int): Progress {
    Progress(start, start, start, [], startBackoff, [], false)
  }

  /** One row: the loop's mark, the callback's mark, the saved mark, then the hand-over. */
  function Deliver(p: Progress, row: Row): Progress {
    var seen := p.(since := if row.id > p.since then row.id else p.since, handed := p.handed + [row.id]);
    if row.id > p.mark then seen.(mark := row.id, persisted := if Saves(row) then row.id else p.persisted) else seen
  }

  function DeliverAll(p: Progress, rows: seq<Row>): Progress {
    if rows == [] then p else Deliver(DeliverAll(p, rows[..|rows| - 1]), rows[|rows| - 1])
  }

  function Doubled(backoff: int, maxBackoff: int): int {
    if backoff * 2 > maxBackoff then maxBackoff else backoff * 2
  }

  function AfterAttempt(p: Progress, a: Watch, maxBackoff: int): Progress {
    if p.ended then p
    else
      var q := DeliverAll(p, a.rows);
      match a.ending
      case Finishes => q.(ended := true)
      case Fails(cancelled) =>
        if cancelled then q.(ended := true)
        else q.(delays := q.delays + [q.backoff], backoff := Doubled(q.backoff, maxBackoff))
  }

  function Watching(start: int, startBackoff: int, maxBackoff: int, attempts: seq<Watch>): Progress {
    if attempts == [] then Begin(start, startBackoff)
    else
      var n := |attempts| - 1;
      AfterAttempt(Watching(start, startBackoff, maxBackoff, attempts[..n]), attempts[n], maxBackoff)
  }

  // ---------------------------------------------------------------- marks

  function Highest(start: int, rows: seq<int>): (m: int)
    ensures m >= start && (m == start || m in rows)
    ensures forall r :: r in rows ==> r <= m
  {
    if rows == [] then start
    else
      var before, last := Highest(start, rows[..|rows| - 1]), rows[|rows| - 1];
      assert rows == rows[..|rows| - 1] + [last];
      if last > before then last else before
  }

  /** Whatever the rows are: both marks are the highest row seen, and the saved mark is never above them. */
  ghost predicate MarksMatch(start: int, p: Progress) {
    p.since == p.mark == Highest(start, p.handed) && start <= p.persisted <= p.mark
  }

  lemma OneDelivery(start: int, p: Progress, row: Row)
    requires MarksMatch(start, p)
    ensures var q := Deliver(p, row);
      && MarksMatch(start, q) && p.persisted <= q.persisted
      && (Saves(row) && p.persisted == p.mark ==> q.persisted == q.mark)
  {
    assert (p.handed + [row.id])[..|p.handed|] == p.handed;
  }

  lemma {:induction false} DeliveryMarks(start: int, p: Progress, rows: seq<Row>)
    requires MarksMatch(start, p)
    ensures var q := DeliverAll(p, rows);
      && MarksMatch(start, q) && p.persisted <= q.persisted
      && ((forall i :: 0 <= i < |rows| ==> Saves(rows[i])) && p.persisted == p.mark ==> q.persisted == q.mark)
  {
    hide MarksMatch, Deliver, Saves;
    if rows != [] {
      var front, last := rows[..|rows| - 1], rows[|rows| - 1];
      DeliveryMarks(start, p, front);
      OneDelivery(start, DeliverAll(p, front), last);
    }
  }

  lemma AttemptMarks(start: int, p: Progress, a: Watch, maxBackoff: int)
    requires MarksMatch(start, p)
    ensures var q := AfterAttempt(p, a, maxBackoff); MarksMatch(start, q) && p.persisted <= q.persisted
  {
    hide DeliverAll;
    DeliveryMarks(start, p, a.rows);
  }

  /** In every run, the mark in memory is the highest row seen and the saved mark is between the start and it. */
  lemma {:induction false} MarksAreHighWater(start: int, startBackoff: int, maxBackoff: int, attempts: seq<Watch>)
    ensures MarksMatch(start, Watching(start, startBackoff, maxBackoff, attempts))
  {
    hide AfterAttempt;
    if attempts != [] {
      var n := |attempts| - 1;
      MarksAreHighWater(start, startBackoff, maxBackoff, attempts[..n]);
      AttemptMarks(start, Watching(start, startBackoff, maxBackoff, attempts[..n]), attempts[n], maxBackoff);
    }
  }

  /** The saved mark never goes back, whichever saves fail. */
  lemma {:induction false} SavedMarkIsMonotone(start: int, startBackoff: int, maxBackoff: int,
                                              attempts: seq<Watch>, more: seq<Watch>)
    ensures Watching(start, startBackoff, maxBackoff, attempts).persisted
         <= Watching(start, startBackoff, maxBackoff, attempts + more).persisted
  {
    hide AfterAttempt, MarksMatch;
    if more == [] {
      assert attempts + more == attempts;
    } else {
      var n := |more| - 1;
      SavedMarkIsMonotone(start, startBackoff, maxBackoff, attempts, more[..n]);
      assert (attempts + more)[..|attempts + more| - 1] == attempts + more[..n];
      MarksAreHighWater(start, startBackoff, maxBackoff, attempts + more[..n]);
      AttemptMarks(start, Watching(start, startBackoff, maxBackoff, attempts + more[..n]), more[n], maxBackoff);
    }
  }

  /** When every save works, the saved mark is the mark in memory. */
  lemma {:induction false} SavedMarkKeepsUp(start: int, startBackoff: int, maxBackoff: int, attempts: seq<Watch>)
    requires forall a :: a in attempts ==> forall i :: 0 <= i < |a.rows| ==> Saves(a.rows[i])
    ensures var p := Watching(start, startBackoff, maxBackoff, attempts); p.persisted == p.mark
  {
    hide DeliverAll, MarksMatch;
    if attempts != [] {
      var n := |attempts| - 1;
      assert attempts[n] in attempts;
      SavedMarkKeepsUp(start, startBackoff, maxBackoff, attempts[..n]);
      MarksAreHighWater(start, startBackoff, maxBackoff, attempts[..n]);
      DeliveryMarks(start, Watching(start, startBackoff, maxBackoff, attempts[..n]), attempts[n].rows);
    }
  }

  // ---------------------------------------------------------------- no gaps, no repeats

  ghost predicate Increasing(table: seq<int>) {
    forall i, j :: 0 <= i < j < |table| ==> table[i] < table[j]
  }

  /** The rows of the table above `since`, in order. */
  function Above(table: seq<int>, since: int): seq<int> {
    if table == [] then []
    else if table[0] > since then table else Above(table[1..], since)
  }

  function IDs(rows: seq<Row>): (ids: seq<int>)
    ensures |ids| == |rows|
  {
    seq(|rows|, i requires 0 <= i < |rows| => rows[i].id)
  }

  /** The source honours a positive starting row; without one it starts wherever the table happens to end. */
  ghost predicate Emits(table: seq<int>, since: int, rows: seq<Row>) {
    since > 0 ==> IDs(rows) <= Above(table, since)
  }

  /** In every attempt made before the loop ended, the source emitted a prefix of the rows above the mark. */
  ghost predicate HonestSource(table: seq<int>, start: int, startBackoff: int, maxBackoff: int, attempts: seq<Watch>) {
    forall i :: 0 <= i < |attempts| ==>
      Emits(table, Watching(start, startBackoff, maxBackoff, attempts[..i]).since, attempts[i].rows)
  }

  lemma {:induction false} AboveMembers(table: seq<int>, since: int)
    requires Increasing(table)
    ensures Increasing(Above(table, since))
    ensures forall r :: r in Above(table, since) <==> r in table && r > since
  {
    if table != [] {
      if table[0] > since {
        forall r | r in table ensures r > since {
          var i :| 0 <= i < |table| && table[i] == r;
          assert i > 0 ==> table[0] < table[i];
        }
      } else {
        AboveMembers(table[1..], since);
        assert table == [table[0]] + table[1..];
      }
    }
  }

  /** Having seen a prefix of the rows above `start`, the rows above the mark are exactly the rest. */
  lemma {:induction false} AboveTheMark(table: seq<int>, start: int, handed: seq<int>)
    requires Increasing(table) && handed <= Above(table, start)
    ensures Above(table, start) == handed + Above(table, Highest(start, handed))
  {
    hide Above, Increasing;
    if handed != [] {
      var n := |handed| - 1;
      var front := handed[..n];
      var mark := Highest(start, front);
      var rows, rest := Above(table, start), Above(table, mark);
      AboveTheMark(table, start, front);
      assert handed[n] == rows[n] == rest[0];
      AboveMembers(table, mark);
      assert rest[0] in rest;
      SkipOne(table, mark);
      assert handed == front + [rest[0]] && rest == [rest[0]] + rest[1..];
    }
  }

  lemma {:induction false} SkipOne(table: seq<int>, since: int)
    requires Increasing(table) && Above(table, since) != []
    ensures var rows := Above(table, since); Above(table, rows[0]) == rows[1..]
  {
    if table[0] > since {
      if |table| > 1 { assert table[0] < table[1]; }
    } else {
      SkipOne(table[1..], since);
      var next := Above(table[1..], since)[0];
      AboveMembers(table[1..], since);
      assert next in Above(table[1..], since);
      assert next > table[0];
    }
  }

  lemma {:induction false} DeliverHands(p: Progress, rows: seq<Row>)
    ensures DeliverAll(p, rows).handed == p.handed + IDs(rows)
  {
    if rows == [] {
      assert p.handed + IDs(rows) == p.handed;
    } else {
      var n := |rows| - 1;
      DeliverHands(p, rows[..n]);
      assert IDs(rows) == IDs(rows[..n]) + [rows[n].id];
    }
  }

  lemma {:induction false} DeliverKeepsTiming(p: Progress, rows: seq<Row>)
    ensures var q := DeliverAll(p, rows); q.backoff == p.backoff && q.delays == p.delays && q.ended == p.ended
  {
    if rows != [] { DeliverKeepsTiming(p, rows[..|rows| - 1]); }
  }

  /** The attempt is not a failure to be retried: the watch finished, or the wait after it was cancelled. */
  predicate EndsLoop(a: Watch) {
    a.ending == Finishes || a.ending == Fails(true)
  }

  lemma OneAttempt(p: Progress, a: Watch, maxBackoff: int)
    ensures var q := AfterAttempt(p, a, maxBackoff);
      if p.ended then q == p
      else
        && (q.ended <==> EndsLoop(a)) && q.handed == p.handed + IDs(a.rows)
        && |q.delays| == if EndsLoop(a) then |p.delays| else |p.delays| + 1
  {
    hide DeliverAll;
    DeliverHands(p, a.rows);
    DeliverKeepsTiming(p, a.rows);
  }

  lemma HonestBefore(table: seq<int>, start: int, startBackoff: int, maxBackoff: int, attempts: seq<Watch>)
    requires HonestSource(table, start, startBackoff, maxBackoff, attempts) && attempts != []
    ensures var n := |attempts| - 1;
      && HonestSource(table, start, startBackoff, maxBackoff, attempts[..n])
      && Emits(table, Watching(start, startBackoff, maxBackoff, attempts[..n]).since, attempts[n].rows)
  {
    hide Emits, Watching;
    var front := attempts[..|attempts| - 1];
    assert forall i :: 0 <= i < |front| ==> front[..i] == attempts[..i];
  }

  /**
   Across any pattern of failures, the rows handed to the callback are a prefix of the rows above the positive starting
   row: nothing is skipped and nothing comes twice.
  */
  lemma {:induction false} RowsAreGapFree(table: seq<int>, start: int, startBackoff: int, maxBackoff: int,
                                          attempts: seq<Watch>)
    requires Increasing(table) && start > 0
    requires HonestSource(table, start, startBackoff, maxBackoff, attempts)
    ensures Watching(start, startBackoff, maxBackoff, attempts).handed <= Above(table, start)
  {
    hide Above, Highest, Increasing, AfterAttempt, HonestSource, IDs;
    if attempts != [] {
      var n := |attempts| - 1;
      HonestBefore(table, start, startBackoff, maxBackoff, attempts);
      RowsAreGapFree(table, start, startBackoff, maxBackoff, attempts[..n]);
      MarksAreHighWater(start, startBackoff, maxBackoff, attempts[..n]);
      var p := Watching(start, startBackoff, maxBackoff, attempts[..n]);
      AboveTheMark(table, start, p.handed);
      OneAttempt(p, attempts[n], maxBackoff);
    }
  }

  /** For these attempts, an honest source makes the rows handed over a prefix of the rows above the starting row. */
  ghost predicate GapFree(table: seq<int>, start: int, startBackoff: int, maxBackoff: int, attempts: seq<Watch>) {
    Increasing(table) && HonestSource(table, start, startBackoff, maxBackoff, attempts)
    ==> Watching(start, startBackoff, maxBackoff, attempts).handed <= Above(table, start)
  }

  /** A starting row that is not positive is not passed on, and the source may then skip rows. */
  lemma WithoutStartRowsAreSkipped(start: int, startBackoff: int, maxBackoff: int)
    requires start <= 0
    ensures !GapFree([1, 2], start, startBackoff, maxBackoff, [Watch([Row(2, true, 5)], Fails(false))])
  {
    var table := [1, 2];
    var attempt := Watch([Row(2, true, 5)], Fails(false));
    var attempts := [attempt];
    assert attempts[..0] == [];
    assert attempt.rows[..0] == [];
    DeliverHands(Begin(start, startBackoff), attempt.rows);
    assert IDs(attempt.rows) == [2];
    assert Watching(start, startBackoff, maxBackoff, attempts).handed == [] + [2];
    assert HonestSource(table, start, startBackoff, maxBackoff, attempts);
    assert Above(table, start) == table && table[0] != 2;
  }

  /** Whether the rows come without gaps, whatever the table and the failures, turns on the starting row alone. */
  lemma GapFreeExactlyFromPositiveStart(start: int, startBackoff: int, maxBackoff: int)
    ensures (forall table, attempts :: GapFree(table, start, startBackoff, maxBackoff, attempts)) <==> start > 0
  {
    if start > 0 {
      forall table, attempts ensures GapFree(table, start, startBackoff, maxBackoff, attempts) {
        if Increasing(table) && HonestSource(table, start, startBackoff, maxBackoff, attempts) {
          RowsAreGapFree(table, start, startBackoff, maxBackoff, attempts);
        }
      }
    } else {
      WithoutStartRowsAreSkipped(start, startBackoff, maxBackoff);
    }
  }

  lemma PrefixHoldsRow(table: seq<int>, start: int, handed: seq<int>, row: int)
    requires Increasing(table) && handed <= Above(table, start)
    ensures row in handed <==> row in table && start < row <= Highest(start, handed)
  {
    AboveMembers(table, start);
    AboveTheMark(table, start, handed);
    AboveMembers(table, Highest(start, handed));
    var rows := Above(table, start);
    assert row in rows <==> row in handed || row in Above(table, Highest(start, handed));
  }

  // ---------------------------------------------------------------- processes, crashes and restarts

  /**
   One process: its attempts, and the row whose callback it crashed in, if it did, after the mark was saved or not and
   before the row was handed on.  Rows that a crash or a stop cuts short count as an attempt of their own.
  */
  datatype Process = Process(attempts: seq<Watch>, crash: Option<Row>)

  /**
   What a chain of processes leaves: the saved mark the next one starts from, the highest row seen whose mark was saved
   or which was handed on, the rows handed on, and the rows that a crash left out.
  */
  datatype Chain = Chain(saved: int, reached: int, handed: seq<int>, leftOut: set<int>)

  function Larger(a: int, b: int): int {
    if a > b then a else b
  }

  /** The callback up to the save: marks, but no hand-over. */
  function Interrupted(p: Progress, row: Row): Progress {
    Deliver(p, row).(handed := p.handed)
  }

  /** The process crashes between the save and the hand-over of a row above all that it or an earlier process saw. */
  predicate LeavesOut(c: Chain, process: Process, startBackoff: int, maxBackoff: int) {
    var p := Watching(c.saved, startBackoff, maxBackoff, process.attempts);
    && process.crash.Some? && !p.ended
    && Saves(process.crash.value) && process.crash.value.id > Larger(c.reached, p.mark)
  }

  function AfterProcess(c: Chain, process: Process, startBackoff: int, maxBackoff: int): Chain {
    var p := Watching(c.saved, startBackoff, maxBackoff, process.attempts);
    var q := if process.crash.Some? && !p.ended then Interrupted(p, process.crash.value) else p;
    var seen := Chain(q.persisted, Larger(c.reached, p.mark), c.handed + p.handed, c.leftOut);
    if LeavesOut(c, process, startBackoff, maxBackoff)
    then seen.(reached := process.crash.value.id, leftOut := c.leftOut + {process.crash.value.id})
    else seen
  }

  /** Each process starts from the mark that the one before it left saved. */
  function Restarting(start: int, startBackoff: int, maxBackoff: int, processes: seq<Process>): Chain {
    if processes == [] then Chain(start, start, [], {})
    else
      var n := |processes| - 1;
      AfterProcess(Restarting(start, startBackoff, maxBackoff, processes[..n]), processes[n], startBackoff, maxBackoff)
  }

  /** The source is honest to a process, also with the row it crashed on. */
  ghost predicate HonestTo(table: seq<int>, saved: int, startBackoff: int, maxBackoff: int, process: Process) {
    && HonestSource(table, saved, startBackoff, maxBackoff, process.attempts)
    && (process.crash.Some? ==>
      Emits(table, Watching(saved, startBackoff, maxBackoff, process.attempts).since, [process.crash.value]))
  }

  ghost predicate HonestToAll(table: seq<int>, start: int, startBackoff: int, maxBackoff: int,
                              processes: seq<Process>)
  {
    forall i :: 0 <= i < |processes| ==>
      var before := Restarting(start, startBackoff, maxBackoff, processes[..i]);
      HonestTo(table, before.saved, startBackoff, maxBackoff, processes[i])
  }

  /** Of the rows above the start that were reached, those handed on are all but the ones left out. */
  ghost predicate Covers(table: seq<int>, start: int, c: Chain) {
    && start <= c.saved <= c.reached
    && (forall row :: row in c.leftOut ==> row in table && start < row <= c.saved)
    && (forall row :: row in table && start < row <= c.reached ==> (row in c.handed <==> row !in c.leftOut))
    && (forall row :: row in c.handed ==> row in table && start < row <= c.reached)
  }

  lemma HeadIsLeast(rows: seq<int>, r: int)
    requires Increasing(rows)
    ensures r in rows ==> rows[0] <= r
  {
  }

  lemma NextRow(table: seq<int>, since: int, row: Row)
    requires Increasing(table) && since > 0 && Emits(table, since, [row])
    ensures row.id in table && row.id > since
    ensures forall r :: r in table && since < r <= row.id ==> r == row.id
  {
    var rows := Above(table, since);
    assert IDs([row]) == [row.id];
    assert rows[0] == row.id;
    AboveMembers(table, since);
    assert row.id in rows;
    forall r | r in table && since < r <= row.id ensures r == row.id {
      HeadIsLeast(rows, r);
    }
  }

  lemma ProcessCovers(table: seq<int>, start: int, startBackoff: int, maxBackoff: int, c: Chain, process: Process)
    requires Increasing(table) && start > 0 && Covers(table, start, c)
    requires HonestTo(table, c.saved, startBackoff, maxBackoff, process)
    ensures Covers(table, start, AfterProcess(c, process, startBackoff, maxBackoff))
  {
    hide Increasing, HonestSource, Above, Highest, Watching, Emits;
    var p := Watching(c.saved, startBackoff, maxBackoff, process.attempts);
    MarksAreHighWater(c.saved, startBackoff, maxBackoff, process.attempts);
    RowsAreGapFree(table, c.saved, startBackoff, maxBackoff, process.attempts);
    forall row ensures row in p.handed <==> row in table && c.saved < row <= p.mark {
      PrefixHoldsRow(table, c.saved, p.handed, row);
    }
    if process.crash.Some? { NextRow(table, p.since, process.crash.value); }
  }

  /**
   Over any sequence of processes, each started from the mark the one before it saved, and each possibly crashing while
   it handles a row: of the rows reached, exactly those are never handed on that a crash left out once their mark was
   saved.
  */
  lemma {:induction false} RestartsLeaveOutExactly(table: seq<int>, start: int, startBackoff: int, maxBackoff: int,
                                                   processes: seq<Process>)
    requires Increasing(table) && start > 0
    requires HonestToAll(table, start, startBackoff, maxBackoff, processes)
    ensures Covers(table, start, Restarting(start, startBackoff, maxBackoff, processes))
  {
    hide Increasing, HonestTo, AfterProcess;
    if processes != [] {
      hide Covers;
      var n := |processes| - 1;
      var front := processes[..n];
      assert forall i :: 0 <= i < n ==> front[..i] == processes[..i];
      RestartsLeaveOutExactly(table, start, startBackoff, maxBackoff, front);
      var c := Restarting(start, startBackoff, maxBackoff, front);
      ProcessCovers(table, start, startBackoff, maxBackoff, c, processes[n]);
    } else {
      assert Restarting(start, startBackoff, maxBackoff, processes) == Chain(start, start, [], {});
    }
  }

  /** The process at position `i` of the chain leaves the row out. */
  ghost predicate LeavesOutAt(start: int, startBackoff: int, maxBackoff: int, processes: seq<Process>, i: nat,
                              row: int)
  {
    && i < |processes|
    && LeavesOut(Restarting(start, startBackoff, maxBackoff, processes[..i]), processes[i], startBackoff, maxBackoff)
    && processes[i].crash.value.id == row
  }

  /** A row was left out exactly if some process of the chain left it out. */
  lemma {:induction false} LeftOutMeans(start: int, startBackoff: int, maxBackoff: int, processes: seq<Process>,
                                        row: int)
    ensures row in Restarting(start, startBackoff, maxBackoff, processes).leftOut
      <==> exists i :: LeavesOutAt(start, startBackoff, maxBackoff, processes, i, row)
  {
    hide Watching, Interrupted, Deliver, Larger;
    if processes != [] {
      var n := |processes| - 1;
      var front := processes[..n];
      LeftOutMeans(start, startBackoff, maxBackoff, front, row);
      forall i: nat | i < n
        ensures LeavesOutAt(start, startBackoff, maxBackoff, processes, i, row)
          <==> LeavesOutAt(start, startBackoff, maxBackoff, front, i, row)
      {
        assert front[..i] == processes[..i];
      }
      assert LeavesOutAt(start, startBackoff, maxBackoff, processes, n, row)
        <==> (LeavesOut(Restarting(start, startBackoff, maxBackoff, front), processes[n], startBackoff, maxBackoff)
              && processes[n].crash.value.id == row);
    }
  }

  /** It happens from every positive start with a row above it: a crash on that row after its save leaves it out. */
  lemma CrashAfterSaveLeavesOut(table: seq<int>, start: int, startBackoff: int, maxBackoff: int)
    requires Increasing(table) && start > 0 && Above(table, start) != []
    ensures var row := Row(Above(table, start)[0], true, |SAVE_STEPS|);
      var processes := [Process([], Some(row))];
      && HonestToAll(table, start, startBackoff, maxBackoff, processes)
      && Restarting(start, startBackoff, maxBackoff, processes) == Chain(row.id, row.id, [], {row.id})
  {
  }

  /** A row that a process hands on again lies above the mark that was saved when it started. */
  lemma RepeatsWereUnsaved(table: seq<int>, start: int, startBackoff: int, maxBackoff: int,
                           processes: seq<Process>, next: Process, row: int)
    requires Increasing(table) && start > 0
    requires HonestToAll(table, start, startBackoff, maxBackoff, processes)
    requires var c := Restarting(start, startBackoff, maxBackoff, processes);
      && HonestTo(table, c.saved, startBackoff, maxBackoff, next)
      && row in c.handed && row in Watching(c.saved, startBackoff, maxBackoff, next.attempts).handed
    ensures var c := Restarting(start, startBackoff, maxBackoff, processes); c.saved < row <= c.reached
  {
    hide Increasing, HonestToAll, HonestSource, Above, Highest, Watching, Emits, Restarting;
    var c := Restarting(start, startBackoff, maxBackoff, processes);
    RestartsLeaveOutExactly(table, start, startBackoff, maxBackoff, processes);
    RowsAreGapFree(table, c.saved, startBackoff, maxBackoff, next.attempts);
    PrefixHoldsRow(table, c.saved, Watching(c.saved, startBackoff, maxBackoff, next.attempts).handed, row);
  }

  // ---------------------------------------------------------------- how long the loop goes on

  /** All rows of the attempts, in order. */
  function AllIDs(attempts: seq<Watch>): seq<int> {
    if attempts == [] then []
    else AllIDs(attempts[..|attempts| - 1]) + IDs(attempts[|attempts| - 1].rows)
  }

  /**
   The loop goes on through every failure, however many, up to the first attempt that ends it: it has then handed on the
   rows of all attempts up to that one, and waited once after each attempt before it.
  */
  lemma {:induction false} GoesOnUntilEnded(start: int, startBackoff: int, maxBackoff: int, attempts: seq<Watch>,
                                          n: nat)
    requires n <= |attempts| && (forall k :: 0 <= k < n ==> !EndsLoop(attempts[k]))
    requires n < |attempts| ==> EndsLoop(attempts[n])
    ensures var p := Watching(start, startBackoff, maxBackoff, attempts);
      && (p.ended <==> n < |attempts|)
      && p.handed == AllIDs(attempts[..if n < |attempts| then n + 1 else n])
      && |p.delays| == n
  {
    hide AfterAttempt, IDs, EndsLoop;
    if attempts != [] {
      var m := |attempts| - 1;
      var front, last := attempts[..m], attempts[m];
      var p := Watching(start, startBackoff, maxBackoff, front);
      GoesOnUntilEnded(start, startBackoff, maxBackoff, front, if n <= m then n else m);
      OneAttempt(p, last, maxBackoff);
      assert n >= m ==> attempts[..m + 1] == attempts && AllIDs(attempts) == AllIDs(front) + IDs(last.rows);
      assert n < m ==> front[..n + 1] == attempts[..n + 1];
      assert front[..m] == front;
    } else {
      assert attempts[..n] == [];
    }
  }

  // ---------------------------------------------------------------- backoff

  function Pow2(n: nat): nat {
    if n == 0 then 1 else 2 * Pow2(n - 1)
  }

  function Capped(x: int, cap: int): int {
    if x > cap then cap else x
  }

  lemma CappedDoubles(x: int, cap: int)
    requires 0 < x && 0 < cap
    ensures Doubled(Capped(x, cap), cap) == Capped(2 * x, cap)
  {
  }

  /** The nth delay is the starting delay doubled n times, capped; it never resets. */
  lemma BackoffIsExponential(start: int, startBackoff: int, maxBackoff: int, attempts: seq<Watch>, n: nat)
    requires 0 < startBackoff <= maxBackoff
    requires n < |Watching(start, startBackoff, maxBackoff, attempts).delays|
    ensures Watching(start, startBackoff, maxBackoff, attempts).delays[n] == Capped(startBackoff * Pow2(n), maxBackoff)
  {
    NextDelay(start, startBackoff, maxBackoff, attempts);
  }

  lemma Positive(x: int, n: nat)
    requires x > 0
    ensures x * Pow2(n) > 0 && x * Pow2(n + 1) == 2 * (x * Pow2(n))
  {
    if n > 0 { Positive(x, n - 1); }
  }

  lemma {:induction false} NextDelay(start: int, startBackoff: int, maxBackoff: int, attempts: seq<Watch>)
    requires 0 < startBackoff <= maxBackoff
    ensures var p := Watching(start, startBackoff, maxBackoff, attempts);
      && p.backoff == Capped(startBackoff * Pow2(|p.delays|), maxBackoff)
      && forall n :: 0 <= n < |p.delays| ==> p.delays[n] == Capped(startBackoff * Pow2(n), maxBackoff)
  {
    if attempts != [] {
      var front, a := attempts[..|attempts| - 1], attempts[|attempts| - 1];
      NextDelay(start, startBackoff, maxBackoff, front);
      var p := Watching(start, startBackoff, maxBackoff, front);
      DeliverKeepsTiming(p, a.rows);
      Positive(startBackoff, |p.delays|);
      CappedDoubles(startBackoff * Pow2(|p.delays|), maxBackoff);
    }
  }

  // ---------------------------------------------------------------- the loop and its callback

  function SavedMark(d: Disk): int {
    match Load(d, true)
    case Ok(cfg) => cfg.lastWatchRowID
    case Err(_) => 0
  }

  /** The callback's captured variable, the store it saves to, and the rows it has passed on. */
  class Callback {
    const store: FileStore
    var lastWatchRowID: int
    var handed: seq<int>

    constructor (store: FileStore, start: int)
      ensures this.store == store && lastWatchRowID == start && handed == []
    {
      this.store, lastWatchRowID, handed := store, start, [];
    }

    method Handle(row: Row)
      requires Load(store.disk, true).Ok? && row.done <= |SAVE_STEPS|
      modifies this, store
      ensures Load(store.disk, true).Ok?
      ensures handed == old(handed) + [row.id]
      ensures lastWatchRowID == if row.id > old(lastWatchRowID) then row.id else old(lastWatchRowID)
      ensures Load(store.disk, true).value
           == if row.id > old(lastWatchRowID) && Saves(row)
              then Load(old(store.disk), true).value.(lastWatchRowID := row.id)
              else Load(old(store.disk), true).value
    {
      if row.id > lastWatchRowID {
        lastWatchRowID := row.id;
        var id := row.id;
        ghost var before := store.disk;
        var saved := store.Update<()>((cfg: Config) => Ok(cfg.(lastWatchRowID := id)), row.readable, row.done);
        if row.readable {
          SavingIsAllOrNothing(before, Load(before, true).value.(lastWatchRowID := id), row.done);
        }
      }
      handed := handed + [row.id];
    }
  }

  /** The loop's state and its callback's, as a `Progress`. */
  ghost predicate Shows(p: Progress, callback: Callback, since: int, backoff: int, delays: seq<int>, ended: bool)
    reads callback, callback.store
  {
    && Load(callback.store.disk, true).Ok?
    && p == Progress(since, callback.lastWatchRowID, SavedMark(callback.store.disk), callback.handed, backoff, delays,
                     ended)
  }

  method Run(callback: Callback, start: int, startBackoff: int, maxBackoff: int, attempts: seq<Watch>)
    returns (since: int, backoff: int, delays: seq<int>, ended: bool)
    requires Shows(Begin(start, startBackoff), callback, start, startBackoff, [], false)
    requires forall a :: a in attempts ==> forall row :: row in a.rows ==> row.done <= |SAVE_STEPS|
    modifies callback, callback.store
    ensures Shows(Watching(start, startBackoff, maxBackoff, attempts), callback, since, backoff, delays, ended)
  {
    backoff, since, delays, ended := startBackoff, start, [], false;
    var next := 0;
    while next < |attempts|
      invariant 0 <= next <= |attempts| && !ended
      invariant Shows(Watching(start, startBackoff, maxBackoff, attempts[..next]), callback, since, backoff, delays,
                      ended)
    {
      var a := attempts[next];
      ghost var p := Watching(start, startBackoff, maxBackoff, attempts[..next]);
      assert attempts[..next + 1][..next] == attempts[..next];
      assert a in attempts;
      next := next + 1;
      var i := 0;
      while i < |a.rows|
        invariant 0 <= i <= |a.rows| && !ended
        invariant Shows(DeliverAll(p, a.rows[..i]), callback, since, backoff, delays, ended)
      {
        var row := a.rows[i];
        assert row in a.rows;
        assert a.rows[..i + 1][..i] == a.rows[..i];
        if row.id > since {
          since := row.id;
        }
        callback.Handle(row);
        i := i + 1;
      }
      assert a.rows[..i] == a.rows;
      if a.ending.Finishes? || a.ending.cancelled {
        ended := true;
        EndedStays(start, startBackoff, maxBackoff, attempts, next);
        return;
      }
      delays := delays + [backoff];
      backoff := backoff * 2;
      if backoff > maxBackoff {
        backoff := maxBackoff;
      }
    }
    assert attempts[..next] == attempts;
  }

  lemma {:induction false} EndedStays(start: int, startBackoff: int, maxBackoff: int, attempts: seq<Watch>, n: nat)
    requires n <= |attempts| && Watching(start, startBackoff, maxBackoff, attempts[..n]).ended
    ensures Watching(start, startBackoff, maxBackoff, attempts)
         == Watching(start, startBackoff, maxBackoff, attempts[..n])
    decreases |attempts| - n
  {
    if n < |attempts| {
      assert attempts[..n + 1][..n] == attempts[..n];
      EndedStays(start, startBackoff, maxBackoff, attempts, n + 1);
    } else {
      assert attempts[..n] == attempts;
    }
  }
}
