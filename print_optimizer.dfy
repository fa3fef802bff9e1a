/**
 * Greedy grouping of 3D-print jobs under a printer's limits (Task_1.py).
 *
 * optimize_printing sorts the jobs by (priority ascending, print time
 * descending), then repeatedly forms a group by a first-fit scan of the
 * remaining jobs, limited by the number of items and the total volume, and
 * removes each chosen job from the list. A group costs its longest print
 * time. When no remaining job fits an empty group, the first remaining job
 * is printed alone.
 *
 * The sort, the scan and the grouping are stated as pure functions
 * (SortByKey, FirstFit, Batches); OptimizePrinting mirrors the source's
 * loops and is proved to return Schedule(printJobs, printer).
 */
module PrintOptimizer {
  import Sequences

  datatype PrintJob = PrintJob(id: string, volume: real, priority: int, printTime: int)

  datatype PrinterConstraints = PrinterConstraints(maxVolume: real, maxItems: int)

  datatype PrintPlan = PrintPlan(printOrder: seq<string>, totalTime: int)

  // ---------------------------------------------------------------------
  // Ordering: key (priority, -print_time), stable
  // ---------------------------------------------------------------------

  /** The key of a is at most the key of b. */
  predicate Precedes(a: PrintJob, b: PrintJob)
  {
    a.priority < b.priority || (a.priority == b.priority && a.printTime >= b.printTime)
  }

  predicate SortedByKey(s: seq<PrintJob>)
  {
    forall i, j :: 0 <= i < j < |s| ==> Precedes(s[i], s[j])
  }

  function Ids(s: seq<PrintJob>): seq<string>
  {
    if s == [] then [] else [s[0].id] + Ids(s[1..])
  }

  /** Puts x in front of the first job whose key is not smaller than its
      own, so that x stays ahead of the jobs with an equal key. */
  function Insert(x: PrintJob, s: seq<PrintJob>): (r: seq<PrintJob>)
    ensures |r| == |s| + 1 && (r[0] == x || (s != [] && r[0] == s[0]))
  {
    if s == [] then [x]
    else if Precedes(x, s[0]) then
      [x] + s
    else
      var t := Insert(x, s[1..]);
      assert s == [s[0]] + s[1..];
      [s[0]] + t
  }

  /** Inserting adds exactly x to the jobs. */
  lemma {:induction false} InsertPermutes(x: PrintJob, s: seq<PrintJob>)
    ensures multiset(Insert(x, s)) == multiset(s) + multiset{x}
  {
    if s != [] && !Precedes(x, s[0]) {
      InsertPermutes(x, s[1..]);
      assert s == [s[0]] + s[1..];
      assert Insert(x, s) == [s[0]] + Insert(x, s[1..]);
    }
  }

  /** Inserting adds exactly the id of x to the ids. */
  lemma {:induction false} InsertIds(x: PrintJob, s: seq<PrintJob>)
    ensures multiset(Ids(Insert(x, s))) == multiset(Ids(s)) + multiset{x.id}
  {
    if s != [] {
      if Precedes(x, s[0]) {
        assert ([x] + s)[1..] == s;
      } else {
        var t := Insert(x, s[1..]);
        InsertIds(x, s[1..]);
        assert ([s[0]] + t)[1..] == t;
      }
    }
  }

  /** Inserting into a sorted list keeps it sorted. */
  lemma {:induction false} InsertSorted(x: PrintJob, s: seq<PrintJob>)
    requires SortedByKey(s)
    ensures SortedByKey(Insert(x, s))
  {
    if s != [] {
      var r := Insert(x, s);
      if Precedes(x, s[0]) {
        assert r == [x] + s;
        forall i, j | 0 <= i < j < |r| ensures Precedes(r[i], r[j]) {
          if i == 0 {
            assert r[j] == s[j - 1];
            assert j == 1 || Precedes(s[0], s[j - 1]);
          } else {
            assert r[i] == s[i - 1] && r[j] == s[j - 1];
          }
        }
      } else {
        var t := Insert(x, s[1..]);
        assert r == [s[0]] + t;
        InsertSorted(x, s[1..]);
        assert Precedes(s[0], t[0]);
        forall i, j | 0 <= i < j < |r| ensures Precedes(r[i], r[j]) {
          if i == 0 {
            assert r[j] == t[j - 1];
            assert j == 1 || Precedes(t[0], t[j - 1]);
          } else {
            assert r[i] == t[i - 1] && r[j] == t[j - 1];
          }
        }
      }
    }
  }

  /** The job list as jobs.sort(key=lambda x: (x.priority, -x.print_time))
      leaves it. */
  function SortByKey(s: seq<PrintJob>): (r: seq<PrintJob>)
    ensures SortedByKey(r)
  {
    if s == [] then []
    else
      InsertSorted(s[0], SortByKey(s[1..]));
      Insert(s[0], SortByKey(s[1..]))
  }

  /** The sort permutes the jobs. */
  lemma {:induction false} SortByKeyPermutes(s: seq<PrintJob>)
    ensures multiset(SortByKey(s)) == multiset(s)
  {
    if s != [] {
      SortByKeyPermutes(s[1..]);
      InsertPermutes(s[0], SortByKey(s[1..]));
      assert s == [s[0]] + s[1..];
    }
  }

  /** The sort permutes the ids. */
  lemma {:induction false} SortByKeyKeepsIds(s: seq<PrintJob>)
    ensures multiset(Ids(SortByKey(s))) == multiset(Ids(s))
  {
    if s != [] {
      SortByKeyKeepsIds(s[1..]);
      InsertIds(s[0], SortByKey(s[1..]));
    }
  }

  /** The jobs of s whose key is (priority, printTime), in order. */
  function WithKey(s: seq<PrintJob>, priority: int, printTime: int): seq<PrintJob>
  {
    if s == [] then []
    else (if s[0].priority == priority && s[0].printTime == printTime then [s[0]] else [])
         + WithKey(s[1..], priority, printTime)
  }

  lemma {:induction false} InsertKeepsKeyOrder(x: PrintJob, s: seq<PrintJob>, priority: int, printTime: int)
    ensures WithKey(Insert(x, s), priority, printTime)
         == if x.priority == priority && x.printTime == printTime
            then [x] + WithKey(s, priority, printTime)
            else WithKey(s, priority, printTime)
  {
    if s == [] {
      assert WithKey([x], priority, printTime)
          == (if x.priority == priority && x.printTime == printTime then [x] else []) + WithKey([], priority, printTime);
    } else if Precedes(x, s[0]) {
      assert ([x] + s)[1..] == s;
    } else {
      InsertKeepsKeyOrder(x, s[1..], priority, printTime);
      var t := Insert(x, s[1..]);
      assert ([s[0]] + t)[1..] == t;
    }
  }

  /** The sort is stable: jobs with equal keys keep their input order. */
  lemma {:induction false} SortIsStable(s: seq<PrintJob>, priority: int, printTime: int)
    ensures WithKey(SortByKey(s), priority, printTime) == WithKey(s, priority, printTime)
  {
    if s != [] {
      SortIsStable(s[1..], priority, printTime);
      InsertKeepsKeyOrder(s[0], SortByKey(s[1..]), priority, printTime);
    }
  }

  // ---------------------------------------------------------------------
  // One first-fit scan
  // ---------------------------------------------------------------------

  /** The group formed by one scan and the jobs left for later scans. */
  datatype Split = Split(group: seq<PrintJob>, rest: seq<PrintJob>)

  /** A job may join a group of groupSize jobs and total volume volume. */
  predicate Fits(printer: PrinterConstraints, groupSize: nat, volume: real, job: PrintJob)
  {
    groupSize < printer.maxItems && volume + job.volume <= printer.maxVolume
  }

  /** The scan of the inner loop, from the state it has reached: pending are
      the jobs not yet looked at, group and volume the group so far, and
      skipped the jobs already passed over. */
  function FirstFit(printer: PrinterConstraints, pending: seq<PrintJob>, group: seq<PrintJob>,
                    volume: real, skipped: seq<PrintJob>): (s: Split)
    ensures |s.group| + |s.rest| == |group| + |skipped| + |pending|
    ensures group <= s.group && skipped <= s.rest
    ensures |s.group| == |group| ==> s.rest == skipped + pending
    decreases |pending|
  {
    if pending == [] then Split(group, skipped)
    else if Fits(printer, |group|, volume, pending[0]) then
      FirstFit(printer, pending[1..], group + [pending[0]], volume + pending[0].volume, skipped)
    else
      assert skipped + pending == (skipped + [pending[0]]) + pending[1..];
      FirstFit(printer, pending[1..], group, volume, skipped + [pending[0]])
  }

  /** One step of the inner loop that takes jobs[j]: the job leaves the
      list and joins the group. */
  lemma {:induction false} ScanTakes(printer: PrinterConstraints, jobs: seq<PrintJob>, j: nat, group: seq<PrintJob>, volume: real)
    requires j < |jobs| && Fits(printer, |group|, volume, jobs[j])
    ensures var popped := jobs[..j] + jobs[j + 1..];
      FirstFit(printer, popped[j..], group + [jobs[j]], volume + jobs[j].volume, popped[..j])
      == FirstFit(printer, jobs[j..], group, volume, jobs[..j])
  {
    var popped := jobs[..j] + jobs[j + 1..];
    assert popped[j..] == jobs[j..][1..] && popped[..j] == jobs[..j];
  }

  /** One step of the inner loop that passes over jobs[j]. */
  lemma {:induction false} ScanSkips(printer: PrinterConstraints, jobs: seq<PrintJob>, j: nat, group: seq<PrintJob>, volume: real)
    requires j < |jobs| && !Fits(printer, |group|, volume, jobs[j])
    ensures FirstFit(printer, jobs[j + 1..], group, volume, jobs[..j + 1])
         == FirstFit(printer, jobs[j..], group, volume, jobs[..j])
  {
    assert jobs[j + 1..] == jobs[j..][1..] && jobs[..j + 1] == jobs[..j] + [jobs[j]];
  }

  /** c is made of the jobs of a and of b, each kept in its own order. */
  predicate Interleaves(a: seq<PrintJob>, b: seq<PrintJob>, c: seq<PrintJob>)
    decreases |c|
  {
    if c == [] then a == [] && b == []
    else
      || (a != [] && a[0] == c[0] && Interleaves(a[1..], b, c[1..]))
      || (b != [] && b[0] == c[0] && Interleaves(a, b[1..], c[1..]))
  }

  lemma {:induction false} InterleavesIds(a: seq<PrintJob>, b: seq<PrintJob>, c: seq<PrintJob>)
    requires Interleaves(a, b, c)
    ensures multiset(Ids(a)) + multiset(Ids(b)) == multiset(Ids(c))
  {
    if c != [] {
      if a != [] && a[0] == c[0] && Interleaves(a[1..], b, c[1..]) {
        InterleavesIds(a[1..], b, c[1..]);
      } else {
        InterleavesIds(a, b[1..], c[1..]);
      }
    }
  }

  /** The scan splits the pending jobs into the ones it takes and the ones it
      skips, both in their original order. */
  lemma {:induction false} FirstFitInterleaves(printer: PrinterConstraints, pending: seq<PrintJob>,
                                               group: seq<PrintJob>, volume: real, skipped: seq<PrintJob>)
    ensures var s := FirstFit(printer, pending, group, volume, skipped);
      Interleaves(s.group[|group|..], s.rest[|skipped|..], pending)
  {
    var s := FirstFit(printer, pending, group, volume, skipped);
    if pending != [] {
      var x := pending[0];
      if Fits(printer, |group|, volume, x) {
        FirstFitInterleaves(printer, pending[1..], group + [x], volume + x.volume, skipped);
        assert (group + [x]) <= s.group;
        assert s.group[|group|..][1..] == s.group[|group + [x]|..];
      } else {
        FirstFitInterleaves(printer, pending[1..], group, volume, skipped + [x]);
        assert (skipped + [x]) <= s.rest;
        assert s.rest[|skipped|..][1..] == s.rest[|skipped + [x]|..];
      }
    }
  }

  /** Total volume of a group, summed in the order the jobs joined it. */
  function Volume(g: seq<PrintJob>): real
  {
    if g == [] then 0.0 else Volume(g[..|g| - 1]) + g[|g| - 1].volume
  }

  predicate WithinLimits(printer: PrinterConstraints, g: seq<PrintJob>)
  {
    |g| <= printer.maxItems && Volume(g) <= printer.maxVolume
  }

  /** A group grown by the scan respects both limits. */
  lemma {:induction false} FirstFitWithinLimits(printer: PrinterConstraints, pending: seq<PrintJob>,
                                                group: seq<PrintJob>, volume: real, skipped: seq<PrintJob>)
    requires volume == Volume(group)
    requires group == [] || WithinLimits(printer, group)
    ensures var s := FirstFit(printer, pending, group, volume, skipped);
      s.group == [] || WithinLimits(printer, s.group)
  {
    if pending != [] {
      var x := pending[0];
      if Fits(printer, |group|, volume, x) {
        assert (group + [x])[..|group|] == group;
        FirstFitWithinLimits(printer, pending[1..], group + [x], volume + x.volume, skipped);
      } else {
        FirstFitWithinLimits(printer, pending[1..], group, volume, skipped + [x]);
      }
    }
  }

  /** Starting from an empty group, the scan takes nothing exactly when no
      pending job fits an empty group on its own. */
  lemma {:induction false} FirstFitEmptyIffNoneFits(printer: PrinterConstraints, pending: seq<PrintJob>,
                                                    skipped: seq<PrintJob>)
    ensures FirstFit(printer, pending, [], 0.0, skipped).group == []
        <==> forall k :: 0 <= k < |pending| ==> !Fits(printer, 0, 0.0, pending[k])
  {
    if pending != [] {
      var x := pending[0];
      if Fits(printer, 0, 0.0, x) {
        assert [x] <= FirstFit(printer, pending[1..], [x], 0.0 + x.volume, skipped).group;
      } else {
        FirstFitEmptyIffNoneFits(printer, pending[1..], skipped + [x]);
        assert forall k :: 1 <= k < |pending| ==> pending[k] == pending[1..][k - 1];
      }
    }
  }

  // ---------------------------------------------------------------------
  // The groups, in the order they are printed
  // ---------------------------------------------------------------------

  /** No group is empty. */
  predicate NonEmptyGroups(bs: seq<seq<PrintJob>>)
  {
    bs == [] || (bs[0] != [] && NonEmptyGroups(bs[1..]))
  }

  /** The groups the outer loop forms from a sorted job list: a first-fit
      group when the scan takes something, otherwise the first job alone. */
  function Batches(printer: PrinterConstraints, jobs: seq<PrintJob>): (bs: seq<seq<PrintJob>>)
    ensures NonEmptyGroups(bs)
    decreases |jobs|
  {
    if jobs == [] then []
    else
      var s := FirstFit(printer, jobs, [], 0.0, []);
      var rest := if s.group != [] then Batches(printer, s.rest) else Batches(printer, jobs[1..]);
      var first := if s.group != [] then s.group else [jobs[0]];
      assert ([first] + rest)[1..] == rest;
      [first] + rest
  }

  /** The longest print time in a group. */
  function MaxTime(g: seq<PrintJob>): (t: int)
    requires g != []
    ensures exists k :: 0 <= k < |g| && g[k].printTime == t
    ensures forall k :: 0 <= k < |g| ==> g[k].printTime <= t
  {
    if |g| == 1 then g[0].printTime
    else
      var m := MaxTime(g[1..]);
      assert forall k :: 1 <= k < |g| ==> g[k] == g[1..][k - 1];
      if g[0].printTime > m then g[0].printTime else m
  }

  /** The print order: the ids of every group, group after group. */
  function OrderOf(bs: seq<seq<PrintJob>>): seq<string>
  {
    if bs == [] then [] else Ids(bs[0]) + OrderOf(bs[1..])
  }

  /** Each group costs its longest print time. */
  function TotalTime(bs: seq<seq<PrintJob>>): int
    requires NonEmptyGroups(bs)
  {
    if bs == [] then 0 else MaxTime(bs[0]) + TotalTime(bs[1..])
  }

  /** What optimize_printing returns. */
  function Schedule(printJobs: seq<PrintJob>, printer: PrinterConstraints): PrintPlan
  {
    var bs := Batches(printer, SortByKey(printJobs));
    PrintPlan(OrderOf(bs), TotalTime(bs))
  }

  /** What one pass of the outer loop adds to the print order and the total
      time, given the outcome of its scan. */
  lemma {:induction false} PassOfOuterLoop(printer: PrinterConstraints, jobs: seq<PrintJob>,
                                           group: seq<PrintJob>, rest: seq<PrintJob>)
    requires jobs != [] && FirstFit(printer, jobs, [], 0.0, []) == Split(group, rest)
    ensures group != [] ==>
      && OrderOf(Batches(printer, jobs)) == Ids(group) + OrderOf(Batches(printer, rest))
      && TotalTime(Batches(printer, jobs)) == MaxTime(group) + TotalTime(Batches(printer, rest))
    ensures group == [] ==>
      && rest == jobs
      && OrderOf(Batches(printer, jobs)) == [jobs[0].id] + OrderOf(Batches(printer, jobs[1..]))
      && TotalTime(Batches(printer, jobs)) == jobs[0].printTime + TotalTime(Batches(printer, jobs[1..]))
  {
    var bs := Batches(printer, jobs);
    assert bs[1..] == Batches(printer, if group != [] then rest else jobs[1..]);
    assert Ids([jobs[0]]) == [jobs[0].id];
  }

  /** One pass of the outer loop keeps the plan printed so far, followed by
      the plan for the jobs still in the list, equal to the plan for the
      whole sorted list. */
  lemma {:induction false} OuterLoopStep(printer: PrinterConstraints, sorted: seq<PrintJob>, jobs: seq<PrintJob>,
                                         group: seq<PrintJob>, rest: seq<PrintJob>,
                                         printOrder: seq<string>, totalTime: int)
    requires jobs != [] && FirstFit(printer, jobs, [], 0.0, []) == Split(group, rest)
    requires printOrder + OrderOf(Batches(printer, jobs)) == OrderOf(Batches(printer, sorted))
    requires totalTime + TotalTime(Batches(printer, jobs)) == TotalTime(Batches(printer, sorted))
    ensures group != [] ==>
      && (printOrder + Ids(group)) + OrderOf(Batches(printer, rest)) == OrderOf(Batches(printer, sorted))
      && (totalTime + MaxTime(group)) + TotalTime(Batches(printer, rest)) == TotalTime(Batches(printer, sorted))
    ensures group == [] ==>
      && rest == jobs
      && (printOrder + [jobs[0].id]) + OrderOf(Batches(printer, jobs[1..])) == OrderOf(Batches(printer, sorted))
      && (totalTime + jobs[0].printTime) + TotalTime(Batches(printer, jobs[1..])) == TotalTime(Batches(printer, sorted))
  {
    PassOfOuterLoop(printer, jobs, group, rest);
    if group != [] {
      Sequences.AppendAssoc(printOrder, Ids(group), OrderOf(Batches(printer, rest)));
    } else {
      Sequences.AppendAssoc(printOrder, [jobs[0].id], OrderOf(Batches(printer, jobs[1..])));
    }
  }

  // ---------------------------------------------------------------------
  // Properties of the grouping
  // ---------------------------------------------------------------------

  /** Every job id is printed exactly as often as it occurs in the input. */
  lemma {:induction false} BatchesPermuteIds(printer: PrinterConstraints, jobs: seq<PrintJob>)
    ensures multiset(OrderOf(Batches(printer, jobs))) == multiset(Ids(jobs))
    decreases |jobs|
  {
    if jobs != [] {
      var s := FirstFit(printer, jobs, [], 0.0, []);
      PassOfOuterLoop(printer, jobs, s.group, s.rest);
      if s.group != [] {
        FirstFitInterleaves(printer, jobs, [], 0.0, []);
        assert s.group[0..] == s.group && s.rest[0..] == s.rest;
        InterleavesIds(s.group, s.rest, jobs);
        BatchesPermuteIds(printer, s.rest);
      } else {
        BatchesPermuteIds(printer, jobs[1..]);
      }
    }
  }

  /** A group the printer can take: within both limits, or a single job
      that fits no empty group. */
  predicate Printable(printer: PrinterConstraints, g: seq<PrintJob>)
  {
    WithinLimits(printer, g) || (|g| == 1 && !Fits(printer, 0, 0.0, g[0]))
  }

  /** Every group respects the item and volume limits, except a job that
      fits no empty group, which is printed alone. */
  lemma {:induction false} BatchesRespectLimits(printer: PrinterConstraints, jobs: seq<PrintJob>)
    ensures forall k :: 0 <= k < |Batches(printer, jobs)| ==> Printable(printer, Batches(printer, jobs)[k])
    decreases |jobs|
  {
    if jobs != [] {
      var s := FirstFit(printer, jobs, [], 0.0, []);
      var bs := Batches(printer, jobs);
      var next := if s.group != [] then s.rest else jobs[1..];
      var rest := Batches(printer, next);
      if s.group != [] {
        FirstFitWithinLimits(printer, jobs, [], 0.0, []);
        assert bs == [s.group] + rest;
        assert Printable(printer, bs[0]);
      } else {
        FirstFitEmptyIffNoneFits(printer, jobs, []);
        assert !Fits(printer, 0, 0.0, jobs[0]);
        assert bs == [[jobs[0]]] + rest;
        assert Printable(printer, bs[0]);
      }
      BatchesRespectLimits(printer, next);
      forall k | 0 <= k < |bs|
        ensures Printable(printer, bs[k])
      {
        if k > 0 {
          assert bs[k] == rest[k - 1];
        }
      }
    }
  }

  /** The printed ids are a permutation of the input ids. */
  lemma {:induction false} ScheduleIsPermutation(printJobs: seq<PrintJob>, printer: PrinterConstraints)
    ensures multiset(Schedule(printJobs, printer).printOrder) == multiset(Ids(printJobs))
  {
    BatchesPermuteIds(printer, SortByKey(printJobs));
    SortByKeyKeepsIds(printJobs);
  }

  // ---------------------------------------------------------------------
  // optimize_printing
  // ---------------------------------------------------------------------

  /** The inner loop: scans the list from the front, moving every job that
      still fits into the group (first fit), and leaves the jobs it passed
      over in the list, in their order. The outer loop's index i is never
      advanced, so the scan always starts at the head of the list. */
  method FormGroup(printer: PrinterConstraints, scanned: seq<PrintJob>)
    returns (group: seq<PrintJob>, jobs: seq<PrintJob>)
    ensures Split(group, jobs) == FirstFit(printer, scanned, [], 0.0, [])
  {
    jobs := scanned;
    group := [];
    var groupVolume: real := 0.0;
    var n := |jobs|;
    var j := 0;
    while j < n
      invariant 0 <= j <= n == |jobs|
      invariant FirstFit(printer, jobs[j..], group, groupVolume, jobs[..j])
             == FirstFit(printer, scanned, [], 0.0, [])
      decreases n - j
    {
      var job := jobs[j];
      if |group| < printer.maxItems && groupVolume + job.volume <= printer.maxVolume {
        ScanTakes(printer, jobs, j, group, groupVolume);
        group := group + [job];
        groupVolume := groupVolume + job.volume;
        jobs := jobs[..j] + jobs[j + 1..];
        n := n - 1;
      } else {
        ScanSkips(printer, jobs, j, group, groupVolume);
        j := j + 1;
      }
    }
    assert jobs[j..] == [] && jobs[..j] == jobs;
  }

  /** optimize_printing: sort, then form groups until the list is empty. */
  method OptimizePrinting(printJobs: seq<PrintJob>, printer: PrinterConstraints) returns (plan: PrintPlan)
    ensures plan == Schedule(printJobs, printer)
  {
    var jobs := SortByKey(printJobs);
    ghost var sorted := jobs;

    var printOrder: seq<string> := [];
    var totalTime := 0;
    var i := 0;
    var n := |jobs|;

    while i < n
      invariant n == |jobs|
      invariant printOrder + OrderOf(Batches(printer, jobs)) == OrderOf(Batches(printer, sorted))
      invariant totalTime + TotalTime(Batches(printer, jobs)) == TotalTime(Batches(printer, sorted))
      decreases n
    {
      ghost var scanned := jobs;
      var group;
      group, jobs := FormGroup(printer, jobs);
      n := |jobs|;
      OuterLoopStep(printer, sorted, scanned, group, jobs, printOrder, totalTime);

      if |group| > 0 {
        printOrder := printOrder + Ids(group);
        totalTime := totalTime + MaxTime(group);
      } else {
        // No remaining job fits an empty group: print the first one alone.
        var job := jobs[0];
        jobs := jobs[1..];
        printOrder := printOrder + [job.id];
        totalTime := totalTime + job.printTime;
        n := n - 1;
      }
    }
    plan := PrintPlan(printOrder, totalTime);
  }

  // ---------------------------------------------------------------------
  // The inputs the repository runs (limits: volume 300, two items)
  // ---------------------------------------------------------------------

  /** The plan of a pair followed by a single job. */
  lemma {:induction false} PlanOfTwoGroups(a: PrintJob, b: PrintJob, c: PrintJob)
    ensures OrderOf([[a, b], [c]]) == [a.id, b.id, c.id]
    ensures TotalTime([[a, b], [c]]) == (if a.printTime > b.printTime then a.printTime else b.printTime) + c.printTime
  {
    var bs := [[a, b], [c]];
    assert bs[1..] == [[c]] && [[c]][1..] == [] && [a, b][1..] == [b] && [b][1..] == [] && [c][1..] == [];
    assert Ids([]) == [] && OrderOf([]) == [];
    assert Ids([b]) == [b.id] + Ids([]) == [b.id];
    assert Ids([a, b]) == [a.id] + Ids([b]) == [a.id, b.id];
    assert Ids([c]) == [c.id] && OrderOf([[c]]) == [c.id];
    assert MaxTime([a, b]) == if a.printTime > b.printTime then a.printTime else b.printTime;
    assert TotalTime([[c]]) == c.printTime;
  }

  /** The plan of three jobs printed one by one. */
  lemma {:induction false} PlanOfSingletons(a: PrintJob, b: PrintJob, c: PrintJob)
    ensures NonEmptyGroups([[a], [b], [c]])
    ensures OrderOf([[a], [b], [c]]) == [a.id, b.id, c.id]
    ensures TotalTime([[a], [b], [c]]) == a.printTime + b.printTime + c.printTime
  {
    var bs := [[a], [b], [c]];
    assert bs[1..] == [[b], [c]] && [[b], [c]][1..] == [[c]] && [[c]][1..] == [];
    assert [a][1..] == [] && [b][1..] == [] && [c][1..] == [];
    assert NonEmptyGroups([[c]]) && NonEmptyGroups([[b], [c]]);
    assert Ids([]) == [] && OrderOf([]) == [];
    assert Ids([a]) == [a.id] + Ids([]) == [a.id];
    assert Ids([b]) == [b.id] + Ids([]) == [b.id];
    assert Ids([c]) == [c.id] + Ids([]) == [c.id];
    assert OrderOf([[c]]) == Ids([c]) + OrderOf([]) == [c.id];
    assert OrderOf([[b], [c]]) == Ids([b]) + OrderOf([[c]]) == [b.id, c.id];
    assert TotalTime([[c]]) == c.printTime && TotalTime([[b], [c]]) == b.printTime + c.printTime;
  }

  const Printer := PrinterConstraints(300.0, 2)

  const SameJobs := [PrintJob("M1", 100.0, 1, 120), PrintJob("M2", 150.0, 1, 90), PrintJob("M3", 120.0, 1, 150)]

  const MixedJobs := [PrintJob("M1", 100.0, 2, 120), PrintJob("M2", 150.0, 1, 90), PrintJob("M3", 120.0, 3, 150)]

  const LargeJobs := [PrintJob("M1", 250.0, 1, 180), PrintJob("M2", 200.0, 1, 150), PrintJob("M3", 180.0, 2, 120)]

  /** Equal priorities: the longest job comes first. */
  lemma SamePrioritySorted()
    ensures SortByKey(SameJobs) == [SameJobs[2], SameJobs[0], SameJobs[1]]
  {
    var m1, m2, m3 := SameJobs[0], SameJobs[1], SameJobs[2];
    assert SameJobs == [m1, m2, m3] && [m1, m2, m3][1..] == [m2, m3];
    assert SortByKey([m3]) == [m3];
    assert SortByKey([m2, m3]) == [m3, m2];
    assert Insert(m1, [m3, m2]) == [m3] + Insert(m1, [m2]);
  }

  /** M3 and M1 share the printer; M2 would be a third item. */
  lemma SamePriorityGroups()
    ensures Batches(Printer, [SameJobs[2], SameJobs[0], SameJobs[1]])
         == [[SameJobs[2], SameJobs[0]], [SameJobs[1]]]
  {
    var m1, m2, m3 := SameJobs[0], SameJobs[1], SameJobs[2];
    assert FirstFit(Printer, [m3, m1, m2], [], 0.0, []) == Split([m3, m1], [m2]) by {
      assert [m3, m1, m2][1..] == [m1, m2] && [m1, m2][1..] == [m2] && [m2][1..] == [];
      assert [] + [m3] == [m3] && [m3] + [m1] == [m3, m1] && [] + [m2] == [m2];
      assert FirstFit(Printer, [m2], [m3, m1], 220.0, []) == Split([m3, m1], [m2]);
      assert FirstFit(Printer, [m1, m2], [m3], 120.0, []) == Split([m3, m1], [m2]);
    }
    assert FirstFit(Printer, [m2], [], 0.0, []) == Split([m2], []) by {
      assert [m2][1..] == [] && [] + [m2] == [m2];
    }
    assert Batches(Printer, [m2]) == [[m2]];
  }

  /** The first input the repository runs. */
  lemma SamePriority()
    ensures Schedule(SameJobs, Printer) == PrintPlan(["M3", "M1", "M2"], 240)
  {
    SamePrioritySorted();
    SamePriorityGroups();
    PlanOfTwoGroups(SameJobs[2], SameJobs[0], SameJobs[1]);
  }

  /** Different priorities: the key order decides, and M2 and M1 fit together. */
  lemma MixedSorted()
    ensures SortByKey(MixedJobs) == [MixedJobs[1], MixedJobs[0], MixedJobs[2]]
  {
    var m1, m2, m3 := MixedJobs[0], MixedJobs[1], MixedJobs[2];
    assert MixedJobs == [m1, m2, m3] && [m1, m2, m3][1..] == [m2, m3];
    assert SortByKey([m3]) == [m3];
    assert SortByKey([m2, m3]) == [m2, m3];
    assert Insert(m1, [m2, m3]) == [m2] + Insert(m1, [m3]);
  }

  lemma MixedGroups()
    ensures Batches(Printer, [MixedJobs[1], MixedJobs[0], MixedJobs[2]])
         == [[MixedJobs[1], MixedJobs[0]], [MixedJobs[2]]]
  {
    var m1, m2, m3 := MixedJobs[0], MixedJobs[1], MixedJobs[2];
    assert FirstFit(Printer, [m2, m1, m3], [], 0.0, []) == Split([m2, m1], [m3]) by {
      assert [m2, m1, m3][1..] == [m1, m3] && [m1, m3][1..] == [m3] && [m3][1..] == [];
      assert [] + [m2] == [m2] && [m2] + [m1] == [m2, m1] && [] + [m3] == [m3];
      assert FirstFit(Printer, [m3], [m2, m1], 250.0, []) == Split([m2, m1], [m3]);
      assert FirstFit(Printer, [m1, m3], [m2], 150.0, []) == Split([m2, m1], [m3]);
    }
    assert FirstFit(Printer, [m3], [], 0.0, []) == Split([m3], []) by {
      assert [m3][1..] == [] && [] + [m3] == [m3];
    }
    assert Batches(Printer, [m3]) == [[m3]];
  }

  /** The second input the repository runs. */
  lemma DifferentPriorities()
    ensures Schedule(MixedJobs, Printer) == PrintPlan(["M2", "M1", "M3"], 270)
  {
    MixedSorted();
    MixedGroups();
    PlanOfTwoGroups(MixedJobs[1], MixedJobs[0], MixedJobs[2]);
  }

  /** Jobs too large to share the printer are printed one by one. */
  lemma LargeSorted()
    ensures SortByKey(LargeJobs) == LargeJobs
  {
    var m1, m2, m3 := LargeJobs[0], LargeJobs[1], LargeJobs[2];
    assert LargeJobs == [m1, m2, m3] && [m1, m2, m3][1..] == [m2, m3];
    assert SortByKey([m3]) == [m3];
    assert SortByKey([m2, m3]) == [m2, m3];
  }

  lemma LargeGroups()
    ensures Batches(Printer, LargeJobs) == [[LargeJobs[0]], [LargeJobs[1]], [LargeJobs[2]]]
  {
    var m1, m2, m3 := LargeJobs[0], LargeJobs[1], LargeJobs[2];
    assert LargeJobs == [m1, m2, m3];
    assert FirstFit(Printer, [m1, m2, m3], [], 0.0, []) == Split([m1], [m2, m3]) by {
      assert [m1, m2, m3][1..] == [m2, m3] && [m2, m3][1..] == [m3] && [m3][1..] == [];
      assert [] + [m1] == [m1] && [] + [m2] == [m2] && [m2] + [m3] == [m2, m3];
      assert FirstFit(Printer, [m3], [m1], 250.0, [m2]) == Split([m1], [m2, m3]);
      assert FirstFit(Printer, [m2, m3], [m1], 250.0, []) == Split([m1], [m2, m3]);
    }
    assert FirstFit(Printer, [m2, m3], [], 0.0, []) == Split([m2], [m3]) by {
      assert [m2, m3][1..] == [m3] && [m3][1..] == [];
      assert [] + [m2] == [m2] && [] + [m3] == [m3];
      assert FirstFit(Printer, [m3], [m2], 200.0, []) == Split([m2], [m3]);
    }
    assert FirstFit(Printer, [m3], [], 0.0, []) == Split([m3], []) by {
      assert [m3][1..] == [] && [] + [m3] == [m3];
    }
    assert Batches(Printer, [m3]) == [[m3]];
    assert Batches(Printer, [m2, m3]) == [[m2], [m3]];
  }

  /** The third input the repository runs. */
  lemma OverLimits()
    ensures Schedule(LargeJobs, Printer) == PrintPlan(["M1", "M2", "M3"], 450)
  {
    LargeSorted();
    LargeGroups();
    PlanOfSingletons(LargeJobs[0], LargeJobs[1], LargeJobs[2]);
  }
}
