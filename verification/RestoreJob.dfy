// The restore job: a plan applied in chunks, which a worker restart may cut short at
// any operation, and which then resumes by planning again.
module RestoreJob {
  import opened Wrappers
  import opened BookmarkForest
  import opened Planner
  import opened Restore
  import opened RestoreRun
  import opened RestoreCrash
  import opened RestoreOrder
  import Moves = MoveBatch
  import MoveRun

  // What is stored about a running restore.
  datatype JobRecord = JobRecord(applied: nat, total: nat)

  /** The job a run starts with. A resumed one counts as applied what is no
      longer planned. */
  function StartJob(planned: nat, resumed: Option<JobRecord>): JobRecord
  {
    match resumed
    case None => JobRecord(0, planned)
    case Some(job) => JobRecord(if job.total > planned then job.total - planned else 0, job.total)
  }

  lemma NothingNoted(f: Forest, ops: seq<Op>, k: nat)
    requires k <= |ops| && CanApplyAll(f, ops[..k])
    ensures CutShort(f, ops, k, k) == ApplyAll(f, ops[..k])
  {
    assert ops[k..k] == [];
  }

  /** Applies a plan chunk by chunk. The worker survives `budget` operations; of the
      chunk it dies in, which is not counted, up to `ahead` operations more are recorded
      already. */
  method ApplyChunks(ops: seq<Op>, start: JobRecord, budget: nat, ahead: nat, ghost f: Forest)
    returns (job: JobRecord, made: nat, recorded: nat, ghost f': Forest)
    requires CanApplyAll(f, ops)
    ensures made == if budget < |ops| then budget else |ops|
    ensures made <= recorded <= |ops| && recorded <= made + ahead
    ensures CanApplyAll(f, ops[..made]) && f' == CutShort(f, ops, made, recorded)
    ensures job.total == start.total
    ensures start.applied <= job.applied <= start.applied + made
    ensures start.applied + recorded <= job.applied + RESTORE_CHUNK_SIZE
    ensures made == |ops| ==> job.applied == start.applied + |ops| && f' == ApplyAll(f, ops)
  {
    job, made, recorded, f' := start, 0, 0, f;
    assert ops[..0] == [] && ops[0..] == ops;
    NothingNoted(f, ops, 0);
    while made < |ops|
      invariant made <= |ops| && made <= budget && recorded == made && job == start.(applied := start.applied + made)
      invariant CanApplyAll(f, ops[..made]) && f' == ApplyAll(f, ops[..made]) == CutShort(f, ops, made, made)
    {
      var end := made + SliceLength(ops[made..]);
      if budget < end {
        made := budget;
        recorded := if ahead < end - made then made + ahead else end;
        ApplySplit(f, ops, made);
        f' := CutShort(f, ops, made, recorded);
        return;
      }
      ApplySplit(f, ops, end);
      f' := ApplyAll(f, ops[..end]);
      made, recorded := end, end;
      NothingNoted(f, ops, end);
      job := job.(applied := start.applied + made);
    }
    assert ops[..|ops|] == ops;
  }

  // One run of the job: the browser's listing it planned from, how many operations of
  // that plan it made, and how many it had recorded.
  datatype Run = Run(live: seq<LiveNode>, made: nat, recorded: nat)

  ghost predicate CanRun(nodes: seq<PointNode>, f: Forest, mode: Mode, run: Run)
  {
    var ops := Planned(nodes, run.live, mode);
    Lists(run.live, f) && run.made <= run.recorded <= |ops| && CanApplyAll(f, ops[..run.made])
  }

  ghost function AfterRun(nodes: seq<PointNode>, f: Forest, mode: Mode, run: Run): Forest
    requires CanRun(nodes, f, mode, run)
  {
    CutShort(f, Planned(nodes, run.live, mode), run.made, run.recorded)
  }

  /** The moves within a folder that a run records and does not make. */
  ghost function LostBy(nodes: seq<PointNode>, f: Forest, mode: Mode, run: Run): set<Id>
    requires CanRun(nodes, f, mode, run)
  {
    var ops := Planned(nodes, run.live, mode);
    LostMoves(ApplyAll(f, ops[..run.made]), ops[run.made..run.recorded])
  }

  /** Runs that follow each other, the first one over `f`. */
  ghost predicate Follow(nodes: seq<PointNode>, f: Forest, mode: Mode, runs: seq<Run>)
    decreases |runs|
  {
    runs != [] ==> CanRun(nodes, f, mode, runs[0]) && Follow(nodes, AfterRun(nodes, f, mode, runs[0]), mode, runs[1..])
  }

  ghost function After(nodes: seq<PointNode>, f: Forest, mode: Mode, runs: seq<Run>): Forest
    requires Follow(nodes, f, mode, runs)
    decreases |runs|
  {
    if runs == [] then f else After(nodes, AfterRun(nodes, f, mode, runs[0]), mode, runs[1..])
  }

  /** How many operations were made. */
  function Made(runs: seq<Run>): nat
  {
    if runs == [] then 0 else runs[0].made + Made(runs[1..])
  }

  /** How many moves were lost. */
  ghost function Lost(nodes: seq<PointNode>, f: Forest, mode: Mode, runs: seq<Run>): nat
    requires Follow(nodes, f, mode, runs)
    decreases |runs|
  {
    if runs == [] then 0
    else |LostBy(nodes, f, mode, runs[0])| + Lost(nodes, AfterRun(nodes, f, mode, runs[0]), mode, runs[1..])
  }

  lemma SameSize(nodes: seq<PointNode>, live: seq<LiveNode>, live': seq<LiveNode>, f: Forest, mode: Mode)
    requires Compatible(nodes, f) && Lists(live, f) && Lists(live', f)
    ensures |Planned(nodes, live, mode)| == |Planned(nodes, live', mode)|
  {
    PlanIsPlan(nodes, live, f, mode);
    hide Compatible, Lists, IsPlan, PlanFor;
    ReplanMatches(nodes, live', f, mode, Planned(nodes, live, mode));
  }

  /** After a run the plan is shorter by what it made and what it lost. */
  lemma OneRun(nodes: seq<PointNode>, f: Forest, mode: Mode, first: seq<LiveNode>, run: Run, next: seq<LiveNode>)
    requires Compatible(nodes, f) && Lists(first, f) && CanRun(nodes, f, mode, run)
    requires Lists(next, AfterRun(nodes, f, mode, run))
    ensures var g := AfterRun(nodes, f, mode, run);
      Compatible(nodes, g) && Target(nodes, g, mode) == Target(nodes, f, mode)
    ensures |Planned(nodes, next, mode)| + run.made + |LostBy(nodes, f, mode, run)| == |Planned(nodes, first, mode)|
  {
    var ops, g := Planned(nodes, run.live, mode), AfterRun(nodes, f, mode, run);
    SameSize(nodes, first, run.live, f, mode);
    PlanIsPlan(nodes, run.live, f, mode);
    hide Compatible, Lists, IsPlan, PlanFor, Target, CutShort, LostMoves, WithoutMoves;
    CutShortLeaves(nodes, f, mode, ops, run.made, run.recorded);
    ReplanMatches(nodes, next, g, mode, WithoutMoves(ops[run.made..], LostBy(nodes, f, mode, run)));
  }

  /** A restore first planned from `first`, interrupted after each of `runs`, that now
      plans from `live`. */
  ghost predicate Interrupted(nodes: seq<PointNode>, f: Forest, mode: Mode, first: seq<LiveNode>, runs: seq<Run>,
      live: seq<LiveNode>)
  {
    Compatible(nodes, f) && Lists(first, f) && Follow(nodes, f, mode, runs) && Lists(live, After(nodes, f, mode, runs))
  }

  ghost predicate Resumes(nodes: seq<PointNode>, f: Forest, mode: Mode, first: seq<LiveNode>, g: Forest, done: nat,
      live: seq<LiveNode>)
  {
    && Compatible(nodes, g)
    && Target(nodes, g, mode) == Target(nodes, f, mode)
    && |Planned(nodes, live, mode)| + done == |Planned(nodes, first, mode)|
  }

  lemma NextLists(nodes: seq<PointNode>, g: Forest, mode: Mode, runs: seq<Run>, live: seq<LiveNode>)
    requires Follow(nodes, g, mode, runs) && Lists(live, After(nodes, g, mode, runs))
    ensures Lists(if runs != [] then runs[0].live else live, g)
  {
  }

  lemma OneRunLess(nodes: seq<PointNode>, f: Forest, mode: Mode, first: seq<LiveNode>, runs: seq<Run>,
      live: seq<LiveNode>)
    returns (g: Forest, next: seq<LiveNode>)
    requires Interrupted(nodes, f, mode, first, runs, live) && runs != []
    ensures CanRun(nodes, f, mode, runs[0]) && g == AfterRun(nodes, f, mode, runs[0])
    ensures Interrupted(nodes, g, mode, next, runs[1..], live)
    ensures Target(nodes, g, mode) == Target(nodes, f, mode)
    ensures |Planned(nodes, next, mode)| + runs[0].made + |LostBy(nodes, f, mode, runs[0])| == |Planned(nodes, first,
      mode)|
  {
    hide Compatible, Lists, Planned, Target, CanRun, AfterRun, LostBy;
    g := AfterRun(nodes, f, mode, runs[0]);
    next := if |runs| > 1 then runs[1].live else live;
    assert Lists(next, g) by { NextLists(nodes, g, mode, runs[1..], live); }
    OneRun(nodes, f, mode, first, runs[0], next);
  }

  lemma {:induction false} RunsResume(nodes: seq<PointNode>, f: Forest, mode: Mode, first: seq<LiveNode>,
      runs: seq<Run>, live: seq<LiveNode>)
    requires Interrupted(nodes, f, mode, first, runs, live)
    ensures Resumes(nodes, f, mode, first, After(nodes, f, mode, runs), Made(runs) + Lost(nodes, f, mode, runs), live)
    decreases |runs|
  {
    hide Compatible, Lists, Planned, Target, CanRun, AfterRun, LostBy;
    if runs == [] {
      SameSize(nodes, first, live, f, mode);
    } else {
      var g, next := OneRunLess(nodes, f, mode, first, runs, live);
      RunsResume(nodes, g, mode, next, runs[1..], live);
    }
  }

  /** However often a restore is cut short, the run after it has the same target, and
      counts as applied what was made and the moves that were lost: its progress is true
      if and only if none was. */
  lemma ProgressTrueIff(nodes: seq<PointNode>, f: Forest, mode: Mode, first: seq<LiveNode>, runs: seq<Run>,
      live: seq<LiveNode>, job: JobRecord)
    requires Interrupted(nodes, f, mode, first, runs, live) && job.total == |Planned(nodes, first, mode)|
    ensures Compatible(nodes, After(nodes, f, mode, runs))
    ensures Target(nodes, After(nodes, f, mode, runs), mode) == Target(nodes, f, mode)
    ensures var resumed := StartJob(|Planned(nodes, live, mode)|, Some(job));
      && resumed == JobRecord(Made(runs) + Lost(nodes, f, mode, runs), job.total)
      && (resumed.applied == Made(runs) <==> Lost(nodes, f, mode, runs) == 0)
  {
    hide Compatible, Lists, Planned, Target, Follow;
    RunsResume(nodes, f, mode, first, runs, live);
  }

  /** A run that gets to the end finishes the restore after any number of interrupted
      ones: every node is where the point has it, at the point's position. What was
      made, what was lost and what is still to be made add up to the first plan. */
  lemma LastRunFinishes(nodes: seq<PointNode>, f: Forest, mode: Mode, first: seq<LiveNode>, runs: seq<Run>,
      live: seq<LiveNode>)
    requires Interrupted(nodes, f, mode, first, runs, live)
    ensures
      var ops := Planned(nodes, live, mode);
      && CanApplyAll(After(nodes, f, mode, runs), ops)
      && ApplyAll(After(nodes, f, mode, runs), ops) == Target(nodes, f, mode)
      && Made(runs) + Lost(nodes, f, mode, runs) + |ops| == |Planned(nodes, first, mode)|
  {
    hide Compatible, Lists, Target, Follow, CanApplyAll, ApplyAll, PlanFor, After, Made, Lost;
    RunsResume(nodes, f, mode, first, runs, live);
    RestoreReachesThePoint(nodes, live, After(nodes, f, mode, runs), mode);
  }

  /** Its siblings then stand in the order of their positions if and only if, when it
      starts, those do that it neither puts in a place nor removes, the lost moves' and
      the re-created nodes among them, and it puts no node before a sibling standing out
      of place. */
  lemma LastRunInOrderIff(nodes: seq<PointNode>, f: Forest, mode: Mode, first: seq<LiveNode>, runs: seq<Run>,
      live: seq<LiveNode>, t: Moves.Tree)
    requires Interrupted(nodes, f, mode, first, runs, live)
    requires Starts(nodes, live, After(nodes, f, mode, runs), t)
    ensures var g, ops, target := After(nodes, f, mode, runs), Planned(nodes, live, mode), Target(nodes, f, mode);
      var s := StartSite(nodes, g, mode, ops, t);
      && CanApplyAll(g, ops) && MoveRun.AllReady(s, RunOf(g, ops))
      && var e := MoveRun.End(s, RunOf(g, ops));
        && Mirrors(e.tree, target) && Records(e.recorded, target)
        && (NoTwins(target) ==>
              (InPositionOrder(e.tree, target, {}) <==>
                InPositionOrder(t, g, s.out) && MoveRun.AptRun(s, RunOf(g, ops))))
  {
    hide Compatible, Lists, Target, Follow, Planned, RunOf, InPositionOrder, Starts, StartSite, NoTwins, After;
    hide CanApplyAll, MoveRun.AptRun, MoveRun.AllReady, MoveRun.End, Mirrors, Records, Moves.WellFormed;
    RunsResume(nodes, f, mode, first, runs, live);
    RestoredOrderIff(nodes, live, After(nodes, f, mode, runs), mode, t);
  }
}
