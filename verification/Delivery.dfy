/**
  The phased delivery pipeline: the persisted state, the phase loop with resume, and the
  gated merge, run against an environment that may answer anything and may end the run
  anywhere.
 */
module Delivery {
  import opened Basics
  import opened DeliveryLaw

  /** The environment. `dies` says whether the run ends here, by a crash or an exception. */
  datatype Env = Env(dies: seq<Act> -> bool,
                     gate: (seq<Act>, string) -> int,
                     committed: seq<Act> -> bool,
                     pushed: seq<Act> -> bool,
                     pr: seq<Act> -> Option<Option<int>>,
                     ci: seq<Act> -> CiLoop.Env,
                     answer: seq<Act> -> bool,
                     merged: seq<Act> -> bool,
                     applies: (seq<Act>, string) -> bool,
                     found: seq<Act> -> seq<Finding>,
                     resolve: seq<Act> -> FixLoops.Env,
                     patch: seq<Act> -> seq<FixLoops.Call> -> Option<FixLoops.Reply>)

  datatype Options = Options(engine: Engine, resume: bool, issue: string, phases: seq<string>, yes: bool, isatty: bool,
                             testCmd: string, runner: string, hasGh: bool, maxCiFix: nat, maxPolls: nat,
                             maxResolve: nat, maxPatch: nat)

  /** How a finalization ends, and how a run does. */
  datatype Ending = Merged | AlreadyMerged | Stopped
  datatype Outcome = Refused | Died | Ended(ending: Ending)

  /** The state a run starts from: the persisted one under this issue, or a blank one. */
  ghost function StartsFrom(disk: Option<Doc>, opts: Options): Doc
  {
    match disk
    case None => Doc(opts.issue, [], [], None, None)
    case Some(doc) => doc.(issue := opts.issue, runner := if opts.engine == Python then None else doc.runner)
  }

  class AdwState {
    var issueNumber: string
    var completedPhases: seq<string>
    var reviewFindings: seq<FindingRecord>
    var prNumber: Option<int>
    var runner: Option<string>

    constructor (issue: string)
      ensures ToDoc() == Doc(issue, [], [], None, None)
    {
      issueNumber, completedPhases, reviewFindings, prNumber, runner := issue, [], [], None, None;
    }

    /** Load a persisted state; the Python engine drops the field it does not know. */
    constructor Load(doc: Doc, engine: Engine)
      ensures ToDoc() == if engine == Python then doc.(runner := None) else doc
    {
      issueNumber, completedPhases, reviewFindings, prNumber := doc.issue, doc.completed, doc.findings, doc.pr;
      runner := if engine == Python then None else doc.runner;
    }

    function ToDoc(): Doc
      reads this
    {
      Doc(issueNumber, completedPhases, reviewFindings, prNumber, runner)
    }

    predicate IsDone(phase: string)
      reads this
    {
      phase in completedPhases
    }

    method MarkDone(phase: string)
      modifies this`completedPhases
      ensures completedPhases == Marked(old(completedPhases), phase)
    {
      if phase !in completedPhases {
        completedPhases := completedPhases + [phase];
      }
    }
  }

  // ---------------------------------------------------------------------------
  // Memory, disk and trace
  // ---------------------------------------------------------------------------

  /** Memory and disk agree on progress and findings, and no review is waiting to be saved. */
  ghost predicate InStep(t: seq<Act>, doc: Doc)
  {
    Completed(t) == doc.completed && Known(t) == FromRecords(doc.findings) && Unsaved(t) == None
  }

  /** The state in memory is what was last saved, and sound. */
  ghost predicate Loaded(t: seq<Act>, doc: Doc)
  {
    InStep(t, doc) && NoDuplicates(doc.completed)
  }

  /** Everything on disk agrees with the trace, which is lawful and merges safely. */
  ghost predicate OnDisk(t: seq<Act>, disk: Option<Doc>)
  {
    && Lawful(t) && MergesSafely(t) && disk == LastSaved(t)
    && (disk.Some? ==> NoDuplicates(disk.value.completed) && FromRecords(disk.value.findings) == Known(t))
    && (disk.None? ==> Known(t) == [])
  }

  /** The run goes on: the trace grew, and nothing was begun anew. */
  ghost predicate GoesOn(t: seq<Act>, t': seq<Act>)
  {
    t <= t' && forall i | |t| <= i < |t'| :: !t'[i].Began?
  }

  /** Since `t` no phase was executed. */
  ghost predicate RunsNothing(t: seq<Act>, t': seq<Act>)
  {
    forall j | |t| <= j < |t'| :: !t'[j].Execute?
  }

  /** Since `t` nothing but `phase` was executed, and nothing was recorded before it was. */
  ghost predicate Executes(t: seq<Act>, t': seq<Act>, phase: string)
  {
    forall j | |t| <= j < |t'| && t'[j].Execute? :: t'[j].phase == phase && Completed(t'[..j]) == Completed(t)
  }

  /** Progress and findings are as they were. */
  ghost predicate Same(t: seq<Act>, t': seq<Act>)
  {
    Completed(t) == Completed(t') && Known(t) == Known(t') && Unsaved(t) == Unsaved(t')
  }

  /** The current run began at `b`, with these options. */
  ghost predicate ThisRun(t: seq<Act>, b: nat, opts: Options)
  {
    && b < |t| && t[b] == Began(opts.engine, opts.yes, opts.testCmd)
    && forall i | b < i < |t| :: !t[i].Began?
  }

  /** One more act: no phase, or the first act of this one. */
  lemma StillExecutes(t: seq<Act>, now: seq<Act>, a: Act, phase: string)
    requires t <= now && Executes(t, now, phase)
    requires a.Execute? ==> a.phase == phase && Completed(now) == Completed(t)
    ensures Executes(t, now + [a], phase)
  {
    hide Completed;
    var more := now + [a];
    forall j | |t| <= j < |more| && more[j].Execute?
      ensures more[j].phase == phase && Completed(more[..j]) == Completed(t)
    {
      assert more[..j] == if j < |now| then now[..j] else now;
    }
  }

  lemma StillNothing(t: seq<Act>, phase: string, phases: seq<string>, done: seq<string>)
    ensures Executes(t, t, phase) && RunsNothing(t, t) && InTurn(t, t, phases, done)
  {
  }

  lemma StillThisRun(t: seq<Act>, t': seq<Act>, b: nat, opts: Options)
    requires ThisRun(t, b, opts) && GoesOn(t, t')
    ensures ThisRun(t', b, opts)
  {
    assert forall i | 0 <= i < |t| :: t'[i] == t[i];
  }

  /** One more act keeps merges safe, if a merge among them is justified now. */
  lemma StaysSafe(t: seq<Act>, a: Act)
    requires MergesSafely(t)
    requires a.SquashMerge? ==> exists b: nat, k: nat, ci: seq<CiLoop.Effect> :: Justified(t, b, k, ci)
    ensures MergesSafely(t + [a])
  {
    hide Justified;
    var u := t + [a];
    forall m | 0 <= m < |u| && u[m].SquashMerge?
      ensures exists b: nat, k: nat, ci: seq<CiLoop.Effect> :: Justified(u[..m], b, k, ci)
    {
      assert u[..m] == t[..m];
      assert t[..|t|] == t;
    }
  }

  /** Saving a state that has added to the progress, and nothing else, is lawful. */
  lemma SaveKeeps(t: seq<Act>, disk: Option<Doc>, doc: Doc)
    requires OnDisk(t, disk)
    requires NoDuplicates(doc.completed) && Completed(t) <= doc.completed
    requires FromRecords(doc.findings) == if Unsaved(t).Some? then Unsaved(t).value else Known(t)
    requires forall phase | phase in doc.completed && phase !in Completed(t) :: Earned(t, phase)
    ensures OnDisk(t + [Saved(doc)], Some(doc)) && InStep(t + [Saved(doc)], doc)
  {
    hide MergesSafely;
    Append(t, Saved(doc));
    StaysSafe(t, Saved(doc));
  }

  /** A review just run may be noted, and then saved together with its completion. */
  lemma ReviewKeeps(t: seq<Act>, disk: Option<Doc>, doc: Doc, found: seq<Finding>)
    requires OnDisk(t, disk) && Loaded(t, doc) && "review" !in doc.completed && t != []
    requires t[|t| - 1].Execute? && t[|t| - 1].phase == "review"
    ensures var doc' := doc.(findings := ToRecords(found), completed := Marked(doc.completed, "review"));
      var t' := t + [Reviewed(found)];
      && OnDisk(t', disk) && OnDisk(t' + [Saved(doc')], Some(doc'))
      && Loaded(t' + [Saved(doc')], doc') && Known(t' + [Saved(doc')]) == found && Completed(t') == Completed(t)
  {
    hide Lawful, MergesSafely, LastSaved, Unsaved, Known, FromRecords;
    Append(t, Reviewed(found));
    StaysSafe(t, Reviewed(found));
    FindingsSurvive(found);
    MarkedGrows(doc.completed, "review");
    SaveKeeps(t + [Reviewed(found)], disk,
              doc.(findings := ToRecords(found), completed := Marked(doc.completed, "review")));
  }

  lemma MarkedGrows(completed: seq<string>, phase: string)
    requires NoDuplicates(completed)
    ensures NoDuplicates(Marked(completed, phase)) && completed <= Marked(completed, phase)
    ensures forall p :: p in Marked(completed, phase) <==> p in completed || p == phase
  {
  }

  lemma NothingSaved()
    ensures FromRecords([]) == []
  {
  }

  lemma FourGates(testCmd: string)
    ensures |FinalizeGates(testCmd)| == 4
  {
  }

  /** The stages of a finalization, one after the other, justify a merge. */
  lemma NowJustified(start: seq<Act>, now: seq<Act>, opts: Options, number: Option<int>, doc: Doc,
                     ci: seq<CiLoop.Effect>, b: nat)
    requires ThisRun(start, b, opts) && GoesOn(start, now)
    requires now == start + GreenGates(opts.testCmd) + [Commit(true), Push(true), FoundPr(number), Saved(doc)]
                    + (if number.Some? then [Watch(ci)] else []) + (if opts.yes then [] else [Confirmed(true)])
    requires if number.Some? then CiLoop.Passed(ci) && CiLoop.Orderly(ci) else ci == []
    ensures Justified(now, b, |start|, ci)
  {
    hide FinalizeGates, CiLoop.Passed, CiLoop.Orderly, GreenGates;
    StillThisRun(start, now, b, opts);
    assert now[|start|..] == GreenGates(opts.testCmd) + [Commit(true), Push(true), FoundPr(number), Saved(doc)]
                             + (if number.Some? then [Watch(ci)] else [])
                             + (if opts.yes then [] else [Confirmed(true)]);
    assert ReadyToMerge(now[|start|..], opts.yes, opts.testCmd, number, doc, ci);
  }

  // ---------------------------------------------------------------------------
  // Why a run goes no further
  // ---------------------------------------------------------------------------

  /** The environment ended the run, or an agent threw in a loop. */
  ghost predicate Interrupted(t: seq<Act>, env: Env)
  {
    || env.dies(t)
    || (t != [] && t[|t| - 1].Resolved? && t[|t| - 1].resolving != [] &&
          t[|t| - 1].resolving[|t[|t| - 1].resolving| - 1] == FixLoops.Asked(None))
    || (t != [] && t[|t| - 1].Patched? && t[|t| - 1].calls != [] &&
          t[|t| - 1].calls[|t[|t| - 1].calls| - 1].reply == None)
  }

  /** Something on the way to the merge said no, and it was the last thing to be asked. */
  ghost predicate Hindered(t: seq<Act>, opts: Options, env: Env)
  {
    env.dies(t) || (
      t != [] &&
      match t[|t| - 1]
      case Gate(_, rc) => rc != 0
      case Commit(ok) => !ok
      case Push(ok) => !ok || !opts.hasGh || env.pr(t) == None
      case Watch(ci) => env.ci(t[..|t| - 1]).dies(ci) || !CiLoop.Passed(ci) || (!opts.yes && !opts.isatty)
      case Saved(_) => !opts.yes && !opts.isatty
      case Confirmed(yes) => !yes
      case SquashMerge(ok) => !ok
      case _ => false)
  }

  // ---------------------------------------------------------------------------
  // What the environment was asked and said
  // ---------------------------------------------------------------------------

  /** The test-fix loop ran to its end on that environment's answers. */
  ghost predicate ResolveRan(t: seq<FixLoops.Effect>, env: FixLoops.Env, maxAttempts: nat)
  {
    && FixLoops.TakesTurns(t) && FixLoops.Told(t, env) && 1 <= |t| <= 2 * maxAttempts + 1
    && (t[|t| - 1] == FixLoops.Ran(0) || |t| == 2 * maxAttempts + 1 ||
        t[|t| - 1] == FixLoops.Asked(None) || t[|t| - 1] == FixLoops.Asked(Some(0)))
  }

  /** The patch loop ran to its end over the blockers among `findings`, on that agent's replies. */
  ghost predicate PatchRan(calls: seq<FixLoops.Call>, env: seq<FixLoops.Call> -> Option<FixLoops.Reply>,
                           findings: seq<Finding>, maxAttempts: nat)
  {
    var blockers := FixLoops.Blockers(findings);
    && FixLoops.Patches(blockers, calls) && FixLoops.Replied(calls, env) && |calls| <= maxAttempts
    && (calls == [] <==> blockers == [] || maxAttempts == 0)
    && (FixLoops.Left(blockers, calls, |calls|) == 0 || |calls| == maxAttempts ||
        !FixLoops.Progresses(blockers, calls, |calls| - 1))
  }

  /** CI was watched to the end, or until cut off, on that environment's answers. */
  ghost predicate WatchRan(ci: seq<CiLoop.Effect>, env: CiLoop.Env, maxCiFix: nat, maxPolls: nat)
  {
    && CiLoop.InPlace(ci) && CiLoop.Told(ci, env)
    && (env.dies(ci) || CiLoop.Passed(ci) || CiLoop.GaveUp(ci, maxCiFix, maxPolls))
    && CiLoop.Count(ci, CiLoop.AgentCall) <= maxCiFix
    && CiLoop.Count(ci, CiLoop.AnyPoll) <= maxPolls * (maxCiFix + 1) + maxCiFix + 4
  }

  /** The act is what the environment answers to everything before it, within the limits given. */
  ghost predicate Answers(past: seq<Act>, a: Act, opts: Options, env: Env)
  {
    match a
    case Asked(phase, applies) => applies == env.applies(past, phase)
    case Reviewed(found) => found == env.found(past)
    case Resolved(t) => ResolveRan(t, env.resolve(past), opts.maxResolve)
    case Patched(calls) =>
      && past != [] && past[|past| - 1].Execute?
      && PatchRan(calls, env.patch(past), past[|past| - 1].findings, opts.maxPatch)
    case Gate(cmd, rc) => rc == env.gate(past, cmd)
    case Commit(ok) => ok == env.committed(past)
    case Push(ok) => ok == env.pushed(past)
    case FoundPr(number) => env.pr(past) == Some(number)
    case Watch(ci) => WatchRan(ci, env.ci(past), opts.maxCiFix, opts.maxPolls)
    case Confirmed(answer) => answer == env.answer(past)
    case SquashMerge(ok) => ok == env.merged(past)
    case _ => true
  }

  /** Nothing since `start` was made up. */
  ghost predicate Told(start: nat, t: seq<Act>, opts: Options, env: Env)
  {
    start <= |t| && forall j | start <= j < |t| :: Answers(t[..j], t[j], opts, env)
  }

  lemma ToldPush(start: nat, t: seq<Act>, a: Act, opts: Options, env: Env)
    requires Told(start, t, opts, env) && Answers(t, a, opts, env)
    ensures Told(start, t + [a], opts, env)
  {
    hide Answers;
    var u := t + [a];
    forall j | start <= j < |u|
      ensures Answers(u[..j], u[j], opts, env)
    {
      assert u[..j] == if j < |t| then t[..j] else t;
    }
  }

  /** What was told since `start` and what was told after that. */
  lemma ToldOn(start: nat, t: seq<Act>, t': seq<Act>, opts: Options, env: Env)
    requires Told(start, t, opts, env) && t <= t' && Told(|t|, t', opts, env)
    ensures Told(start, t', opts, env)
  {
    hide Answers;
    forall j | start <= j < |t'|
      ensures Answers(t'[..j], t'[j], opts, env)
    {
      if j < |t| {
        assert t'[..j] == t[..j] && t'[j] == t[j];
      }
    }
  }

  lemma ToldNothing(t: seq<Act>, opts: Options, env: Env)
    ensures Told(|t|, t, opts, env)
  {
  }

  // ---------------------------------------------------------------------------
  // What a run does
  // ---------------------------------------------------------------------------

  /** A run is refused for an unknown phase, for a state it would clobber, and for another issue's. */
  ghost predicate Refuses(t: seq<Act>, opts: Options)
  {
    || (exists phase | phase in opts.phases :: phase !in AGENT_PHASES)
    || (LastSaved(t).Some? &&
        (!opts.resume || (LastSaved(t).value.issue != "" && LastSaved(t).value.issue != opts.issue)))
  }

  /** The run notes its beginning, once, unless it is asked for a phase that it does not know. */
  ghost predicate BeginsOnce(t: seq<Act>, t': seq<Act>, opts: Options)
  {
    if exists phase | phase in opts.phases :: phase !in AGENT_PHASES then t' == t
    else
      && |t| < |t'| && t'[|t|] == Began(opts.engine, opts.yes, opts.testCmd)
      && forall i | |t| < i < |t'| :: !t'[i].Began?
  }

  /** One run took the trace from `t` to `t'` and ended with `r`. */
  ghost predicate RunDid(t: seq<Act>, t': seq<Act>, opts: Options, env: Env, r: Outcome)
  {
    && t <= t' && BeginsOnce(t, t', opts) && Told(|t|, t', opts, env)
    && (r == Refused <==> Refuses(t, opts))
    && (r == Refused ==> Completed(t') == Completed(t))
    && (r == Died ==>
          Interrupted(t', env) && Completed(t) <= Completed(t') <= Progress(Completed(t), opts.phases))
    && (r == Ended(Stopped) ==> Hindered(t', opts, env))
    && (r.Ended? ==>
          Completed(t') == Progress(Completed(t), opts.phases) + if r.ending == Merged then ["merge"] else [])
    && (r.Ended? && r.ending != Stopped ==> "merge" in Completed(t'))
    && PhasesInTurn(|t|, t', opts.phases, Marked(Completed(t), "setup"))
    && (ReviewFirst(opts.phases) ==> PatchesTheReview(|t|, t'))
  }

  class Pipeline {
    var disk: Option<Doc>
    var trace: seq<Act>

    ghost predicate Valid()
      reads this
    {
      OnDisk(trace, disk)
    }

    constructor ()
      ensures Valid() && trace == []
    {
      disk, trace := None, [];
    }

    /** Note an act that touches neither progress nor findings. */
    method Do(a: Act, ghost start: nat, ghost opts: Options, ghost env: Env)
      requires Told(start, trace, opts, env) && Answers(trace, a, opts, env)
      requires Valid() && Allowed(trace, a) && !a.Saved? && !a.Reviewed? && !a.Began?
      requires a.SquashMerge? ==> exists b: nat, k: nat, ci: seq<CiLoop.Effect> :: Justified(trace, b, k, ci)
      modifies this`trace
      ensures Valid() && trace == old(trace) + [a] && Told(start, trace, opts, env)
      ensures Completed(trace) == old(Completed(trace)) && Known(trace) == old(Known(trace))
      ensures Unsaved(trace) == old(Unsaved(trace))
    {
      hide MergesSafely, Allowed, Justified, Told, Answers;
      ToldPush(start, trace, a, opts, env);
      Append(trace, a);
      StaysSafe(trace, a);
      trace := trace + [a];
    }

    /** Save the state as it stands. */
    method Save(state: AdwState, ghost start: nat, ghost opts: Options, ghost env: Env)
      requires Told(start, trace, opts, env)
      requires Valid() && NoDuplicates(state.completedPhases) && Completed(trace) == state.completedPhases
      requires Unsaved(trace) == None && Known(trace) == FromRecords(state.reviewFindings)
      modifies this
      ensures Valid() && trace == old(trace) + [Saved(state.ToDoc())] && Loaded(trace, state.ToDoc())
      ensures Told(start, trace, opts, env)
    {
      ToldPush(start, trace, Saved(state.ToDoc()), opts, env);
      hide Told, Lawful, MergesSafely, LastSaved, Unsaved, Known, FromRecords;
      SaveKeeps(trace, disk, state.ToDoc());
      disk := Some(state.ToDoc());
      trace := trace + [Saved(state.ToDoc())];
    }

    /** Record `phase` as completed and save. */
    method Complete(state: AdwState, phase: string, ghost start: nat, ghost opts: Options, ghost env: Env)
      requires Told(start, trace, opts, env)
      requires Valid() && phase != "review" && Loaded(trace, state.ToDoc())
      requires state.IsDone(phase) || Earned(trace, phase)
      modifies this, state`completedPhases
      ensures Valid() && Loaded(trace, state.ToDoc())
      ensures trace == old(trace) + [Saved(state.ToDoc())]
      ensures state.completedPhases == Marked(old(state.completedPhases), phase) && Told(start, trace, opts, env)
    {
      hide Told, Lawful, MergesSafely, LastSaved, Unsaved, Known, FromRecords;
      MarkedGrows(state.completedPhases, phase);
      state.MarkDone(phase);
      ToldPush(start, trace, Saved(state.ToDoc()), opts, env);
      SaveKeeps(trace, disk, state.ToDoc());
      disk := Some(state.ToDoc());
      trace := trace + [Saved(state.ToDoc())];
    }

    // -------------------------------------------------------------------------
    // Phases
    // -------------------------------------------------------------------------

    /** Run the review, keep what it finds, record it as completed and save. */
    method Review(state: AdwState, opts: Options, env: Env) returns (found: Option<seq<Finding>>)
      requires Valid() && Loaded(trace, state.ToDoc()) && !state.IsDone("review")
      modifies this, state
      ensures Valid() && GoesOn(old(trace), trace)
      ensures found.Some? ==> Loaded(trace, state.ToDoc()) && Known(trace) == found.value
      ensures found.Some? ==> state.completedPhases == old(state.completedPhases) + ["review"]
      ensures Executes(old(trace), trace, "review") && Told(|old(trace)|, trace, opts, env)
      ensures found.None? ==> env.dies(trace) && Completed(trace) == old(Completed(trace))
    {
      hide OnDisk, Completed, Unsaved, Known, FromRecords, NoDuplicates, ToRecords, Executes, Told;
      ToldNothing(trace, opts, env);
      ghost var start := trace;
      StillNothing(start, "review", [], []);
      Do(Execute("review", []), |old(trace)|, opts, env);
      StillExecutes(start, start, Execute("review", []), "review");
      if env.dies(trace) {
        return None;
      }
      var result := env.found(trace);
      ReviewKeeps(trace, disk, state.ToDoc(), result);
      StillExecutes(start, trace, Reviewed(result), "review");
      ToldPush(|start|, trace, Reviewed(result), opts, env);
      trace := trace + [Reviewed(result)];
      if env.dies(trace) {
        return None;
      }
      state.reviewFindings := ToRecords(result);
      state.MarkDone("review");
      disk := Some(state.ToDoc());
      StillExecutes(start, trace, Saved(state.ToDoc()), "review");
      ToldPush(|start|, trace, Saved(state.ToDoc()), opts, env);
      trace := trace + [Saved(state.ToDoc())];
      return Some(result);
    }

    /** The test-fix loop; its verdict does not stop the run, an agent that throws does. */
    method Resolve(opts: Options, env: Env) returns (alive: bool)
      requires Valid() && "resolve" !in Completed(trace)
      modifies this`trace
      ensures Valid() && GoesOn(old(trace), trace) && Same(old(trace), trace)
      ensures Executes(old(trace), trace, "resolve") && Told(|old(trace)|, trace, opts, env)
      ensures alive ==> Earned(trace, "resolve")
      ensures !alive ==> Interrupted(trace, env)
    {
      hide OnDisk, Known, Unsaved, Completed, FixLoops.TakesTurns, FixLoops.Told, Executes, Told;
      ToldNothing(trace, opts, env);
      ghost var start := trace;
      StillNothing(start, "resolve", [], []);
      Do(Execute("resolve", []), |old(trace)|, opts, env);
      StillExecutes(start, start, Execute("resolve", []), "resolve");
      var _, t := FixLoops.ResolveLoop(env.resolve(trace), opts.maxResolve);
      StillExecutes(start, trace, Resolved(t), "resolve");
      Do(Resolved(t), |old(trace)|, opts, env);
      alive := t[|t| - 1] != FixLoops.Asked(None);
    }

    /** The patch loop over the blockers among `findings`; as before, only an agent that throws stops the run. */
    method Patch(findings: seq<Finding>, opts: Options, env: Env) returns (alive: bool)
      requires Valid() && "patch" !in Completed(trace) && findings == Known(trace)
      modifies this`trace
      ensures Valid() && GoesOn(old(trace), trace) && Same(old(trace), trace)
      ensures Executes(old(trace), trace, "patch") && Told(|old(trace)|, trace, opts, env)
      ensures alive ==> Earned(trace, "patch")
      ensures !alive ==> Interrupted(trace, env)
    {
      hide OnDisk, Known, Unsaved, Completed, FixLoops.Patches, FixLoops.Replied, FixLoops.Blockers, Executes, Told;
      ToldNothing(trace, opts, env);
      ghost var start := trace;
      StillNothing(start, "patch", [], []);
      Do(Execute("patch", findings), |old(trace)|, opts, env);
      StillExecutes(start, start, Execute("patch", findings), "patch");
      var _, calls := FixLoops.PatchLoop(env.patch(trace), findings, opts.maxPatch);
      StillExecutes(start, trace, Patched(calls), "patch");
      Do(Patched(calls), |old(trace)|, opts, env);
      alive := calls == [] || calls[|calls| - 1].reply != None;
    }

    /** A phase that is one call of the agent, if it applies. */
    method Plain(phase: string, opts: Options, env: Env)
      requires Valid() && phase !in Completed(trace) && phase in AGENT_PHASES
      requires phase != "review" && phase != "resolve" && phase != "patch"
      modifies this`trace
      ensures Valid() && GoesOn(old(trace), trace) && Same(old(trace), trace) && Earned(trace, phase)
      ensures Executes(old(trace), trace, phase) && Told(|old(trace)|, trace, opts, env)
    {
      hide OnDisk, Known, Unsaved, Completed, Executes, Told;
      ToldNothing(trace, opts, env);
      assert phase != "merge";
      ghost var start := trace;
      StillNothing(start, phase, [], []);
      var applies := true;
      if phase in CONDITIONAL_PHASES {
        applies := env.applies(trace, phase);
        Do(Asked(phase, applies), |old(trace)|, opts, env);
        StillExecutes(start, start, Asked(phase, applies), phase);
      }
      if applies {
        StillExecutes(start, trace, Execute(phase, []), phase);
        Do(Execute(phase, []), |old(trace)|, opts, env);
      }
    }

    /** One phase that is not yet completed; `review` is what this run's own review found. */
    method RunPhase(state: AdwState, phase: string, review: Option<seq<Finding>>, opts: Options, env: Env)
      returns (alive: bool, review': Option<seq<Finding>>)
      requires Valid() && Loaded(trace, state.ToDoc()) && !state.IsDone(phase) && phase in AGENT_PHASES
      requires review.Some? ==> review.value == Known(trace)
      modifies this, state
      ensures Valid() && GoesOn(old(trace), trace)
      ensures alive ==> Loaded(trace, state.ToDoc()) && (review'.Some? ==> review'.value == Known(trace))
      ensures alive ==> state.completedPhases == old(state.completedPhases) + [phase]
      ensures Executes(old(trace), trace, phase) && Told(|old(trace)|, trace, opts, env)
      ensures !alive ==> Interrupted(trace, env) && Completed(trace) == old(Completed(trace))
    {
      hide Unsaved, Known, FromRecords, OnDisk, Completed, Earned, Interrupted, Executes, Told;
      review' := review;
      if phase == "review" {
        review' := Review(state, opts, env);
        DeadIsInterrupted(trace, env);
        return review'.Some?, review';
      }
      alive := true;
      if phase == "resolve" {
        alive := Resolve(opts, env);
      } else if phase == "patch" {
        var findings := if review.Some? then review.value else FromRecords(state.reviewFindings);
        alive := Patch(findings, opts, env);
      } else {
        Plain(phase, opts, env);
      }
      if !alive || env.dies(trace) {
        DeadIsInterrupted(trace, env);
        return false, review';
      }
      ghost var before := trace;
      Complete(state, phase, |old(trace)|, opts, env);
      StillExecutes(old(trace), before, Saved(state.ToDoc()), phase);
      return true, review';
    }

    /**
      The phase loop: what is completed is skipped, what is not is run and recorded, in the
      order of the list.
     */
    method RunPhases(state: AdwState, opts: Options, env: Env) returns (alive: bool)
      requires Valid() && Loaded(trace, state.ToDoc()) && forall phase | phase in opts.phases :: phase in AGENT_PHASES
      modifies this, state
      ensures Valid() && GoesOn(old(trace), trace)
      ensures alive ==>
        && Loaded(trace, state.ToDoc())
        && state.completedPhases ==
             old(state.completedPhases) + Outstanding(opts.phases, old(state.completedPhases))
      ensures InTurn(old(trace), trace, opts.phases, old(state.completedPhases)) && Told(|old(trace)|, trace, opts, env)
      ensures !alive ==>
        && Interrupted(trace, env)
        && exists n | 0 <= n < |opts.phases| :: Completed(trace) ==
             old(state.completedPhases) + Outstanding(opts.phases[..n], old(state.completedPhases))
    {
      hide OnDisk, Known, Unsaved, Completed, FromRecords, NoDuplicates, Interrupted, Told;
      ToldNothing(trace, opts, env);
      ghost var done := state.completedPhases;
      var review: Option<seq<Finding>> := None;
      var phases := opts.phases;
      for i := 0 to |phases|
        invariant Valid() && GoesOn(old(trace), trace) && Loaded(trace, state.ToDoc())
        invariant review.Some? ==> review.value == Known(trace)
        invariant state.completedPhases == done + Outstanding(phases[..i], done)
        invariant InTurn(old(trace), trace, phases, done) && Told(|old(trace)|, trace, opts, env)
      {
        assert phases[i] in phases && phases[..i + 1][..i] == phases[..i];
        OutstandingIs(phases[..i], done);
        if !state.IsDone(phases[i]) {
          ghost var before := trace;
          alive, review := RunPhase(state, phases[i], review, opts, env);
          StillInTurn(old(trace), before, trace, phases, done, i);
          ToldOn(|old(trace)|, before, trace, opts, env);
          if !alive {
            return;
          }
        }
      }
      assert phases[..|phases|] == phases;
      alive := true;
    }

    // -------------------------------------------------------------------------
    // Finalize and merge
    // -------------------------------------------------------------------------

    /** Run the four gates, stopping at the first that fails. */
    method RunGates(opts: Options, env: Env) returns (ok: bool)
      requires Valid()
      modifies this`trace
      ensures Valid() && GoesOn(old(trace), trace) && Same(old(trace), trace) && RunsNothing(old(trace), trace)
      ensures Told(|old(trace)|, trace, opts, env)
      ensures ok ==> trace == old(trace) + GreenGates(opts.testCmd)
      ensures !ok ==>
        |old(trace)| < |trace| && trace[|trace| - 1].Gate? && (trace[|trace| - 1].rc != 0 || env.dies(trace))
    {
      hide OnDisk, Known, Unsaved, Completed, FinalizeGates, Told;
      ToldNothing(trace, opts, env);
      ghost var start := trace;
      var gates := FinalizeGates(opts.testCmd);
      FourGates(opts.testCmd);
      for i := 0 to 4
        invariant Valid() && Same(start, trace) && Told(|start|, trace, opts, env)
        invariant trace == start + seq(i, j requires 0 <= j < i => Gate(gates[j], 0))
      {
        var rc := env.gate(trace, gates[i]);
        Do(Gate(gates[i], rc), |old(trace)|, opts, env);
        if rc != 0 || env.dies(trace) {
          return false;
        }
      }
      ok := true;
    }

    /** Commit, push, and find or open the pull request. */
    method Publish(state: AdwState, opts: Options, env: Env) returns (ok: bool)
      requires Valid() && Loaded(trace, state.ToDoc())
      modifies this, state
      ensures Valid() && GoesOn(old(trace), trace) && Completed(trace) == old(Completed(trace))
      ensures RunsNothing(old(trace), trace) && Told(|old(trace)|, trace, opts, env)
      ensures ok ==>
        && Loaded(trace, state.ToDoc()) && state.completedPhases == old(state.completedPhases)
        && trace == old(trace) + [Commit(true), Push(true), FoundPr(state.prNumber), Saved(state.ToDoc())]
      ensures !ok ==>
        || (env.dies(trace) && old(trace) < trace)
        || trace == old(trace) + [Commit(false)] || trace == old(trace) + [Commit(true), Push(false)]
        || (trace == old(trace) + [Commit(true), Push(true)] && (!opts.hasGh || env.pr(trace).None?))
    {
      hide OnDisk, Unsaved, Known, FromRecords, Completed, Told;
      ToldNothing(trace, opts, env);
      var committed := env.committed(trace);
      Do(Commit(committed), |old(trace)|, opts, env);
      if !committed || env.dies(trace) {
        return false;
      }
      var pushed := env.pushed(trace);
      Do(Push(pushed), |old(trace)|, opts, env);
      if !pushed || env.dies(trace) || !opts.hasGh {
        return false;
      }
      var reply := env.pr(trace);
      if reply.None? {
        return false;
      }
      state.prNumber := reply.value;
      Do(FoundPr(state.prNumber), |old(trace)|, opts, env);
      if env.dies(trace) {
        return false;
      }
      Save(state, |old(trace)|, opts, env);
      ok := !env.dies(trace);
    }

    /** Watch CI if the pull request has a number, then ask for confirmation unless it was given beforehand. */
    method Authorise(number: Option<int>, opts: Options, env: Env) returns (ok: bool, ci: seq<CiLoop.Effect>)
      requires Valid()
      modifies this`trace
      ensures Valid() && GoesOn(old(trace), trace) && Same(old(trace), trace) && RunsNothing(old(trace), trace)
      ensures ok ==> trace == old(trace) + (if number.Some? then [Watch(ci)] else [])
                              + (if opts.yes then [] else [Confirmed(true)])
      ensures Told(|old(trace)|, trace, opts, env)
      ensures ok ==> if number.Some? then CiLoop.Passed(ci) && CiLoop.Orderly(ci) else ci == []
      ensures !ok ==>
        || (env.dies(trace) && old(trace) < trace)
        || (!opts.yes && !opts.isatty && trace == old(trace) + (if number.Some? then [Watch(ci)] else []))
        || (|old(trace)| < |trace| && trace[|trace| - 1] == Confirmed(false))
        || (trace == old(trace) + [Watch(ci)] && (!CiLoop.Passed(ci) || env.ci(old(trace)).dies(ci)))
    {
      hide OnDisk, Known, Unsaved, Completed, CiLoop.Passed, CiLoop.Orderly, CiLoop.InPlace, CiLoop.Told, CiLoop.GaveUp,
        CiLoop.Count, Told;
      ToldNothing(trace, opts, env);
      ghost var start := trace;
      assert start + [] == start;
      ci := [];
      if number.Some? {
        var verdict;
        verdict, ci := CiLoop.CiFixLoop(env.ci(trace), opts.maxCiFix, opts.maxPolls);
        Do(Watch(ci), |old(trace)|, opts, env);
        if verdict != CiLoop.Pass || env.dies(trace) {
          return false, ci;
        }
      }
      assert trace == start + (if number.Some? then [Watch(ci)] else []) + [];
      if !opts.yes {
        if !opts.isatty {
          return false, ci;
        }
        var answer := env.answer(trace);
        Do(Confirmed(answer), |old(trace)|, opts, env);
        return answer && !env.dies(trace), ci;
      }
      ok := true;
    }

    /** Everything up to the merge itself, in a run begun at `b`. */
    method Qualify(state: AdwState, opts: Options, env: Env, ghost b: nat) returns (ok: bool)
      requires Valid() && Loaded(trace, state.ToDoc()) && ThisRun(trace, b, opts)
      modifies this, state
      ensures Valid() && GoesOn(old(trace), trace) && Completed(trace) == old(Completed(trace))
      ensures RunsNothing(old(trace), trace) && Told(|old(trace)|, trace, opts, env)
      ensures ok ==> exists ci: seq<CiLoop.Effect> :: Justified(trace, b, |old(trace)|, ci)
      ensures ok ==> Loaded(trace, state.ToDoc()) && state.completedPhases == old(state.completedPhases)
      ensures !ok ==> Hindered(trace, opts, env)
    {
      hide OnDisk, Known, Unsaved, Completed, CiLoop.Passed, CiLoop.Orderly, FinalizeGates, FromRecords, GreenGates,
        Justified, Told;
      ghost var start := trace;
      ok := RunGates(opts, env);
      if !ok {
        return;
      }
      ghost var gated := trace;
      ok := Publish(state, opts, env);
      ToldOn(|start|, gated, trace, opts, env);
      if !ok {
        return;
      }
      ghost var published := trace;
      var ci;
      ok, ci := Authorise(state.prNumber, opts, env);
      ToldOn(|start|, published, trace, opts, env);
      if ok {
        NowJustified(start, trace, opts, state.prNumber, state.ToDoc(), ci, b);
      } else {
        NotAuthorised(published, trace, opts, env, state.prNumber, state.ToDoc(), ci);
      }
    }

    /**
      The gated merge of a run begun at `b`: it merges and records it, unless that was done
      before or something on the way said no.
     */
    method FinalizeAndMerge(state: AdwState, opts: Options, env: Env, ghost b: nat) returns (r: Ending)
      requires Valid() && Loaded(trace, state.ToDoc()) && ThisRun(trace, b, opts)
      modifies this, state
      ensures Valid() && GoesOn(old(trace), trace)
      ensures RunsNothing(old(trace), trace) && Told(|old(trace)|, trace, opts, env)
      ensures r == AlreadyMerged <==> old(state.IsDone("merge"))
      ensures r == AlreadyMerged ==> trace == old(trace)
      ensures r == Merged ==>
        && |trace| >= 2 && trace[|trace| - 2..] == [SquashMerge(true), Saved(state.ToDoc())]
        && Completed(trace) == old(Completed(trace)) + ["merge"]
      ensures r == Stopped ==> Hindered(trace, opts, env) && Completed(trace) == old(Completed(trace))
    {
      hide OnDisk, Known, Unsaved, Completed, FromRecords, Justified, CiLoop.Passed, Told;
      ToldNothing(trace, opts, env);
      if state.IsDone("merge") {
        return AlreadyMerged;
      }
      var ok := Qualify(state, opts, env, b);
      if !ok || env.dies(trace) {
        return Stopped;
      }
      var merged := env.merged(trace);
      Do(SquashMerge(merged), |old(trace)|, opts, env);
      if !merged || env.dies(trace) {
        return Stopped;
      }
      Complete(state, "merge", |old(trace)|, opts, env);
      return Merged;
    }

    // -------------------------------------------------------------------------
    // A run
    // -------------------------------------------------------------------------

    /** Mint a fresh state or resume the persisted one; a mismatch or a clobber is refused. */
    method ResolveState(opts: Options, ghost env: Env) returns (state: AdwState?)
      requires Valid() && Unsaved(trace) == None
      modifies this
      ensures Valid() && GoesOn(old(trace), trace)
      ensures state != null ==> fresh(state) && Loaded(trace, state.ToDoc()) && state.issueNumber == opts.issue
      ensures state != null ==> state.completedPhases == old(Completed(trace))
      ensures state == null ==> trace == old(trace)
      ensures (forall j | |old(trace)| <= j < |trace| :: trace[j].Saved?) && Told(|old(trace)|, trace, opts, env)
      ensures state != null ==> state.ToDoc() == StartsFrom(old(disk), opts)
      ensures state == null <==>
        old(disk).Some? && (!opts.resume || (old(disk).value.issue != "" && old(disk).value.issue != opts.issue))
    {
      hide Lawful, MergesSafely, LastSaved, Unsaved, Known, FromRecords, Told;
      ToldNothing(trace, opts, env);
      if !opts.resume && disk.Some? {
        return null;
      }
      if disk.Some? {
        state := new AdwState.Load(disk.value, opts.engine);
        if state.issueNumber != "" && state.issueNumber != opts.issue {
          return null;
        }
      } else {
        state := new AdwState(opts.issue);
        NothingSaved();
      }
      state.issueNumber := opts.issue;
      Save(state, |old(trace)|, opts, env);
    }

    /** Record which engine and runner drive the run, and set up the branch once. */
    method SetUp(state: AdwState, opts: Options, env: Env) returns (alive: bool)
      requires Valid() && Loaded(trace, state.ToDoc())
      modifies this, state
      ensures Valid() && GoesOn(old(trace), trace)
      ensures alive ==>
        Loaded(trace, state.ToDoc()) && state.completedPhases == Marked(old(state.completedPhases), "setup")
      ensures Executes(old(trace), trace, "setup") && Told(|old(trace)|, trace, opts, env)
      ensures alive ==> state.runner == if opts.engine == TypeScript then Some(opts.runner) else old(state.runner)
      ensures !alive ==> env.dies(trace) && Completed(trace) == old(Completed(trace))
    {
      hide OnDisk, Unsaved, Known, FromRecords, Completed, NoDuplicates, Executes, Told;
      ToldNothing(trace, opts, env);
      ghost var start := trace;
      StillNothing(start, "setup", [], []);
      if opts.engine == TypeScript {
        state.runner := Some(opts.runner);
        Save(state, |old(trace)|, opts, env);
        StillExecutes(start, start, Saved(state.ToDoc()), "setup");
      }
      if !state.IsDone("setup") {
        StillExecutes(start, trace, Execute("setup", []), "setup");
        Do(Execute("setup", []), |old(trace)|, opts, env);
        if env.dies(trace) {
          return false;
        }
        ghost var doc := state.ToDoc().(completed := Marked(state.completedPhases, "setup"));
        StillExecutes(start, trace, Saved(doc), "setup");
        Complete(state, "setup", |old(trace)|, opts, env);
      }
      return true;
    }

    method Begin(opts: Options)
      requires Valid()
      modifies this`trace
      ensures Valid() && Unsaved(trace) == None && disk == old(disk) && Completed(trace) == old(Completed(trace))
      ensures trace == old(trace) + [Began(opts.engine, opts.yes, opts.testCmd)]
    {
      hide MergesSafely;
      var a := Began(opts.engine, opts.yes, opts.testCmd);
      Append(trace, a);
      StaysSafe(trace, a);
      trace := trace + [a];
    }

    /** The setup, the phases in the order of the list, and the merge, in a run begun at `b`. */
    method Deliver(state: AdwState, opts: Options, env: Env, ghost b: nat) returns (r: Outcome)
      requires Valid() && Loaded(trace, state.ToDoc()) && ThisRun(trace, b, opts)
      requires forall phase | phase in opts.phases :: phase in AGENT_PHASES
      modifies this, state
      ensures Valid() && GoesOn(old(trace), trace) && r != Refused && Told(|old(trace)|, trace, opts, env)
      ensures r == Died ==> Interrupted(trace, env)
      ensures r == Ended(Stopped) ==> Hindered(trace, opts, env)
      ensures r.Ended? ==>
        Completed(trace) == Progress(old(Completed(trace)), opts.phases) + if r.ending == Merged then ["merge"] else []
      ensures r == Died ==> old(Completed(trace)) <= Completed(trace) <= Progress(old(Completed(trace)), opts.phases)
      ensures r.Ended? && r.ending != Stopped ==> "merge" in Completed(trace)
      ensures PhasesInTurn(|old(trace)|, trace, opts.phases, Marked(old(Completed(trace)), "setup"))
    {
      hide Interrupted, Hindered, Unsaved, InStep, Completed, OnDisk, Outstanding, Executes, InTurn, PhasesInTurn,
        RunsNothing, Marked, NoDuplicates, Told;
      ghost var start, completed := trace, Completed(trace);
      ghost var done := Marked(completed, "setup");
      LoadedIsCompleted(trace, state.ToDoc());
      ProgressCovers(completed, opts.phases, 0);
      var alive := SetUp(state, opts, env);
      ghost var ready := trace;
      StillNothing(ready, "setup", opts.phases, done);
      if !alive {
        DeadIsInterrupted(trace, env);
        NothingOutOfTurn(start, ready, ready, ready, opts.phases, done);
        return Died;
      }
      alive := RunPhases(state, opts, env);
      ghost var through := trace;
      ToldOn(|start|, ready, through, opts, env);
      StillNothing(through, "setup", opts.phases, done);
      if !alive {
        NothingOutOfTurn(start, ready, through, through, opts.phases, done);
        ghost var n :| 0 <= n < |opts.phases| && Completed(trace) == done + Outstanding(opts.phases[..n], done);
        ProgressCovers(completed, opts.phases, n);
        return Died;
      }
      StillThisRun(start, trace, b, opts);
      LoadedIsCompleted(trace, state.ToDoc());
      assert Completed(trace) + [] == Completed(trace);
      var ending := FinalizeAndMerge(state, opts, env, b);
      ToldOn(|start|, through, trace, opts, env);
      NothingOutOfTurn(start, ready, through, trace, opts.phases, done);
      return Ended(ending);
    }

    /**
      One run of the pipeline, by either engine, to wherever it gets. It ends merged, with
      every requested phase recorded in the order of the list, unless it was refused, died,
      or was hindered on the way to the merge. Phases are executed in their turn, so that a
      patch listed after a review works on what it found. Every merge it makes, and every
      earlier one, came after all that a merge requires.
     */
    method Run(opts: Options, env: Env) returns (r: Outcome)
      requires Valid()
      modifies this
      ensures Valid() && Lawful(trace) && MergesSafely(trace) && RunDid(old(trace), trace, opts, env, r)
    {
      hide Interrupted, Hindered, Unsaved, InStep, Completed, Lawful, MergesSafely, Known, Outstanding, ReviewFirst,
        PhasesInTurn, PatchesTheReview, Marked, Progress, Told;
      ToldNothing(trace, opts, env);
      ghost var start, done := trace, Marked(Completed(trace), "setup");
      NoPhases(trace, opts.phases, done);
      if exists phase | phase in opts.phases :: phase !in AGENT_PHASES {
        return Refused;
      }
      ToldPush(|start|, trace, Began(opts.engine, opts.yes, opts.testCmd), opts, env);
      Begin(opts);
      ghost var begun := trace;
      ghost var b := |trace| - 1;
      var state := ResolveState(opts, env);
      ToldOn(|start|, begun, trace, opts, env);
      BeginsWithNothing(start, begun, trace);
      NoPhasesYet(start, trace, opts.phases, done);
      if state == null {
        return Refused;
      }
      StillThisRun(begun, trace, b, opts);
      LoadedIsCompleted(trace, state.ToDoc());
      ghost var resolved := trace;
      r := Deliver(state, opts, env, b);
      ToldOn(|start|, resolved, trace, opts, env);
      PhasesFollow(start, resolved, trace, opts.phases, done);
    }

    /**
      Any number of runs, by either engine in any order, one after the other: each does what
      a run does to what the ones before it left, all keep the law, and every merge is safe.
     */
    method RunAll(runs: seq<(Options, Env)>) returns (outcomes: seq<Outcome>, ghost traces: seq<seq<Act>>)
      requires Valid()
      modifies this
      ensures Valid() && Lawful(trace) && MergesSafely(trace)
      ensures |outcomes| == |runs| && |traces| == |runs| + 1 && traces[0] == old(trace) && traces[|runs|] == trace
      ensures forall i | 0 <= i < |runs| :: RunDid(traces[i], traces[i + 1], runs[i].0, runs[i].1, outcomes[i])
    {
      hide Lawful, MergesSafely, LastSaved, Known, FromRecords, RunDid;
      outcomes, traces := [], [trace];
      for i := 0 to |runs|
        invariant Valid() && |outcomes| == i && |traces| == i + 1 && traces[0] == old(trace) && traces[i] == trace
        invariant forall j | 0 <= j < i :: RunDid(traces[j], traces[j + 1], runs[j].0, runs[j].1, outcomes[j])
      {
        var r := Run(runs[i].0, runs[i].1);
        outcomes, traces := outcomes + [r], traces + [trace];
      }
    }
  }

  /** Running the next phase of the list keeps the order. */
  lemma StillInTurn(start: seq<Act>, before: seq<Act>, now: seq<Act>, phases: seq<string>, done: seq<string>, n: nat)
    requires start <= before <= now && n < |phases|
    requires InTurn(start, before, phases, done) && Executes(before, now, phases[n])
    requires Completed(before) == done + Outstanding(phases[..n], done)
    ensures InTurn(start, now, phases, done)
  {
    hide Completed, Outstanding;
    forall j | |start| <= j < |now| && now[j].Execute?
      ensures ItsTurn(now[..j], now[j].phase, phases, done)
    {
      if j < |before| {
        assert now[..j] == before[..j] && now[j] == before[j];
      }
    }
  }

  lemma BeginsWithNothing(t: seq<Act>, begun: seq<Act>, now: seq<Act>)
    requires t <= begun <= now && |begun| == |t| + 1 && begun[|t|].Began?
    requires forall j | |begun| <= j < |now| :: now[j].Saved?
    ensures RunsNothing(t, now)
  {
    assert now[|t|] == begun[|t|];
  }

  lemma NoPhases(t: seq<Act>, phases: seq<string>, done: seq<string>)
    ensures PhasesInTurn(|t|, t, phases, done) && PatchesTheReview(|t|, t)
  {
  }

  lemma NoPhasesYet(t: seq<Act>, now: seq<Act>, phases: seq<string>, done: seq<string>)
    requires RunsNothing(t, now)
    ensures PhasesInTurn(|t|, now, phases, done) && PatchesTheReview(|t|, now)
  {
  }

  /** What was executed in turn since `now` was so since `t`, if nothing was executed in between. */
  lemma PhasesFollow(t: seq<Act>, now: seq<Act>, end: seq<Act>, phases: seq<string>, done: seq<string>)
    requires t <= now <= end && RunsNothing(t, now) && PhasesInTurn(|now|, end, phases, done) && Lawful(end)
    ensures PhasesInTurn(|t|, end, phases, done)
    ensures ReviewFirst(phases) ==> PatchesTheReview(|t|, end)
  {
    hide ItsTurn, Lawful, ReviewFirst, PatchesTheReview;
    assert forall j | 0 <= j < |now| :: end[j] == now[j];
    if ReviewFirst(phases) {
      PatchesSeeTheReview(|t|, end, phases, done);
    }
  }

  /** The stretches of a run, one after the other: only the phase loop executes phases other than the setup. */
  lemma NothingOutOfTurn(start: seq<Act>, ready: seq<Act>, through: seq<Act>, end: seq<Act>, phases: seq<string>,
                         done: seq<string>)
    requires start <= ready <= through <= end
    requires Executes(start, ready, "setup") && InTurn(ready, through, phases, done) && RunsNothing(through, end)
    ensures PhasesInTurn(|start|, end, phases, done)
  {
    hide Completed, ItsTurn;
    assert forall j | 0 <= j < |ready| :: end[j] == ready[j];
    assert forall j | 0 <= j < |through| :: end[j] == through[j];
    forall j | |start| <= j < |end| && end[j].Execute? && end[j].phase != "setup"
      ensures ItsTurn(end[..j], end[j].phase, phases, done)
    {
      assert end[..j] == through[..j];
    }
  }

  lemma DeadIsInterrupted(t: seq<Act>, env: Env)
    ensures env.dies(t) ==> Interrupted(t, env)
  {
  }

  lemma LoadedIsCompleted(t: seq<Act>, doc: Doc)
    requires Loaded(t, doc)
    ensures Completed(t) == doc.completed
  {
  }

  lemma NotAuthorised(published: seq<Act>, t: seq<Act>, opts: Options, env: Env, number: Option<int>, doc: Doc,
                      ci: seq<CiLoop.Effect>)
    requires published != [] && published[|published| - 1] == Saved(doc)
    requires
      || env.dies(t)
      || (!opts.yes && !opts.isatty && t == published + (if number.Some? then [Watch(ci)] else []))
      || (|published| < |t| && t[|t| - 1] == Confirmed(false))
      || (t == published + [Watch(ci)] && (!CiLoop.Passed(ci) || env.ci(published).dies(ci)))
    ensures Hindered(t, opts, env)
  {
    hide CiLoop.Passed;
    assert (published + [Watch(ci)])[..|published|] == published;
  }
}
