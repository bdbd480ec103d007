/**
  What a delivery pipeline may do, as a law on the trace of all its runs: no completed
  phase runs again, progress is only added to, and a patch works on the findings of the
  review. And what must lie behind a merge, and which tree it merges.
 */
module DeliveryLaw {
  import opened Basics
  import CiLoop
  import FixLoops

  type Finding = FixLoops.Finding

  /** A finding as persisted; any key may be missing. */
  datatype FindingRecord =
    FindingRecord(severity: Option<string>, description: Option<string>, location: Option<string>)

  datatype Engine = TypeScript | Python

  /** The persisted state of one pipeline; `runner` is written by one engine and dropped by the other. */
  datatype Doc = Doc(issue: string, completed: seq<string>, findings: seq<FindingRecord>, pr: Option<int>,
                     runner: Option<string>)

  /** What a pipeline does, over all its runs. */
  datatype Act =
    | Began(engine: Engine, yes: bool, testCmd: string)
    | Asked(conditional: string, applies: bool)
    | Execute(phase: string, findings: seq<Finding>)
    | Reviewed(found: seq<Finding>)
    | Resolved(resolving: seq<FixLoops.Effect>)
    | Patched(calls: seq<FixLoops.Call>)
    | Saved(doc: Doc)
    | Gate(cmd: string, rc: int)
    | Commit(committed: bool)
    | Push(pushed: bool)
    | FoundPr(number: Option<int>)
    | Watch(ci: seq<CiLoop.Effect>)
    | Confirmed(answer: bool)
    | SquashMerge(merged: bool)

  const DEFAULT_GATES := ["cargo test --all", "cargo fmt --all --check",
                          "cargo clippy --all-targets --all-features -- -D warnings", "cargo build --all"]

  /** The phases a caller may ask for, and those that run only if they apply. */
  const AGENT_PHASES := ["classify", "plan", "implement", "tests", "resolve", "e2e", "review", "patch", "document"]
  const CONDITIONAL_PHASES := {"e2e", "document"}

  /** The gates before a merge; a test command replaces the first only. */
  function FinalizeGates(testCmd: string): seq<string>
  {
    if testCmd != "" then DEFAULT_GATES[0 := testCmd] else DEFAULT_GATES
  }

  /** A test command takes the place of the test gate and of no other; the default gates all differ. */
  lemma GatesAre(testCmd: string)
    ensures FinalizeGates(testCmd) ==
      [if testCmd == "" then "cargo test --all" else testCmd, "cargo fmt --all --check",
       "cargo clippy --all-targets --all-features -- -D warnings", "cargo build --all"]
    ensures NoDuplicates(FinalizeGates(""))
  {
    var gates := FinalizeGates("");
    assert |gates[0]| == 16 && |gates[1]| == 23 && |gates[2]| == 56 && |gates[3]| == 17;
  }

  function Marked(completed: seq<string>, phase: string): seq<string>
  {
    if phase in completed then completed else completed + [phase]
  }

  function ToRecord(f: Finding): FindingRecord
  {
    FindingRecord(Some(f.severity), Some(f.description), Some(f.location))
  }

  function FromRecord(r: FindingRecord): Finding
  {
    FixLoops.Finding(if r.severity.Some? then r.severity.value else "skippable",
            if r.description.Some? then r.description.value else "",
            if r.location.Some? then r.location.value else "")
  }

  function ToRecords(fs: seq<Finding>): seq<FindingRecord>
  {
    seq(|fs|, i requires 0 <= i < |fs| => ToRecord(fs[i]))
  }

  function FromRecords(rs: seq<FindingRecord>): seq<Finding>
  {
    seq(|rs|, i requires 0 <= i < |rs| => FromRecord(rs[i]))
  }

  /** Findings survive being persisted. */
  lemma FindingsSurvive(fs: seq<Finding>)
    ensures FromRecords(ToRecords(fs)) == fs
  {
  }

  /** A finding read back without a severity is of none that blocks; missing texts are empty. */
  lemma MissingKeys(r: FindingRecord)
    ensures r.severity == None ==> FromRecord(r).severity == "skippable" && FixLoops.Blockers([FromRecord(r)]) == []
    ensures r.description == None ==> FromRecord(r).description == ""
    ensures r.location == None ==> FromRecord(r).location == ""
  {
    var f := FromRecord(r);
    assert [f][..0] == [];
    assert "skippable"[0] != "blocker"[0];
  }

  // ---------------------------------------------------------------------------
  // Reading a trace
  // ---------------------------------------------------------------------------

  ghost function LastSaved(t: seq<Act>): Option<Doc>
  {
    if t == [] then None else if t[|t| - 1].Saved? then Some(t[|t| - 1].doc) else LastSaved(t[..|t| - 1])
  }

  /** The phases recorded as completed. */
  ghost function Completed(t: seq<Act>): seq<string>
  {
    if LastSaved(t).Some? then LastSaved(t).value.completed else []
  }

  /** What a review of the current run found, if it has not been saved yet. */
  ghost function Unsaved(t: seq<Act>): Option<seq<Finding>>
  {
    if t == [] then None
    else
      var a := t[|t| - 1];
      if a.Reviewed? then Some(a.found) else if a.Saved? || a.Began? then None else Unsaved(t[..|t| - 1])
  }

  /** What the last review that was saved found. */
  ghost function Known(t: seq<Act>): seq<Finding>
  {
    if t == [] then []
    else
      var before := t[..|t| - 1];
      if t[|t| - 1].Saved? && Unsaved(before).Some? then Unsaved(before).value else Known(before)
  }

  // ---------------------------------------------------------------------------
  // The law
  // ---------------------------------------------------------------------------

  /** The four gates, in order, each at zero. */
  function GreenGates(testCmd: string): seq<Act>
  {
    seq(4, i requires 0 <= i < 4 => Gate(FinalizeGates(testCmd)[i], 0))
  }

  /** What a merge requires, from the gates on, and nothing besides. */
  ghost predicate ReadyToMerge(run: seq<Act>, yes: bool, testCmd: string, number: Option<int>, doc: Doc,
                               ci: seq<CiLoop.Effect>)
  {
    && run == GreenGates(testCmd) + [Commit(true), Push(true), FoundPr(number), Saved(doc)]
              + (if number.Some? then [Watch(ci)] else []) + (if yes then [] else [Confirmed(true)])
    && (if number.Some? then CiLoop.Passed(ci) && CiLoop.Orderly(ci) else ci == [])
  }

  /** The current run, begun at `b`, has from `k` on done what a merge requires, and watched `ci`. */
  ghost predicate Justified(past: seq<Act>, b: nat, k: nat, ci: seq<CiLoop.Effect>)
  {
    && b < k <= |past| && past[b].Began? && (forall i | b < i < |past| :: !past[i].Began?)
    && exists number, doc :: ReadyToMerge(past[k..], past[b].yes, past[b].testCmd, number, doc, ci)
  }

  /**
    Every merge is preceded, in its own run and in this order, by the four gates at zero,
    a successful commit and push, a pull request whose CI, if it has a number, passed at
    the last poll, and an authorisation given beforehand or at the terminal just before.
   */
  ghost predicate MergesSafely(t: seq<Act>)
  {
    forall m | 0 <= m < |t| && t[m].SquashMerge? ::
      exists b: nat, k: nat, ci: seq<CiLoop.Effect> :: Justified(t[..m], b, k, ci)
  }

  /** What must just have happened for `phase` to be recorded as completed. */
  ghost predicate Earned(past: seq<Act>, phase: string)
  {
    past != [] &&
    var last := past[|past| - 1];
    if phase == "merge" then last == SquashMerge(true)
    else if phase == "review" then last.Reviewed?
    else if phase == "resolve" then last.Resolved?
    else if phase == "patch" then last.Patched?
    else (last.Execute? && last.phase == phase) || (phase in CONDITIONAL_PHASES && last == Asked(phase, false))
  }

  /** `a` may come after `past`. */
  ghost predicate Allowed(past: seq<Act>, a: Act)
  {
    match a
    case Execute(phase, findings) =>
      && phase !in Completed(past) && (phase == "patch" ==> findings == Known(past))
      && (phase in CONDITIONAL_PHASES ==> past != [] && past[|past| - 1] == Asked(phase, true))
    case Reviewed(_) => past != [] && past[|past| - 1].Execute? && past[|past| - 1].phase == "review"
    case Resolved(_) => past != [] && past[|past| - 1].Execute? && past[|past| - 1].phase == "resolve"
    case Patched(calls) =>
      && past != [] && past[|past| - 1].Execute? && past[|past| - 1].phase == "patch"
      && FixLoops.Patches(FixLoops.Blockers(past[|past| - 1].findings), calls)
    case Saved(doc) =>
      && NoDuplicates(doc.completed) && Completed(past) <= doc.completed
      && (forall phase | phase in doc.completed && phase !in Completed(past) :: Earned(past, phase))
    case SquashMerge(_) => "merge" !in Completed(past)
    case _ => true
  }

  ghost predicate Lawful(t: seq<Act>)
  {
    forall j | 0 <= j < |t| :: Allowed(t[..j], t[j])
  }

  lemma Append(t: seq<Act>, a: Act)
    requires Lawful(t) && Allowed(t, a)
    ensures Lawful(t + [a])
    ensures LastSaved(t + [a]) == if a.Saved? then Some(a.doc) else LastSaved(t)
    ensures Unsaved(t + [a]) ==
      if a.Reviewed? then Some(a.found) else if a.Saved? || a.Began? then None else Unsaved(t)
    ensures Known(t + [a]) == if a.Saved? && Unsaved(t).Some? then Unsaved(t).value else Known(t)
  {
    hide Allowed;
    var u := t + [a];
    assert u[..|t|] == t;
    forall j | 0 <= j < |u|
      ensures Allowed(u[..j], u[j])
    {
      if j < |t| {
        assert u[..j] == t[..j];
      }
    }
  }

  // ---------------------------------------------------------------------------
  // What the law gives, over any number of runs
  // ---------------------------------------------------------------------------

  lemma LawfulPrefix(t: seq<Act>, n: nat)
    requires Lawful(t) && n <= |t|
    ensures Lawful(t[..n])
  {
    hide Allowed;
    forall j | 0 <= j < n
      ensures Allowed(t[..n][..j], t[..n][j])
    {
      assert t[..n][..j] == t[..j];
    }
  }

  /** One more act adds to the completed phases at most. */
  lemma ProgressStep(t: seq<Act>)
    requires Lawful(t) && t != []
    ensures Lawful(t[..|t| - 1]) && Completed(t[..|t| - 1]) <= Completed(t)
    ensures NoDuplicates(Completed(t[..|t| - 1])) ==> NoDuplicates(Completed(t))
    ensures forall phase | phase in Completed(t) && phase !in Completed(t[..|t| - 1]) :: Earned(t[..|t| - 1], phase)
  {
    hide Unsaved, Known, NoDuplicates, Earned;
    LawfulPrefix(t, |t| - 1);
    assert Allowed(t[..|t| - 1], t[|t| - 1]);
  }

  /** Completed phases are never repeated and only added to, at the end. */
  lemma {:induction false} ProgressOnlyGrows(t: seq<Act>, n: nat)
    requires Lawful(t) && n <= |t|
    ensures Completed(t[..n]) <= Completed(t) && NoDuplicates(Completed(t))
    decreases |t|
  {
    if t == [] {
      assert t[..n] == t;
    } else {
      hide Lawful, Completed, NoDuplicates;
      ProgressStep(t);
      var init := t[..|t| - 1];
      if n == |t| {
        assert t[..n] == t;
        ProgressOnlyGrows(init, |t| - 1);
      } else {
        ProgressOnlyGrows(init, n);
        assert init[..n] == t[..n];
      }
    }
  }

  /** Once a run has recorded a phase as completed, no run executes it again. */
  lemma CompletedNeverRunsAgain(t: seq<Act>, i: nat, j: nat, phase: string)
    requires Lawful(t) && i < j < |t| && t[i].Saved? && phase in t[i].doc.completed
    ensures t[j].Execute? ==> t[j].phase != phase
  {
    hide Unsaved, Known;
    RecordedStays(t, i, j, phase);
    assert Allowed(t[..j], t[j]);
  }

  lemma RecordedStays(t: seq<Act>, i: nat, j: nat, phase: string)
    requires Lawful(t) && i < j <= |t| && t[i].Saved? && phase in t[i].doc.completed
    ensures phase in Completed(t[..j])
  {
    hide Lawful, Unsaved, Known;
    LawfulPrefix(t, j);
    ProgressOnlyGrows(t[..j], i + 1);
    assert t[..j][..i + 1] == t[..i + 1];
    assert t[..i + 1][i] == t[i];
  }

  /** Once a run has recorded the merge, no run merges again. */
  lemma MergedNeverMergesAgain(t: seq<Act>, i: nat, j: nat)
    requires Lawful(t) && i < j < |t| && t[i].Saved? && "merge" in t[i].doc.completed
    ensures !t[j].SquashMerge?
  {
    hide Unsaved, Known;
    RecordedStays(t, i, j, "merge");
    assert Allowed(t[..j], t[j]);
  }

  /** The phase did its work, or was asked about and did not apply. */
  ghost predicate WasDone(t: seq<Act>, phase: string)
  {
    exists i | 0 <= i < |t| ::
      if phase == "merge" then t[i] == SquashMerge(true)
      else if phase in CONDITIONAL_PHASES then (t[i].Execute? && t[i].phase == phase) || t[i] == Asked(phase, false)
      else t[i].Execute? && t[i].phase == phase
  }

  /** Nothing is recorded as completed that was not done. */
  lemma {:induction false} CompletedWasDone(t: seq<Act>, phase: string)
    requires Lawful(t) && phase in Completed(t)
    ensures WasDone(t, phase)
  {
    hide Unsaved, Known, Completed;
    CompletedNonempty(t, phase);
    var init := t[..|t| - 1];
    ProgressStep(t);
    if phase in Completed(init) {
      CompletedWasDone(init, phase);
      WasDoneStays(t, phase);
    } else {
      assert Earned(init, phase);
      var k := |init| - 1;
      assert t[k] == init[k] && Allowed(t[..k], t[k]);
      assert phase == "review" || phase == "resolve" || phase == "patch" ==> t[k - 1] == t[..k][|t[..k]| - 1];
    }
  }

  /** Only two phases can be recorded without having been executed, and only if they did not apply. */
  lemma OnlyTwoMayBeSkipped(t: seq<Act>, phase: string)
    requires Lawful(t) && phase in Completed(t) && phase != "merge"
    ensures exists i | 0 <= i < |t| ::
      || (t[i].Execute? && t[i].phase == phase)
      || ((phase == "e2e" || phase == "document") && t[i] == Asked(phase, false))
  {
    hide Lawful, Completed;
    CompletedWasDone(t, phase);
  }

  lemma CompletedNonempty(t: seq<Act>, phase: string)
    requires phase in Completed(t)
    ensures t != []
  {
  }

  lemma WasDoneStays(t: seq<Act>, phase: string)
    requires t != [] && WasDone(t[..|t| - 1], phase)
    ensures WasDone(t, phase)
  {
    var init := t[..|t| - 1];
    assert forall i | 0 <= i < |init| :: init[i] == t[i];
  }

  /** The last review in the trace, which found `fs`. */
  ghost predicate LastReview(t: seq<Act>, fs: seq<Finding>)
  {
    exists i | 0 <= i < |t| :: t[i] == Reviewed(fs) && forall k | i < k < |t| :: !t[k].Reviewed?
  }

  lemma UnsavedIsLast(t: seq<Act>)
    requires Unsaved(t).Some?
    ensures LastReview(t, Unsaved(t).value)
  {
    var a := t[|t| - 1];
    if a.Reviewed? {
      assert t[|t| - 1] == Reviewed(Unsaved(t).value);
    } else {
      UnsavedIsLast(t[..|t| - 1]);
      LastReviewStays(t, Unsaved(t).value);
    }
  }

  lemma LastReviewStays(t: seq<Act>, fs: seq<Finding>)
    requires t != [] && LastReview(t[..|t| - 1], fs) && !t[|t| - 1].Reviewed?
    ensures LastReview(t, fs)
  {
    var init := t[..|t| - 1];
    var i :| 0 <= i < |init| && init[i] == Reviewed(fs) && forall k | i < k < |init| :: !init[k].Reviewed?;
    assert t[i] == Reviewed(fs);
    forall k | i < k < |t|
      ensures !t[k].Reviewed?
    {
      assert k < |init| ==> t[k] == init[k];
    }
  }

  /** Once a review is recorded, what is known is what the last review found. */
  lemma {:induction false} KnownIsTheReview(t: seq<Act>)
    requires Lawful(t) && "review" in Completed(t)
    ensures LastReview(t, Known(t))
  {
    hide LastReview, Completed, Lawful, NoDuplicates;
    CompletedNonempty(t, "review");
    var init, a := t[..|t| - 1], t[|t| - 1];
    ProgressStep(t);
    if "review" in Completed(init) {
      KnownIsTheReview(init);
      NoReviewAfter(t);
      if a.Saved? && Unsaved(init).Some? {
        UnsavedIsLast(init);
      }
      LastReviewStays(t, Known(t));
    } else {
      NewlySaved(t, "review");
      UnsavedIsLast(init);
      LastReviewStays(t, Known(t));
    }
  }

  /** Only a save records a completion. */
  lemma NewlySaved(t: seq<Act>, phase: string)
    requires t != [] && phase in Completed(t) && phase !in Completed(t[..|t| - 1])
    ensures t[|t| - 1].Saved?
  {
  }

  /** A recorded review is not run again, so nothing is found again. */
  lemma NoReviewAfter(t: seq<Act>)
    requires Lawful(t) && t != [] && "review" in Completed(t[..|t| - 1])
    ensures !t[|t| - 1].Reviewed?
  {
    hide Unsaved, Known;
    var init := t[..|t| - 1];
    assert Allowed(init, t[|t| - 1]);
    var k := |init| - 1;
    assert Allowed(t[..k], t[k]) && init[k] == t[k];
    assert init[..k] == t[..k];
  }

  /**
    A patch that runs after the review was recorded, in the same run or after a resume in
    either engine, works on exactly what that review found.
   */
  lemma PatchSeesTheReview(t: seq<Act>, j: nat)
    requires Lawful(t) && j < |t| && t[j].Execute? && t[j].phase == "patch" && "review" in Completed(t[..j])
    ensures LastReview(t[..j], t[j].findings)
  {
    hide LastReview, Completed, Known, Unsaved;
    LawfulPrefix(t, j);
    KnownIsTheReview(t[..j]);
    assert Allowed(t[..j], t[j]);
  }

  /** A patch asks the agent about the blockers of the last review, every time, and about nothing else. */
  lemma PatchAsksAboutTheReview(t: seq<Act>, j: nat, i: nat)
    requires Lawful(t) && 0 < j < |t| && t[j].Patched? && "review" in Completed(t[..j]) && i < |t[j].calls|
    ensures exists fs :: LastReview(t[..j], fs) && t[j].calls[i].blockers == FixLoops.Blockers(fs)
  {
    hide LastReview, Known, Unsaved, FixLoops.Blockers;
    assert Allowed(t[..j], t[j]) && t[..j][j - 1] == t[j - 1];
    assert Completed(t[..j]) == Completed(t[..j - 1]) by {
      assert t[..j][..j - 1] == t[..j - 1];
    }
    PatchSeesTheReview(t, j - 1);
    assert t[..j][..|t[..j]| - 1] == t[..j - 1];
    LastReviewStays(t[..j], t[j - 1].findings);
  }

  // ---------------------------------------------------------------------------
  // In which order phases are run
  // ---------------------------------------------------------------------------

  /** The first occurrences in `phases` of what is not in `done`, in order. */
  ghost function Outstanding(phases: seq<string>, done: seq<string>): seq<string>
  {
    if phases == [] then []
    else
      var before, last := phases[..|phases| - 1], phases[|phases| - 1];
      Outstanding(before, done) + if last in done || last in before then [] else [last]
  }

  lemma {:induction false} OutstandingIs(phases: seq<string>, done: seq<string>)
    ensures forall p :: p in Outstanding(phases, done) <==> p in phases && p !in done
  {
    if phases != [] {
      OutstandingIs(phases[..|phases| - 1], done);
      assert phases == phases[..|phases| - 1] + [phases[|phases| - 1]];
    }
  }

  lemma {:induction false} OutstandingGrows(phases: seq<string>, done: seq<string>, n: nat)
    requires n <= |phases|
    ensures Outstanding(phases[..n], done) <= Outstanding(phases, done)
  {
    if n == |phases| {
      assert phases[..n] == phases;
    } else {
      var before := phases[..|phases| - 1];
      OutstandingGrows(before, done, n);
      assert before[..n] == phases[..n];
    }
  }

  /**
    Every phase executed since `t`, with `done` completed then, was executed when exactly
    what stands before it in the list, and was not done, had been completed.
   */
  ghost predicate InTurn(t: seq<Act>, t': seq<Act>, phases: seq<string>, done: seq<string>)
  {
    forall j | |t| <= j < |t'| && t'[j].Execute? :: ItsTurn(t'[..j], t'[j].phase, phases, done)
  }

  ghost predicate ItsTurn(past: seq<Act>, phase: string, phases: seq<string>, done: seq<string>)
  {
    exists n | 0 <= n < |phases| ::
      phases[n] == phase && Completed(past) == done + Outstanding(phases[..n], done)
  }

  /** What a run that gets through all of `phases` leaves completed, before the merge. */
  ghost function Progress(completed: seq<string>, phases: seq<string>): seq<string>
  {
    var done := Marked(completed, "setup");
    done + Outstanding(phases, done)
  }

  lemma ProgressCovers(completed: seq<string>, phases: seq<string>, n: nat)
    requires n <= |phases|
    ensures var done := Marked(completed, "setup");
      completed <= done <= done + Outstanding(phases[..n], done) <= Progress(completed, phases)
    ensures forall p :: p in Progress(completed, phases) <==> p in completed || p == "setup" || p in phases
  {
    hide Outstanding;
    var done := Marked(completed, "setup");
    OutstandingGrows(phases, done, n);
    OutstandingIs(phases, done);
  }

  /** Since `start`, every phase but the setup was executed in its turn. */
  ghost predicate PhasesInTurn(start: nat, t: seq<Act>, phases: seq<string>, done: seq<string>)
  {
    forall j | start <= j < |t| && t[j].Execute? && t[j].phase != "setup" :: ItsTurn(t[..j], t[j].phase, phases, done)
  }

  /** Since `start`, every patch worked on what the last review found. */
  ghost predicate PatchesTheReview(start: nat, t: seq<Act>)
  {
    forall j | start <= j < |t| && t[j].Execute? && t[j].phase == "patch" :: LastReview(t[..j], t[j].findings)
  }

  lemma PatchesSeeTheReview(start: nat, t: seq<Act>, phases: seq<string>, done: seq<string>)
    requires Lawful(t) && PhasesInTurn(start, t, phases, done) && ReviewFirst(phases)
    ensures PatchesTheReview(start, t)
  {
    hide Lawful, LastReview, ItsTurn, ReviewFirst;
    forall j | start <= j < |t| && t[j].Execute? && t[j].phase == "patch"
      ensures LastReview(t[..j], t[j].findings)
    {
      PatchComesAfterReview(t[..j], phases, done);
      PatchSeesTheReview(t, j);
    }
  }

  lemma {:induction false} AllOutstanding(phases: seq<string>, done: seq<string>)
    requires NoDuplicates(phases) && forall p | p in phases :: p !in done
    ensures Outstanding(phases, done) == phases
  {
    if phases != [] {
      var before, last := phases[..|phases| - 1], phases[|phases| - 1];
      assert last in phases && last !in before && forall p | p in before :: p in phases;
      AllOutstanding(before, done);
      assert phases == before + [last];
    }
  }

  /** What a first run over the full list leaves recorded, before the merge; its patch has the review before it. */
  lemma FullRun()
    ensures Progress([], AGENT_PHASES) ==
      ["setup", "classify", "plan", "implement", "tests", "resolve", "e2e", "review", "patch", "document"]
    ensures ReviewFirst(AGENT_PHASES)
  {
    hide Outstanding;
    AllDifferent();
    AllOutstanding(AGENT_PHASES, ["setup"]);
    assert Marked([], "setup") == ["setup"];
    assert AGENT_PHASES[..7][6] == "review";
    assert "review" in AGENT_PHASES[..7];
  }

  lemma AllDifferent()
    ensures NoDuplicates(AGENT_PHASES) && "setup" !in AGENT_PHASES
    ensures forall n | 0 <= n < |AGENT_PHASES| && AGENT_PHASES[n] == "patch" :: n == 7
  {
    var p := AGENT_PHASES;
    assert |p[0]| == 8 && |p[1]| == 4 && |p[2]| == 9 && |p[3]| == 5 && |p[4]| == 7 && |p[5]| == 3 && |p[6]| == 6;
    assert |p[7]| == 5 && |p[8]| == 8 && p[0][0] != p[8][0] && p[3][0] != p[7][0] && "setup"[0] != p[3][0];
    assert "setup"[0] != p[7][0];
  }

  /** Every patch in the list has a review before it. */
  ghost predicate ReviewFirst(phases: seq<string>)
  {
    forall n | 0 <= n < |phases| && phases[n] == "patch" :: "review" in phases[..n]
  }

  /** With a review before every patch in the list, a patch in turn comes after a recorded review. */
  lemma PatchComesAfterReview(past: seq<Act>, phases: seq<string>, done: seq<string>)
    requires ReviewFirst(phases) && ItsTurn(past, "patch", phases, done)
    ensures "review" in Completed(past)
  {
    hide Completed, Outstanding;
    var n :| 0 <= n < |phases| && phases[n] == "patch" && Completed(past) == done + Outstanding(phases[..n], done);
    OutstandingIs(phases[..n], done);
  }

  // ---------------------------------------------------------------------------
  // Which tree is merged
  // ---------------------------------------------------------------------------

  /** How many commits the branch has, here and where it was last pushed to. */
  datatype Heads = Heads(local: nat, remote: nat)

  ghost function CiHeads(h: Heads, ci: seq<CiLoop.Effect>): Heads
  {
    if ci == [] then h
    else
      var before, e := CiHeads(h, ci[..|ci| - 1]), ci[|ci| - 1];
      if e == CiLoop.Commit(true) then before.(local := before.local + 1)
      else if e == CiLoop.Push(true) then before.(remote := before.local)
      else before
  }

  ghost function HeadsAfter(t: seq<Act>): Heads
  {
    if t == [] then Heads(0, 0)
    else
      var before, a := HeadsAfter(t[..|t| - 1]), t[|t| - 1];
      match a
      case Commit(true) => before.(local := before.local + 1)
      case Push(true) => before.(remote := before.local)
      case Watch(ci) => CiHeads(before, ci)
      case _ => before
  }

  lemma {:induction false} HeadsPush(t: seq<Act>, a: Act)
    ensures HeadsAfter(t + [a]) ==
      match a
      case Commit(true) => HeadsAfter(t).(local := HeadsAfter(t).local + 1)
      case Push(true) => HeadsAfter(t).(remote := HeadsAfter(t).local)
      case Watch(ci) => CiHeads(HeadsAfter(t), ci)
      case _ => HeadsAfter(t)
  {
    assert (t + [a])[..|t|] == t;
  }

  /** CI fixes move the heads on, the remote one only to a commit made while watching. */
  lemma {:induction false} CiHeadsGrow(h: Heads, ci: seq<CiLoop.Effect>)
    requires h.remote == h.local
    ensures h.local <= CiHeads(h, ci).remote <= CiHeads(h, ci).local
    ensures CiHeads(h, ci).local == h.local <==> CiLoop.Commit(true) !in ci
    ensures CiLoop.Push(true) !in ci ==> CiHeads(h, ci).remote == h.remote
  {
    if ci != [] {
      CiHeadsGrow(h, ci[..|ci| - 1]);
      assert ci == ci[..|ci| - 1] + [ci[|ci| - 1]];
    }
  }

  /** Under the loop's order, a push while watching always brings a new commit. */
  lemma {:induction false} PushedIsNew(h: Heads, ci: seq<CiLoop.Effect>, n: nat)
    requires h.remote == h.local && CiLoop.Orderly(ci) && n <= |ci|
    ensures CiHeads(h, ci[..n]).remote == h.remote <==> CiLoop.Push(true) !in ci[..n]
  {
    hide CiLoop.Red, CiLoop.FailingNames, CiLoop.Orderly;
    if n > 0 {
      PushedIsNew(h, ci, n - 1);
      assert ci[..n][..n - 1] == ci[..n - 1] && ci[..n] == ci[..n - 1] + [ci[n - 1]];
      CiHeadsGrow(h, ci[..n - 1]);
      PushFollowsCommit(ci, n - 1);
      if ci[n - 1] == CiLoop.Push(true) {
        CiHeadsGrow(h, ci[..n - 2]);
        assert ci[..n - 1][..n - 2] == ci[..n - 2];
      }
    }
  }

  lemma PushFollowsCommit(ci: seq<CiLoop.Effect>, i: nat)
    requires CiLoop.Orderly(ci) && i < |ci|
    ensures ci[i].Push? ==> i > 0 && ci[i - 1] == CiLoop.Commit(true)
  {
    assert CiLoop.Preceded(ci, i);
  }

  /** Passing the four gates changes no commit. */
  lemma {:induction false} GatesKeepHeads(t: seq<Act>, gates: seq<Act>)
    requires forall a | a in gates :: a.Gate?
    ensures HeadsAfter(t + gates) == HeadsAfter(t)
  {
    if gates == [] {
      assert t + gates == t;
    } else {
      var before, a := gates[..|gates| - 1], gates[|gates| - 1];
      GatesKeepHeads(t, before);
      HeadsPush(t + before, a);
      assert a in gates && t + gates == t + before + [a];
    }
  }

  /** Up to the pull request, a justified run makes the gated tree its head, here and remotely. */
  lemma PublishedHeads(t: seq<Act>, testCmd: string, number: Option<int>, doc: Doc)
    ensures var n := HeadsAfter(t).local + 1;
      HeadsAfter(t + GreenGates(testCmd) + [Commit(true), Push(true), FoundPr(number), Saved(doc)]) == Heads(n, n)
  {
    hide HeadsAfter, FinalizeGates;
    var gated := t + GreenGates(testCmd);
    GatesKeepHeads(t, GreenGates(testCmd));
    HeadsPush(gated, Commit(true));
    HeadsPush(gated + [Commit(true)], Push(true));
    HeadsPush(gated + [Commit(true)] + [Push(true)], FoundPr(number));
    HeadsPush(gated + [Commit(true)] + [Push(true)] + [FoundPr(number)], Saved(doc));
    assert gated + [Commit(true), Push(true), FoundPr(number), Saved(doc)] ==
           gated + [Commit(true)] + [Push(true)] + [FoundPr(number)] + [Saved(doc)];
  }

  /**
    The gates vouch for the commit made right after them. When the merge comes, that commit
    is still the head of the branch if and only if no commit was made while watching CI,
    and it is what was pushed last, and so what is merged, if and only if no push
    succeeded while watching. Later commits went past no local gate.
   */
  lemma MergedTreeIsTheGatedOne(past: seq<Act>, b: nat, k: nat, ci: seq<CiLoop.Effect>)
    requires Justified(past, b, k, ci)
    ensures var gated := HeadsAfter(past[..k]).local + 1;
      && (HeadsAfter(past).local == gated <==> CiLoop.Commit(true) !in ci)
      && (HeadsAfter(past).remote == gated <==> CiLoop.Push(true) !in ci)
  {
    hide HeadsAfter, GreenGates, CiLoop.Orderly, CiLoop.Passed;
    var yes, testCmd := past[b].yes, past[b].testCmd;
    var number, doc :| ReadyToMerge(past[k..], yes, testCmd, number, doc, ci);
    var published := past[..k] + GreenGates(testCmd) + [Commit(true), Push(true), FoundPr(number), Saved(doc)];
    PublishedHeads(past[..k], testCmd, number, doc);
    var watched := if number.Some? then published + [Watch(ci)] else published;
    HeadsPush(published, Watch(ci));
    HeadsPush(watched, Confirmed(true));
    assert past == past[..k] + past[k..];
    assert past == if yes then watched else watched + [Confirmed(true)];
    var h := HeadsAfter(published);
    CiHeadsGrow(h, ci);
    if number.Some? {
      PushedIsNew(h, ci, |ci|);
      assert ci[..|ci|] == ci;
    }
  }
}
