/**
  Watching CI: what a check rollup means, and the loop that polls it and asks the agent to
  fix red checks, against an environment that may answer anything at any time.
 */
module CiLoop {
  import opened Basics

  const NO_CHECKS_SETTLE_POLLS: nat := 3

  // ---------------------------------------------------------------------------
  // Reading a rollup
  // ---------------------------------------------------------------------------

  /** A check run has a status and a conclusion, a status context has a state; absent fields are empty. */
  datatype Check = Check(name: string, context: string, status: string, conclusion: string, state: string)

  /** What the query for a rollup came back with. */
  datatype Answer = Unreadable | NoRollup | Rollup(checks: seq<Check>)

  datatype CiState = Success | NoChecks | Unknown | Pending | Failure

  const FAIL_CONCLUSIONS := {"FAILURE", "CANCELLED", "TIMED_OUT", "ACTION_REQUIRED", "STARTUP_FAILURE"}
  const FAIL_STATES := {"FAILURE", "ERROR"}
  const PENDING_STATES := {"PENDING", "EXPECTED"}

  function Upper(s: string): string
  {
    seq(|s|, i requires 0 <= i < |s| => if 'a' <= s[i] <= 'z' then s[i] - 'a' + 'A' else s[i])
  }

  predicate Fails(c: Check)
  {
    Upper(c.conclusion) in FAIL_CONCLUSIONS || Upper(c.state) in FAIL_STATES
  }

  /** Still running; a check that already failed counts as failed. */
  predicate IsPending(c: Check)
  {
    !Fails(c) && ((c.status != "" && Upper(c.status) != "COMPLETED") || Upper(c.state) in PENDING_STATES)
  }

  /** `s` is `word`, in capitals, small letters or both. */
  ghost predicate Spells(s: string, word: string)
  {
    && |s| == |word|
    && forall i | 0 <= i < |s| :: s[i] == word[i] || ('A' <= word[i] <= 'Z' && s[i] == word[i] - 'A' + 'a')
  }

  predicate NoSmallLetters(word: string)
  {
    forall c | c in word :: !('a' <= c <= 'z')
  }

  lemma UpperSpells(s: string, word: string)
    requires NoSmallLetters(word)
    ensures Upper(s) == word <==> Spells(s, word)
  {
    assert forall i | 0 <= i < |word| :: word[i] in word;
    if Spells(s, word) {
      assert forall i | 0 <= i < |s| :: Upper(s)[i] == word[i];
    }
    if Upper(s) == word {
      assert forall i | 0 <= i < |s| :: word[i] == Upper(s)[i];
    }
  }

  lemma ConclusionsAreCapital()
    ensures NoSmallLetters("FAILURE") && NoSmallLetters("CANCELLED") && NoSmallLetters("TIMED_OUT")
  {
  }

  lemma LongerConclusionsAreCapital()
    ensures NoSmallLetters("ACTION_REQUIRED") && NoSmallLetters("STARTUP_FAILURE")
  {
  }

  lemma StatesAreCapital()
    ensures NoSmallLetters("ERROR") && NoSmallLetters("COMPLETED")
    ensures NoSmallLetters("PENDING") && NoSmallLetters("EXPECTED")
  {
  }

  /** Which conclusions and states count as red, whatever their capitals. */
  lemma FailsIff(c: Check)
    ensures Fails(c) <==>
      || Spells(c.conclusion, "FAILURE") || Spells(c.conclusion, "CANCELLED") || Spells(c.conclusion, "TIMED_OUT")
      || Spells(c.conclusion, "ACTION_REQUIRED") || Spells(c.conclusion, "STARTUP_FAILURE")
      || Spells(c.state, "FAILURE") || Spells(c.state, "ERROR")
  {
    hide Upper, Spells, NoSmallLetters;
    ConclusionsAreCapital();
    LongerConclusionsAreCapital();
    StatesAreCapital();
    UpperSpells(c.conclusion, "FAILURE");
    UpperSpells(c.conclusion, "CANCELLED");
    UpperSpells(c.conclusion, "TIMED_OUT");
    UpperSpells(c.conclusion, "ACTION_REQUIRED");
    UpperSpells(c.conclusion, "STARTUP_FAILURE");
    UpperSpells(c.state, "FAILURE");
    UpperSpells(c.state, "ERROR");
  }

  /** Which checks are still running. */
  lemma PendingIff(c: Check)
    ensures IsPending(c) <==>
      !Fails(c) && ((c.status != "" && !Spells(c.status, "COMPLETED")) ||
                    Spells(c.state, "PENDING") || Spells(c.state, "EXPECTED"))
  {
    hide Upper, Spells, Fails, NoSmallLetters;
    StatesAreCapital();
    UpperSpells(c.status, "COMPLETED");
    UpperSpells(c.state, "PENDING");
    UpperSpells(c.state, "EXPECTED");
  }

  function NameOf(c: Check): string
  {
    if c.name != "" then c.name else if c.context != "" then c.context else "check"
  }

  /** The names of the failing checks, in order. */
  function FailingNames(checks: seq<Check>): seq<string>
  {
    if checks == [] then []
    else
      var c := checks[|checks| - 1];
      FailingNames(checks[..|checks| - 1]) + if Fails(c) then [NameOf(c)] else []
  }

  /** What is named are the failing checks: by their name, else their context, else as a check. */
  lemma {:induction false} FailingAre(checks: seq<Check>, n: string)
    ensures n in FailingNames(checks) <==>
      exists c | c in checks && Fails(c) ::
        if c.name != "" then n == c.name else if c.context != "" then n == c.context else n == "check"
  {
    hide Fails;
    if checks != [] {
      var before, last := checks[..|checks| - 1], checks[|checks| - 1];
      FailingAre(before, n);
      assert checks == before + [last] && last in checks;
    }
  }

  /** Nothing failed, nothing is pending, and there was something to check. */
  predicate Green(a: Answer)
  {
    a.Rollup? && a.checks != [] && forall c | c in a.checks :: !Fails(c) && !IsPending(c)
  }

  predicate Empty(a: Answer)
  {
    a.NoRollup? || (a.Rollup? && a.checks == [])
  }

  predicate Red(a: Answer)
  {
    a.Rollup? && exists c | c in a.checks :: Fails(c)
  }

  predicate Unfinished(a: Answer)
  {
    a.Rollup? && !Red(a) && exists c | c in a.checks :: IsPending(c)
  }

  method CiStatus(a: Answer) returns (state: CiState, failing: seq<string>)
    ensures state == Success <==> Green(a)
    ensures state == NoChecks <==> Empty(a)
    ensures state == Unknown <==> a.Unreadable?
    ensures state == Failure <==> Red(a)
    ensures state == Pending <==> Unfinished(a)
    ensures failing == (if a.Rollup? then FailingNames(a.checks) else [])
  {
    if a.Unreadable? {
      return Unknown, [];
    }
    if a.NoRollup? || a.checks == [] {
      return NoChecks, [];
    }
    var pending := false;
    failing := [];
    var checks := a.checks;
    for i := 0 to |checks|
      invariant failing == FailingNames(checks[..i])
      invariant failing != [] <==> exists c | c in checks[..i] :: Fails(c)
      invariant pending <==> exists c | c in checks[..i] :: IsPending(c)
    {
      assert checks[..i + 1] == checks[..i] + [checks[i]];
      var check := checks[i];
      assert check in checks[..i + 1];
      if Upper(check.conclusion) in FAIL_CONCLUSIONS || Upper(check.state) in FAIL_STATES {
        failing := failing + [NameOf(check)];
      } else if (check.status != "" && Upper(check.status) != "COMPLETED") || Upper(check.state) in PENDING_STATES {
        pending := true;
      }
    }
    assert checks[..|checks|] == checks;
    state := if failing != [] then Failure else if pending then Pending else Success;
  }

  // ---------------------------------------------------------------------------
  // The loop
  // ---------------------------------------------------------------------------

  /** What the loop does and is told. */
  datatype Effect =
    | Poll(answer: Answer)
    | AskAgent(failing: seq<string>, resolved: Option<int>)
    | CheckTree(dirty: bool)
    | Commit(ok: bool)
    | Push(ok: bool)

  /**
    The environment's next answer may depend on everything so far; an agent without an
    answer threw, and `dies` says whether the run is cut off here.
   */
  datatype Env = Env(poll: seq<Effect> -> Answer, resolved: seq<Effect> -> Option<int>, dirty: seq<Effect> -> bool,
                     commit: seq<Effect> -> bool, push: seq<Effect> -> bool, dies: seq<Effect> -> bool)

  /** How the loop ends: CI passed, it gave up, or it was cut off. */
  datatype Verdict = Pass | Fail | Cut

  datatype Kind = AnyPoll | EmptyPoll | AgentCall | AnyCommit

  predicate Is(e: Effect, kind: Kind)
  {
    match kind
    case AnyPoll => e.Poll?
    case EmptyPoll => e.Poll? && Empty(e.answer)
    case AgentCall => e.AskAgent?
    case AnyCommit => e.Commit?
  }

  ghost function Count(t: seq<Effect>, kind: Kind): nat
  {
    if t == [] then 0 else Count(t[..|t| - 1], kind) + if Is(t[|t| - 1], kind) then 1 else 0
  }

  lemma CountPush(t: seq<Effect>, e: Effect)
    ensures forall kind :: Count(t + [e], kind) == Count(t, kind) + if Is(e, kind) then 1 else 0
  {
    assert (t + [e])[..|t|] == t;
  }

  /** The pending polls since the last successful commit. */
  ghost function Waits(t: seq<Effect>): nat
  {
    if t == [] then 0
    else
      var e := t[|t| - 1];
      if e == Commit(true) then 0
      else Waits(t[..|t| - 1]) + if e.Poll? && Unfinished(e.answer) then 1 else 0
  }

  lemma WaitsPush(t: seq<Effect>, e: Effect)
    ensures Waits(t + [e]) ==
      if e == Commit(true) then 0 else Waits(t) + if e.Poll? && Unfinished(e.answer) then 1 else 0
  {
    assert (t + [e])[..|t|] == t;
  }

  /** The agent answered, and says it fixed something. */
  predicate Claims(resolved: Option<int>)
  {
    resolved.Some? && resolved.value != 0
  }

  /**
    The effect stands where it may: the agent is asked only right after a red poll, with
    its failing checks; what it claims is checked in the tree, what is in the tree is
    committed, and only a commit is pushed.
   */
  ghost predicate Preceded(t: seq<Effect>, i: nat)
    requires i < |t|
  {
    match t[i]
    case Poll(_) => true
    case AskAgent(failing, _) =>
      i > 0 && t[i - 1].Poll? && Red(t[i - 1].answer) && failing == FailingNames(t[i - 1].answer.checks)
    case CheckTree(_) => i > 0 && t[i - 1].AskAgent? && Claims(t[i - 1].resolved)
    case Commit(_) => i > 0 && t[i - 1] == CheckTree(true)
    case Push(_) => i > 0 && t[i - 1] == Commit(true)
  }

  ghost predicate InPlace(t: seq<Effect>)
  {
    forall i | 0 <= i < |t| :: Preceded(t, i)
  }

  /** Every effect stands where it may, and every commit is pushed. */
  ghost predicate Orderly(t: seq<Effect>)
  {
    && InPlace(t)
    && (forall i | 0 <= i < |t| && t[i] == Commit(true) :: i + 1 < |t| && t[i + 1].Push?)
  }

  lemma PrecededStays(t: seq<Effect>, more: seq<Effect>, i: nat)
    requires i < |t| && Preceded(t, i)
    ensures Preceded(t + more, i)
  {
    var u := t + more;
    assert u[i] == t[i] && (i > 0 ==> u[i - 1] == t[i - 1]);
  }

  lemma OrderlyPush(t: seq<Effect>, e: Effect)
    requires Orderly(t) && Preceded(t + [e], |t|)
    ensures InPlace(t + [e]) && (e != Commit(true) ==> Orderly(t + [e]))
  {
    hide Red, FailingNames;
    var u := t + [e];
    forall i | 0 <= i < |u|
      ensures Preceded(u, i)
    {
      if i < |t| {
        PrecededStays(t, [e], i);
      }
    }
  }

  lemma OrderlyCommit(t: seq<Effect>, pushed: bool)
    requires Orderly(t) && Preceded(t + [Commit(true)], |t|)
    ensures Orderly(t + [Commit(true), Push(pushed)]) && InPlace(t + [Commit(true), Push(pushed)])
  {
    hide Red, FailingNames;
    var u := t + [Commit(true), Push(pushed)];
    forall i | 0 <= i < |u|
      ensures Preceded(u, i)
    {
      if i < |t| {
        PrecededStays(t, [Commit(true), Push(pushed)], i);
      }
    }
  }

  /** The effect is what the environment answers to everything before it, and it was not cut off there. */
  ghost predicate Says(past: seq<Effect>, e: Effect, env: Env)
  {
    && !env.dies(past)
    && match e
       case Poll(answer) => answer == env.poll(past)
       case AskAgent(_, resolved) => resolved == env.resolved(past)
       case CheckTree(dirty) => dirty == env.dirty(past)
       case Commit(ok) => ok == env.commit(past)
       case Push(ok) => ok == env.push(past)
  }

  /** Nothing is made up: every effect is the environment's own answer. */
  ghost predicate Told(t: seq<Effect>, env: Env)
  {
    forall i | 0 <= i < |t| :: Says(t[..i], t[i], env)
  }

  lemma ToldPush(t: seq<Effect>, env: Env, e: Effect)
    requires Told(t, env) && Says(t, e, env)
    ensures Told(t + [e], env)
  {
    hide Says;
    var u := t + [e];
    forall i | 0 <= i < |u|
      ensures Says(u[..i], u[i], env)
    {
      assert u[..i] == if i < |t| then t[..i] else t;
    }
  }

  /** Why the loop gave up. */
  ghost predicate GaveUp(t: seq<Effect>, maxAttempts: nat, maxPolls: nat)
  {
    t != [] &&
    match t[|t| - 1]
    case Poll(a) =>
      a.Unreadable? || (Red(a) && Count(t, AgentCall) == maxAttempts) || (Unfinished(a) && Waits(t) == maxPolls + 1)
    case AskAgent(_, resolved) => !Claims(resolved)
    case CheckTree(dirty) => !dirty
    case _ => false
  }

  /** CI lets the merge go ahead: the last poll was green, or it was the fourth to find no checks at all. */
  ghost predicate Passed(t: seq<Effect>)
  {
    && t != [] && t[|t| - 1].Poll?
    && (Green(t[|t| - 1].answer) || (Empty(t[|t| - 1].answer) && Count(t, EmptyPoll) == NO_CHECKS_SETTLE_POLLS + 1))
  }

  /** The polls that the budgets of `attempt` fixes come to. */
  ghost function Allowance(maxPolls: nat, attempt: nat): nat { maxPolls * attempt }

  /** Effects, polls and agent calls counted as the loop's own counters see them. */
  ghost predicate Tallied(t: seq<Effect>, attempt: nat, polls: nat, nonePolls: nat, maxPolls: nat)
  {
    && Count(t, AgentCall) == attempt && Count(t, AnyCommit) <= attempt
    && Count(t, EmptyPoll) == nonePolls && Waits(t) == polls
    && Count(t, AnyPoll) <= Allowance(maxPolls, attempt) + polls + nonePolls + attempt
  }

  /**
    After a red poll the agent is asked once. What it claims to have fixed is looked for in
    the tree and committed, and a commit is pushed; unless that was cut off or came to
    nothing, the loop goes on.
   */
  method Repair(env: Env, failing: seq<string>, t0: seq<Effect>)
    returns (ended: Option<Verdict>, committed: bool, t: seq<Effect>)
    requires Orderly(t0) && Told(t0, env) && !env.dies(t0) && Preceded(t0 + [AskAgent(failing, None)], |t0|)
    ensures InPlace(t) && Told(t, env) && |t0| < |t| && (ended != Some(Cut) ==> Orderly(t))
    ensures ended != Some(Pass) && (ended == Some(Cut) <==> env.dies(t))
    ensures ended == Some(Fail) <==>
      && !env.dies(t)
      && match t[|t| - 1]
         case AskAgent(_, resolved) => !Claims(resolved)
         case CheckTree(dirty) => !dirty
         case _ => false
    ensures ended == None <==> !env.dies(t) && (t[|t| - 1] == Commit(false) || t[|t| - 1].Push?)
    ensures Count(t, AnyPoll) == Count(t0, AnyPoll) && Count(t, EmptyPoll) == Count(t0, EmptyPoll)
    ensures Count(t, AgentCall) == Count(t0, AgentCall) + 1 && Count(t, AnyCommit) <= Count(t0, AnyCommit) + 1
    ensures ended == None ==> Waits(t) == if committed then 0 else Waits(t0)
  {
    hide Red, FailingNames, Orderly, InPlace, Count, Waits, Told;
    committed := false;
    var resolved := env.resolved(t0);
    ToldPush(t0, env, AskAgent(failing, resolved));
    Push1(t0, AskAgent(failing, resolved));
    t := t0 + [AskAgent(failing, resolved)];
    if env.dies(t) {
      return Some(Cut), false, t;
    }
    if resolved.None? || resolved.value == 0 {
      return Some(Fail), false, t;
    }
    var dirty := env.dirty(t);
    ToldPush(t, env, CheckTree(dirty));
    Push1(t, CheckTree(dirty));
    t := t + [CheckTree(dirty)];
    if env.dies(t) {
      return Some(Cut), false, t;
    }
    if !dirty {
      return Some(Fail), false, t;
    }
    committed := env.commit(t);
    ghost var before := t;
    ToldPush(t, env, Commit(committed));
    Push1(t, Commit(committed));
    t := t + [Commit(committed)];
    if env.dies(t) {
      return Some(Cut), committed, t;
    }
    if committed {
      var pushed := env.push(t);
      ToldPush(t, env, Push(pushed));
      PushCommit(before, pushed);
      assert before + [Commit(true), Push(pushed)] == t + [Push(pushed)];
      t := t + [Push(pushed)];
      if env.dies(t) {
        return Some(Cut), committed, t;
      }
    }
    ended := None;
  }

  /**
    Whatever the environment answers, the loop ends, within the stated numbers of polls,
    agent calls and commits although each fix resets the polling budget, and everything it
    goes by is the environment's own answer to what came before. Unless it is cut
    off, which can happen after any effect, it succeeds exactly when CI passed, and
    otherwise says why in its last effect.
   */
  method CiFixLoop(env: Env, maxAttempts: nat, maxPolls: nat) returns (r: Verdict, t: seq<Effect>)
    ensures InPlace(t) && (r != Cut ==> Orderly(t)) && Told(t, env)
    ensures r == Cut <==> env.dies(t)
    ensures r == Pass <==> !env.dies(t) && Passed(t)
    ensures r == Fail <==> !env.dies(t) && GaveUp(t, maxAttempts, maxPolls)
    ensures Count(t, AnyPoll) <= maxPolls * (maxAttempts + 1) + maxAttempts + 4
    ensures Count(t, AgentCall) <= maxAttempts && Count(t, AnyCommit) <= maxAttempts
  {
    hide Green, Empty, Red, Unfinished, FailingNames, Orderly, InPlace, Count, Waits, Told, Allowance;
    t := [];
    assert Told(t, env) by { NothingTold(env); }
    Budget(maxPolls, 0, maxAttempts);
    if env.dies(t) {
      StartTallied(maxPolls);
      return Cut, t;
    }
    var attempt, polls, nonePolls := 0, 0, 0;
    StartTallied(maxPolls);
    while true
      invariant Orderly(t) && Tallied(t, attempt, polls, nonePolls, maxPolls) && Told(t, env) && !env.dies(t)
      invariant attempt <= maxAttempts && polls <= maxPolls && nonePolls <= NO_CHECKS_SETTLE_POLLS
      decreases maxAttempts - attempt, (NO_CHECKS_SETTLE_POLLS - nonePolls) + (maxPolls - polls)
    {
      Budget(maxPolls, attempt, maxAttempts);
      var a := env.poll(t);
      ToldPush(t, env, Poll(a));
      Distinct(a);
      CountPush(t, Poll(a));
      WaitsPush(t, Poll(a));
      OrderlyPush(t, Poll(a));
      t := t + [Poll(a)];
      if env.dies(t) {
        return Cut, t;
      }
      var state, failing := CiStatus(a);
      if state == Success {
        return Pass, t;
      }
      if state == NoChecks {
        nonePolls := nonePolls + 1;
        if nonePolls > NO_CHECKS_SETTLE_POLLS {
          return Pass, t;
        }
        continue;
      }
      if state == Unknown {
        return Fail, t;
      }
      if state == Pending {
        polls := polls + 1;
        if polls > maxPolls {
          return Fail, t;
        }
        continue;
      }
      if attempt >= maxAttempts {
        return Fail, t;
      }
      attempt := attempt + 1;
      Budget(maxPolls, attempt, maxAttempts);
      var ended, committed;
      ended, committed, t := Repair(env, failing, t);
      if ended.Some? {
        return ended.value, t;
      }
      if committed {
        polls := 0;
      }
    }
  }

  lemma NothingTold(env: Env)
    ensures Told([], env)
  {
  }

  lemma StartTallied(maxPolls: nat)
    ensures Orderly([]) && InPlace([]) && Tallied([], 0, 0, 0, maxPolls)
  {
  }

  lemma Budget(maxPolls: nat, attempt: nat, maxAttempts: nat)
    requires attempt <= maxAttempts
    ensures Allowance(maxPolls, attempt) + maxPolls <= maxPolls * (maxAttempts + 1)
    ensures Allowance(maxPolls, attempt + 1) == Allowance(maxPolls, attempt) + maxPolls
  {
    assert maxPolls * attempt <= maxPolls * maxAttempts;
    assert maxPolls * (maxAttempts + 1) == maxPolls * maxAttempts + maxPolls;
  }

  /** A poll is of one kind only. */
  lemma Distinct(a: Answer)
    ensures Green(a) ==> !Empty(a) && !Red(a) && !Unfinished(a) && !a.Unreadable?
    ensures Empty(a) ==> !Red(a) && !Unfinished(a) && !a.Unreadable?
    ensures Red(a) ==> a.Rollup? && !Unfinished(a)
    ensures Unfinished(a) ==> !a.Unreadable?
  {
  }

  lemma Push1(t: seq<Effect>, e: Effect)
    requires Orderly(t) && Preceded(t + [e], |t|) && !e.Poll?
    ensures InPlace(t + [e]) && (e != Commit(true) ==> Orderly(t + [e]) && Waits(t + [e]) == Waits(t))
    ensures Count(t + [e], AnyPoll) == Count(t, AnyPoll) && Count(t + [e], EmptyPoll) == Count(t, EmptyPoll)
    ensures Count(t + [e], AgentCall) == Count(t, AgentCall) + if e.AskAgent? then 1 else 0
    ensures Count(t + [e], AnyCommit) == Count(t, AnyCommit) + if e.Commit? then 1 else 0
  {
    hide Orderly, Preceded, Count, Waits;
    OrderlyPush(t, e);
    CountPush(t, e);
    WaitsPush(t, e);
  }

  lemma PushCommit(t: seq<Effect>, pushed: bool)
    requires Orderly(t) && Preceded(t + [Commit(true)], |t|)
    ensures var t' := t + [Commit(true), Push(pushed)];
      && Orderly(t') && InPlace(t') && Waits(t') == 0 && Count(t', AnyPoll) == Count(t, AnyPoll)
      && Count(t', EmptyPoll) == Count(t, EmptyPoll)
      && Count(t', AgentCall) == Count(t, AgentCall) && Count(t', AnyCommit) == Count(t, AnyCommit) + 1
  {
    hide Orderly, Preceded, Count, Waits;
    OrderlyCommit(t, pushed);
    CountPush(t, Commit(true));
    WaitsPush(t, Commit(true));
    CountPush(t + [Commit(true)], Push(pushed));
    WaitsPush(t + [Commit(true)], Push(pushed));
    assert t + [Commit(true), Push(pushed)] == t + [Commit(true)] + [Push(pushed)];
  }
}
