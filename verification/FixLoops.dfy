/**
  The two loops that ask the agent to repair its own work, against an environment that may
  answer anything and may throw: until the tests pass, and until no blocker remains.
 */
module FixLoops {
  import opened Basics

  // ---------------------------------------------------------------------------
  // Until the tests pass
  // ---------------------------------------------------------------------------

  datatype Effect = Ran(rc: int) | Asked(resolved: Option<int>)

  /** The next answer may depend on everything so far; an agent without an answer threw. */
  datatype Env = Env(gate: seq<Effect> -> int, resolved: seq<Effect> -> Option<int>)

  /** Gate and agent take turns: only a red gate is followed, and only a claimed fix is tried out. */
  ghost predicate TakesTurns(t: seq<Effect>)
  {
    && (forall i | 0 <= i < |t| :: if i % 2 == 0 then t[i].Ran? else t[i].Asked?)
    && (forall i | 0 <= i < |t| - 1 && t[i].Ran? :: t[i].rc != 0)
    && (forall i | 0 <= i < |t| - 1 && t[i].Asked? :: t[i].resolved.Some? && t[i].resolved.value != 0)
  }

  lemma NoTurns()
    ensures TakesTurns([])
  {
  }

  /** The gate comes at even places, after a claimed fix; the agent at odd ones, after a red gate. */
  lemma NextTurn(t: seq<Effect>, e: Effect)
    requires TakesTurns(t) && (if |t| % 2 == 0 then e.Ran? else e.Asked?)
    requires t != [] ==>
      var last := t[|t| - 1];
      if last.Ran? then last.rc != 0 else last.resolved.Some? && last.resolved.value != 0
    ensures TakesTurns(t + [e])
  {
    var u := t + [e];
    assert forall i | 0 <= i < |t| :: u[i] == t[i];
  }

  /** Every effect is the environment's own answer to what came before. */
  ghost predicate Told(t: seq<Effect>, env: Env)
  {
    forall i | 0 <= i < |t| :: t[i] == if t[i].Ran? then Ran(env.gate(t[..i])) else Asked(env.resolved(t[..i]))
  }

  lemma NothingTold(env: Env)
    ensures Told([], env)
  {
  }

  lemma ToldPush(t: seq<Effect>, env: Env, e: Effect)
    requires Told(t, env) && e == if e.Ran? then Ran(env.gate(t)) else Asked(env.resolved(t))
    ensures Told(t + [e], env)
  {
    var u := t + [e];
    forall i | 0 <= i < |u|
      ensures u[i] == if u[i].Ran? then Ran(env.gate(u[..i])) else Asked(env.resolved(u[..i]))
    {
      assert u[..i] == if i < |t| then t[..i] else t;
    }
  }

  /**
    The loop ends after at most `maxAttempts` agent calls and one gate run more. It
    succeeds exactly when its last gate run was green, and otherwise ends with a red gate
    after the last attempt, or with an agent that fixed nothing or threw.
   */
  method ResolveLoop(env: Env, maxAttempts: nat) returns (ok: bool, t: seq<Effect>)
    ensures TakesTurns(t) && Told(t, env) && 1 <= |t| <= 2 * maxAttempts + 1
    ensures ok <==> t[|t| - 1] == Ran(0)
    ensures !ok <==>
      || (t[|t| - 1].Ran? && t[|t| - 1].rc != 0 && |t| == 2 * maxAttempts + 1)
      || (t[|t| - 1].Asked? && (t[|t| - 1].resolved == None || t[|t| - 1].resolved == Some(0)))
  {
    hide Told, TakesTurns;
    t := [];
    var attempt := 0;
    NothingTold(env);
    NoTurns();
    while true
      invariant attempt <= maxAttempts && |t| == 2 * attempt && TakesTurns(t) && Told(t, env)
      invariant |t| > 0 ==> t[|t| - 1].Asked? && t[|t| - 1].resolved.Some? && t[|t| - 1].resolved.value != 0
      decreases maxAttempts - attempt
    {
      var rc := env.gate(t);
      ToldPush(t, env, Ran(rc));
      NextTurn(t, Ran(rc));
      t := t + [Ran(rc)];
      if rc == 0 {
        return true, t;
      }
      if attempt >= maxAttempts {
        return false, t;
      }
      attempt := attempt + 1;
      var resolved := env.resolved(t);
      ToldPush(t, env, Asked(resolved));
      NextTurn(t, Asked(resolved));
      t := t + [Asked(resolved)];
      if resolved.None? || resolved.value == 0 {
        return false, t;
      }
    }
  }

  // ---------------------------------------------------------------------------
  // Until no blocker remains
  // ---------------------------------------------------------------------------

  datatype Finding = Finding(severity: string, description: string, location: string)

  function Blockers(findings: seq<Finding>): seq<Finding>
  {
    if findings == [] then []
    else
      var last := findings[|findings| - 1];
      Blockers(findings[..|findings| - 1]) + if last.severity == "blocker" then [last] else []
  }

  /** `at` are the places of the blockers, in order. */
  ghost predicate Places(at: seq<nat>, findings: seq<Finding>)
  {
    && (forall i, j | 0 <= i < j < |at| :: at[i] < at[j])
    && (forall i | 0 <= i < |at| :: at[i] < |findings|)
    && (forall n | 0 <= n < |findings| :: n in at <==> findings[n].severity == "blocker")
  }

  lemma PlacesPush(at: seq<nat>, findings: seq<Finding>, f: Finding)
    requires Places(at, findings)
    ensures Places(if f.severity == "blocker" then at + [|findings|] else at, findings + [f])
  {
    var more := findings + [f];
    assert |findings| !in at;
    assert forall n | 0 <= n < |findings| :: more[n] == findings[n];
  }

  /** `picked` are the findings at those places. */
  ghost predicate Picks(at: seq<nat>, findings: seq<Finding>, picked: seq<Finding>)
  {
    |at| == |picked| && forall i | 0 <= i < |at| :: at[i] < |findings| && picked[i] == findings[at[i]]
  }

  lemma PicksPush(at: seq<nat>, findings: seq<Finding>, picked: seq<Finding>, f: Finding)
    requires Picks(at, findings, picked)
    ensures Picks(at, findings + [f], picked) && Picks(at + [|findings|], findings + [f], picked + [f])
  {
  }

  /** The blockers are the findings of that severity, each where it stood among the others. */
  lemma {:induction false} BlockersAre(findings: seq<Finding>) returns (at: seq<nat>)
    ensures Places(at, findings) && Picks(at, findings, Blockers(findings))
  {
    if findings == [] {
      return [];
    }
    hide Places, Picks;
    var before, last := findings[..|findings| - 1], findings[|findings| - 1];
    at := BlockersAre(before);
    PlacesPush(at, before, last);
    PicksPush(at, before, Blockers(before), last);
    assert findings == before + [last] && Blockers(before) + [] == Blockers(before);
    if last.severity == "blocker" {
      at := at + [|before|];
    }
  }

  datatype Reply = Reply(resolved: int, remaining: int)

  /** A call of the agent: what it is given, whether it is told of earlier attempts, and what it says. */
  datatype Call = Call(blockers: seq<Finding>, retry: bool, reply: Option<Reply>)

  /** The blockers left when call number `i` is made, by the agent's own count. */
  ghost function Left(blockers: seq<Finding>, calls: seq<Call>, i: nat): int
    requires i <= |calls|
  {
    if i == 0 || calls[i - 1].reply.None? then |blockers| else calls[i - 1].reply.value.remaining
  }

  /** Call number `i` was answered, claims a fix, and leaves fewer blockers, but some. */
  ghost predicate Progresses(blockers: seq<Finding>, calls: seq<Call>, i: nat)
    requires i < |calls|
  {
    && calls[i].reply.Some? && calls[i].reply.value.resolved != 0
    && 0 < calls[i].reply.value.remaining < Left(blockers, calls, i)
  }

  /** Every call is given all blockers and nothing else, and each but the last made progress. */
  ghost predicate Patches(blockers: seq<Finding>, calls: seq<Call>)
  {
    && (forall i | 0 <= i < |calls| :: calls[i].blockers == blockers && calls[i].retry == (i > 0))
    && (forall i | 0 <= i < |calls| - 1 :: Progresses(blockers, calls, i))
  }

  /** Every reply is the agent's own, to the calls before. */
  ghost predicate Replied(calls: seq<Call>, env: seq<Call> -> Option<Reply>)
  {
    forall i | 0 <= i < |calls| :: calls[i].reply == env(calls[..i])
  }

  lemma RepliedPush(calls: seq<Call>, env: seq<Call> -> Option<Reply>, c: Call)
    requires Replied(calls, env) && c.reply == env(calls)
    ensures Replied(calls + [c], env)
  {
    var more := calls + [c];
    forall i | 0 <= i < |more|
      ensures more[i].reply == env(more[..i])
    {
      assert more[..i] == if i < |calls| then calls[..i] else calls;
    }
  }

  lemma OneMoreCall(blockers: seq<Finding>, calls: seq<Call>, c: Call)
    requires Patches(blockers, calls) && c.blockers == blockers && c.retry == (|calls| > 0)
    requires calls != [] ==> Progresses(blockers, calls, |calls| - 1)
    ensures Patches(blockers, calls + [c])
    ensures Left(blockers, calls + [c], |calls|) == Left(blockers, calls, |calls|)
  {
    var more := calls + [c];
    forall i | 0 <= i < |more| - 1
      ensures Progresses(blockers, more, i)
    {
      assert Progresses(blockers, calls, i);
      assert more[i] == calls[i] && (i > 0 ==> more[i - 1] == calls[i - 1]);
    }
  }

  /**
    The loop asks at most `maxAttempts` times, and never more often than there are
    blockers. It succeeds exactly when there are none left, and otherwise has used up its
    attempts or was not answered with progress.
   */
  method PatchLoop(env: seq<Call> -> Option<Reply>, findings: seq<Finding>, maxAttempts: nat)
    returns (ok: bool, calls: seq<Call>)
    ensures Patches(Blockers(findings), calls) && Replied(calls, env)
    ensures |calls| <= maxAttempts && |calls| <= |Blockers(findings)|
    ensures calls == [] <==> Blockers(findings) == [] || maxAttempts == 0
    ensures ok <==> Left(Blockers(findings), calls, |calls|) == 0
    ensures !ok ==> |calls| == maxAttempts || !Progresses(Blockers(findings), calls, |calls| - 1)
  {
    hide Patches, Blockers, Replied;
    calls := [];
    var blockers := SelectBlockers(findings);
    NoCalls(blockers, env);
    if blockers == [] {
      return true, calls;
    }
    var remaining, attempt := |blockers|, 0;
    while remaining > 0 && attempt < maxAttempts
      invariant attempt == |calls| <= maxAttempts && Patches(blockers, calls) && Replied(calls, env)
      invariant remaining == Left(blockers, calls, |calls|) && |calls| <= |blockers|
      invariant remaining > 0 ==> |calls| + remaining <= |blockers|
      invariant calls != [] && remaining > 0 ==> Progresses(blockers, calls, |calls| - 1)
      invariant calls != [] && remaining <= 0 ==> !Progresses(blockers, calls, |calls| - 1)
      invariant calls == [] ==> remaining == |blockers|
      decreases maxAttempts - attempt
    {
      attempt := attempt + 1;
      var reply := env(calls);
      OneMoreCall(blockers, calls, Call(blockers, attempt > 1, reply));
      RepliedPush(calls, env, Call(blockers, attempt > 1, reply));
      calls := calls + [Call(blockers, attempt > 1, reply)];
      if reply.None? {
        return false, calls;
      }
      if reply.value.resolved == 0 || reply.value.remaining >= remaining {
        return reply.value.remaining == 0, calls;
      }
      remaining := reply.value.remaining;
    }
    ok := remaining == 0;
  }

  lemma NoCalls(blockers: seq<Finding>, env: seq<Call> -> Option<Reply>)
    ensures Patches(blockers, []) && Replied([], env)
  {
  }

  method SelectBlockers(findings: seq<Finding>) returns (blockers: seq<Finding>)
    ensures blockers == Blockers(findings)
  {
    blockers := [];
    for i := 0 to |findings|
      invariant blockers == Blockers(findings[..i])
    {
      assert findings[..i + 1][..i] == findings[..i];
      if findings[i].severity == "blocker" {
        blockers := blockers + [findings[i]];
      }
    }
    assert findings[..|findings|] == findings;
  }
}
