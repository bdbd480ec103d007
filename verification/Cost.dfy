/**
  What a run cost: messages add up to an attempt, attempts to a phase, phases to the run.
  A cost is absent when nothing was reported, unpriced as soon as something could not be
  priced, and otherwise an amount. A token count is absent when no message had one, and
  otherwise the sum of those that had.
 */
module Costs {
  import opened Basics

  datatype Cost = Absent | Unpriced | Known(amount: real)

  /** What one message reports; a count or amount that is not a finite number is none. */
  datatype Message = Message(input: Option<int>, output: Option<int>, cached: Option<int>, total: Option<real>)

  /** What is known of an attempt or a phase; of reasoning tokens the messages say nothing. */
  datatype Usage = Usage(input: Option<int>, output: Option<int>, cached: Option<int>, reasoning: Option<int>,
                         cost: Cost)

  // ---------------------------------------------------------------------------
  // All messages at once
  // ---------------------------------------------------------------------------

  ghost function Dollars(ms: seq<Message>): real
  {
    if ms == [] then 0.0
    else Dollars(ms[..|ms| - 1]) + if ms[|ms| - 1].total.Some? then ms[|ms| - 1].total.value else 0.0
  }

  ghost predicate AllPriced(ms: seq<Message>)
  {
    forall m | m in ms :: m.total.Some?
  }

  ghost function FlatCost(ms: seq<Message>): Cost
  {
    if ms == [] then Absent else if AllPriced(ms) then Known(Dollars(ms)) else Unpriced
  }

  /** The counts that are there, in order. */
  ghost function Present(counts: seq<Option<int>>): seq<int>
  {
    if counts == [] then []
    else Present(counts[..|counts| - 1]) + if counts[|counts| - 1].Some? then [counts[|counts| - 1].value] else []
  }

  ghost function Sum(ns: seq<int>): int
  {
    if ns == [] then 0 else Sum(ns[..|ns| - 1]) + ns[|ns| - 1]
  }

  ghost function FlatCount(counts: seq<Option<int>>): Option<int>
  {
    if Present(counts) == [] then None else Some(Sum(Present(counts)))
  }

  datatype Kind = Input | Output | Cached

  function CountOf(m: Message, k: Kind): Option<int>
  {
    match k
    case Input => m.input
    case Output => m.output
    case Cached => m.cached
  }

  function Counts(ms: seq<Message>, k: Kind): seq<Option<int>>
  {
    seq(|ms|, i requires 0 <= i < |ms| => CountOf(ms[i], k))
  }

  ghost function Flat(ms: seq<Message>): Usage
  {
    Usage(FlatCount(Counts(ms, Input)), FlatCount(Counts(ms, Output)), FlatCount(Counts(ms, Cached)), None,
          FlatCost(ms))
  }

  // ---------------------------------------------------------------------------
  // Two usages taken together
  // ---------------------------------------------------------------------------

  function PlusCost(a: Cost, b: Cost): Cost
  {
    if a == Unpriced || b == Unpriced then Unpriced
    else if a == Absent then b
    else if b == Absent then a
    else Known(a.amount + b.amount)
  }

  function PlusCount(a: Option<int>, b: Option<int>): Option<int>
  {
    if a.None? then b else if b.None? then a else Some(a.value + b.value)
  }

  function Plus(a: Usage, b: Usage): Usage
  {
    Usage(PlusCount(a.input, b.input), PlusCount(a.output, b.output), PlusCount(a.cached, b.cached),
          PlusCount(a.reasoning, b.reasoning), PlusCost(a.cost, b.cost))
  }

  lemma {:induction false} DollarsConcat(a: seq<Message>, b: seq<Message>)
    ensures Dollars(a + b) == Dollars(a) + Dollars(b)
  {
    if b == [] {
      assert a + b == a;
    } else {
      DollarsConcat(a, b[..|b| - 1]);
      assert (a + b)[..|a + b| - 1] == a + b[..|b| - 1];
    }
  }

  lemma CostConcat(a: seq<Message>, b: seq<Message>)
    ensures FlatCost(a + b) == PlusCost(FlatCost(a), FlatCost(b))
  {
    DollarsConcat(a, b);
    if a == [] {
      assert a + b == b;
    } else if b == [] {
      assert a + b == a;
    }
  }

  lemma {:induction false} SumConcat(a: seq<int>, b: seq<int>)
    ensures Sum(a + b) == Sum(a) + Sum(b)
  {
    if b == [] {
      assert a + b == a;
    } else {
      SumConcat(a, b[..|b| - 1]);
      assert (a + b)[..|a + b| - 1] == a + b[..|b| - 1];
    }
  }

  lemma {:induction false} PresentConcat(a: seq<Option<int>>, b: seq<Option<int>>)
    ensures Present(a + b) == Present(a) + Present(b)
  {
    if b == [] {
      assert a + b == a;
    } else {
      PresentConcat(a, b[..|b| - 1]);
      assert (a + b)[..|a + b| - 1] == a + b[..|b| - 1];
    }
  }

  lemma CountConcat(a: seq<Option<int>>, b: seq<Option<int>>)
    ensures FlatCount(a + b) == PlusCount(FlatCount(a), FlatCount(b))
  {
    PresentConcat(a, b);
    SumConcat(Present(a), Present(b));
    if Present(a) == [] {
      assert Present(a) + Present(b) == Present(b);
    } else if Present(b) == [] {
      assert Present(a) + Present(b) == Present(a);
    }
  }

  /** How messages are grouped does not matter. */
  lemma FlatConcat(a: seq<Message>, b: seq<Message>)
    ensures Flat(a + b) == Plus(Flat(a), Flat(b))
  {
    hide FlatCount, FlatCost, PlusCost;
    CostConcat(a, b);
    forall k: Kind
      ensures FlatCount(Counts(a + b, k)) == PlusCount(FlatCount(Counts(a, k)), FlatCount(Counts(b, k)))
    {
      CountConcat(Counts(a, k), Counts(b, k));
      assert Counts(a + b, k) == Counts(a, k) + Counts(b, k);
    }
  }

  /** One message by itself. */
  lemma FlatOne(m: Message)
    ensures Flat([m]) ==
      Usage(m.input, m.output, m.cached, None, if m.total.Some? then Known(m.total.value) else Unpriced)
  {
    hide FlatCount;
    forall k: Kind
      ensures FlatCount(Counts([m], k)) == CountOf(m, k)
    {
      assert Counts([m], k) == [CountOf(m, k)];
      CountOne(CountOf(m, k));
    }
    assert [m][..0] == [];
    assert Dollars([m]) == if m.total.Some? then m.total.value else 0.0;
    assert m in [m];
  }

  lemma CountOne(n: Option<int>)
    ensures FlatCount([n]) == n
  {
    assert [n][..0] == [];
    assert Present([n]) == if n.Some? then [n.value] else [];
    if n.Some? {
      assert [n.value][..0] == [];
      assert Sum([n.value]) == Sum([]) + n.value;
    }
  }

  // ---------------------------------------------------------------------------
  // Level by level
  // ---------------------------------------------------------------------------

  method Accumulate(current: Option<int>, value: Option<int>) returns (r: Option<int>)
    ensures r == PlusCount(current, value)
  {
    r := if value.None? then current else Some((if current.Some? then current.value else 0) + value.value);
  }

  /** The usage of one attempt, message by message. */
  class UsageTotals {
    var input: Option<int>
    var output: Option<int>
    var cached: Option<int>
    var cost: Cost
    var seen: bool
    ghost var messages: seq<Message>

    ghost predicate Valid()
      reads this
    {
      Usage(input, output, cached, None, cost) == Flat(messages) && (seen <==> messages != [])
    }

    constructor ()
      ensures Valid() && messages == []
    {
      input, output, cached, cost, seen, messages := None, None, None, Absent, false, [];
    }

    method Add(m: Message)
      requires Valid()
      modifies this
      ensures Valid() && messages == old(messages) + [m]
    {
      hide Flat;
      FlatConcat(messages, [m]);
      FlatOne(m);
      seen := true;
      input := Accumulate(input, m.input);
      output := Accumulate(output, m.output);
      cached := Accumulate(cached, m.cached);
      if m.total == None || cost == Unpriced {
        cost := Unpriced;
      } else {
        cost := Known((if cost.Known? then cost.amount else 0.0) + m.total.value);
      }
      messages := messages + [m];
    }

    method ToPhaseUsage() returns (r: Usage)
      requires Valid()
      ensures r == Flat(messages)
    {
      if !seen {
        return Usage(None, None, None, None, Absent);
      }
      r := Usage(input, output, cached, None, if cost == Absent then Unpriced else cost);
    }
  }

  method AddCounts(a: Option<int>, b: Option<int>) returns (r: Option<int>)
    ensures r == PlusCount(a, b)
  {
    r := if a.None? && b.None? then None
         else Some((if a.Some? then a.value else 0) + (if b.Some? then b.value else 0));
  }

  /** The usage of two attempts at a phase. */
  method MergeUsage(a: Usage, b: Usage) returns (r: Usage)
    ensures r == Plus(a, b)
  {
    var input := AddCounts(a.input, b.input);
    var output := AddCounts(a.output, b.output);
    var cached := AddCounts(a.cached, b.cached);
    var reasoning := AddCounts(a.reasoning, b.reasoning);
    var cost := Absent;
    if a.cost == Unpriced || b.cost == Unpriced {
      cost := Unpriced;
    } else if a.cost != Absent || b.cost != Absent {
      cost := Known((if a.cost.Known? then a.cost.amount else 0.0) + (if b.cost.Known? then b.cost.amount else 0.0));
    }
    r := Usage(input, output, cached, reasoning, cost);
  }

  method AttemptUsage(messages: seq<Message>) returns (r: Usage)
    ensures r == Flat(messages)
  {
    hide Flat;
    var totals := new UsageTotals();
    for i := 0 to |messages|
      invariant totals.Valid() && totals.messages == messages[..i] && fresh(totals)
    {
      totals.Add(messages[i]);
    }
    assert messages[..|messages|] == messages;
    r := totals.ToPhaseUsage();
  }

  /** A phase takes one attempt, or two. */
  datatype Attempts = First(only: seq<Message>) | Retried(first: seq<Message>, second: seq<Message>)

  function Messages(p: Attempts): seq<Message>
  {
    match p
    case First(ms) => ms
    case Retried(ms, ns) => ms + ns
  }

  function AllMessages(phases: seq<Attempts>): seq<Message>
  {
    if phases == [] then [] else AllMessages(phases[..|phases| - 1]) + Messages(phases[|phases| - 1])
  }

  method PhaseUsage(p: Attempts) returns (r: Usage)
    ensures r == Flat(Messages(p))
  {
    hide Flat;
    match p
    case First(ms) =>
      r := AttemptUsage(ms);
    case Retried(ms, ns) =>
      var a := AttemptUsage(ms);
      var b := AttemptUsage(ns);
      r := MergeUsage(a, b);
      FlatConcat(ms, ns);
  }

  /** The run's total cost, taking in one phase's. */
  method RecordUsage(total: Cost, usage: Usage) returns (r: Cost)
    ensures r == PlusCost(total, usage.cost)
  {
    r := total;
    if usage.cost == Unpriced {
      r := Unpriced;
    } else if usage.cost != Absent && total != Unpriced {
      r := Known((if total.Known? then total.amount else 0.0) + usage.cost.amount);
    }
  }

  /** A run that comes up phase by phase, attempt by attempt, message by message, totals its messages. */
  method RunTotal(phases: seq<Attempts>) returns (total: Cost)
    ensures total == FlatCost(AllMessages(phases))
  {
    hide FlatCost;
    total := Absent;
    assert FlatCost([]) == Absent by { CostOfNone(); }
    for i := 0 to |phases|
      invariant total == FlatCost(AllMessages(phases[..i]))
    {
      var usage := PhaseUsage(phases[i]);
      total := RecordUsage(total, usage);
      CostConcat(AllMessages(phases[..i]), Messages(phases[i]));
      assert phases[..i + 1][..i] == phases[..i];
    }
    assert phases[..|phases|] == phases;
  }

  lemma CostOfNone()
    ensures FlatCost([]) == Absent
  {
  }
}
