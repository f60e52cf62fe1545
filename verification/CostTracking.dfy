/** The cost tracker: per-model and total spend, and the budget. */
module CostTracking {
  import opened PyLists
  import opened UsageBilling

  /** Prices per thousand tokens. */
  datatype Pricing = Pricing(input: real, output: real, read: real, creation: real)

  function Cost(p: Pricing, c: Charge): real
  {
    (c.input as real / 1000.0) * p.input + (c.output as real / 1000.0) * p.output
    + (c.read as real / 1000.0) * p.read + (c.creation as real / 1000.0) * p.creation
  }

  function Plus(a: Charge, b: Charge): Charge
  {
    Charge(a.input + b.input, a.output + b.output, a.read + b.read, a.creation + b.creation)
  }

  /** A thousand tokens of one kind cost that kind's price. */
  lemma UnitPrices(p: Pricing)
    ensures Cost(p, Charge(1000, 0, 0, 0)) == p.input && Cost(p, Charge(0, 1000, 0, 0)) == p.output
    ensures Cost(p, Charge(0, 0, 1000, 0)) == p.read && Cost(p, Charge(0, 0, 0, 1000)) == p.creation
  {
  }

  /** Costs add up over tokens, so the unit prices determine what every call costs. */
  lemma CostAdds(p: Pricing, a: Charge, b: Charge)
    ensures Cost(p, Plus(a, b)) == Cost(p, a) + Cost(p, b)
  {
    AmountAdds(a.input, b.input, p.input);
    AmountAdds(a.output, b.output, p.output);
    AmountAdds(a.read, b.read, p.read);
    AmountAdds(a.creation, b.creation, p.creation);
  }

  lemma AmountAdds(m: int, n: int, price: real)
    ensures ((m + n) as real / 1000.0) * price == (m as real / 1000.0) * price + (n as real / 1000.0) * price
  {
    assert (m + n) as real / 1000.0 == m as real / 1000.0 + n as real / 1000.0;
  }

  /** The same call with its cache reads charged as plain input. */
  function Uncached(c: Charge): Charge
  {
    c.(input := c.input + c.read, read := 0)
  }

  /** The price difference of so many tokens. */
  function Discount(p: Pricing, read: int): real
  {
    (read as real / 1000.0) * (p.input - p.read)
  }

  lemma UncachedCost(p: Pricing, c: Charge)
    ensures Cost(p, Uncached(c)) - Cost(p, c) == Discount(p, c.read)
  {
    var i, r := c.input as real / 1000.0, c.read as real / 1000.0;
    assert (c.input + c.read) as real / 1000.0 == i + r;
    assert (i + r) * p.input == i * p.input + r * p.input;
    assert r * (p.input - p.read) == r * p.input - r * p.read;
  }

  datatype ModelUsage = ModelUsage(tokens: Charge, calls: nat, cost: real, lastRead: int)

  const NO_USAGE := ModelUsage(Charge(0, 0, 0, 0), 0, 0.0, 0)

  datatype Call = Call(model: string, charge: Charge)

  /** What a log of calls amounts to for one model, and in all. */
  function UsageOf(prices: string -> Pricing, log: seq<Call>, model: string): ModelUsage
  {
    if log == [] then NO_USAGE
    else
      var u, last := UsageOf(prices, log[..|log| - 1], model), log[|log| - 1];
      if last.model != model then u
      else Charged(u, last.charge, Cost(prices(model), last.charge))
  }

  function Charged(u: ModelUsage, c: Charge, cost: real): ModelUsage
  {
    ModelUsage(Plus(u.tokens, c), u.calls + 1, u.cost + cost, c.read)
  }

  lemma UsageAppended(prices: string -> Pricing, log: seq<Call>, c: Call, m: string)
    ensures UsageOf(prices, log + [c], m) ==
      if c.model == m then Charged(UsageOf(prices, log, m), c.charge, Cost(prices(m), c.charge))
        else UsageOf(prices, log, m)
  {
    assert (log + [c])[..|log|] == log;
  }

  lemma UsageOfOne(prices: string -> Pricing, c: Call, m: string)
    ensures UsageOf(prices, [c], m) ==
      if c.model == m then ModelUsage(c.charge, 1, Cost(prices(m), c.charge), c.charge.read) else NO_USAGE
  {
    hide Cost;
    assert [c][..0] == [];
  }

  /** Usage adds up over two stretches: tokens, calls and cost, and the later stretch's latest
      cache read if there was a call in it. */
  predicate Joins(x: ModelUsage, y: ModelUsage, u: ModelUsage)
  {
    && u.tokens == Plus(x.tokens, y.tokens) && u.calls == x.calls + y.calls && u.cost == x.cost + y.cost
    && u.lastRead == if y.calls > 0 then y.lastRead else x.lastRead
  }

  lemma JoinsCharged(x: ModelUsage, y: ModelUsage, u: ModelUsage, c: Charge, cost: real)
    ensures Joins(x, y, u) ==> Joins(x, Charged(y, c, cost), Charged(u, c, cost))
    ensures Joins(x, NO_USAGE, x)
  {
  }

  lemma {:induction false} UsageAdds(prices: string -> Pricing, a: seq<Call>, b: seq<Call>, m: string)
    ensures Joins(UsageOf(prices, a, m), UsageOf(prices, b, m), UsageOf(prices, a + b, m))
  {
    if b == [] {
      assert a + b == a;
      hide Plus;
      JoinsCharged(UsageOf(prices, a, m), NO_USAGE, NO_USAGE, Charge(0, 0, 0, 0), 0.0);
    } else {
      var front, last := b[..|b| - 1], b[|b| - 1];
      assert b == front + [last] && a + b == (a + front) + [last];
      hide UsageOf, Cost, Joins, Charged;
      UsageAdds(prices, a, front, m);
      UsageAppended(prices, front, last, m);
      UsageAppended(prices, a + front, last, m);
      JoinsCharged(UsageOf(prices, a, m), UsageOf(prices, front, m), UsageOf(prices, a + front, m),
        last.charge, Cost(prices(m), last.charge));
    }
  }

  /** The models in the order of their first calls. */
  function Opened(log: seq<Call>): seq<string>
  {
    if log == [] then []
    else
      var before, model := Opened(log[..|log| - 1]), log[|log| - 1].model;
      before + if model in before then [] else [model]
  }

  lemma OpenedStep(log: seq<Call>, c: Call)
    ensures Opened(log + [c]) == Opened(log) + if c.model in Opened(log) then [] else [c.model]
  {
    assert (log + [c])[..|log|] == log;
  }

  /** The latest call of a model, if it has any. */
  function LatestCharge(log: seq<Call>, model: string): Option<Charge>
  {
    if log == [] then None
    else if log[|log| - 1].model == model then Some(log[|log| - 1].charge)
    else LatestCharge(log[..|log| - 1], model)
  }

  lemma {:induction false} LatestIsRecorded(prices: string -> Pricing, log: seq<Call>, model: string)
    ensures var u, latest := UsageOf(prices, log, model), LatestCharge(log, model);
      u.lastRead == if latest.Some? then latest.value.read else 0
    ensures LatestCharge(log, model).Some? <==> exists c :: c in log && c.model == model
  {
    if log != [] {
      var front, last := log[..|log| - 1], log[|log| - 1];
      assert log == front + [last];
      LatestIsRecorded(prices, front, model);
      if LatestCharge(front, model).Some? {
        var c :| c in front && c.model == model;
        assert c in log;
      }
      hide Cost, Plus;
    }
  }

  function Spent(prices: string -> Pricing, log: seq<Call>): real
  {
    if log == [] then 0.0
    else Spent(prices, log[..|log| - 1]) + Cost(prices(log[|log| - 1].model), log[|log| - 1].charge)
  }

  function SpentBy(prices: string -> Pricing, log: seq<Call>, models: seq<string>): real
  {
    if models == [] then 0.0
    else SpentBy(prices, log, models[..|models| - 1]) + UsageOf(prices, log, models[|models| - 1]).cost
  }

  ghost predicate Distinct(models: seq<string>)
  {
    forall i, j :: 0 <= i < j < |models| ==> models[i] != models[j]
  }

  lemma {:induction false} OneMoreCall(prices: string -> Pricing, log: seq<Call>, c: Call, models: seq<string>)
    requires Distinct(models)
    ensures SpentBy(prices, log + [c], models) ==
      SpentBy(prices, log, models) + if c.model in models then Cost(prices(c.model), c.charge) else 0.0
  {
    hide Cost;
    assert (log + [c])[..|log|] == log;
    if models != [] {
      var front, last := models[..|models| - 1], models[|models| - 1];
      OneMoreCall(prices, log, c, front);
      assert models == front + [last];
    }
  }

  /** The models' costs add up to the total: no call is lost and none is counted twice. */
  lemma {:induction false} ModelsAddUp(prices: string -> Pricing, log: seq<Call>, models: seq<string>)
    requires Distinct(models) && forall c :: c in log ==> c.model in models
    ensures SpentBy(prices, log, models) == Spent(prices, log)
  {
    if log == [] {
      NothingSpent(prices, models);
    } else {
      var front, last := log[..|log| - 1], log[|log| - 1];
      assert log == front + [last];
      ModelsAddUp(prices, front, models);
      OneMoreCall(prices, front, last, models);
    }
  }

  lemma {:induction false} NothingSpent(prices: string -> Pricing, models: seq<string>)
    ensures SpentBy(prices, [], models) == 0.0
  {
    if models != [] { NothingSpent(prices, models[..|models| - 1]); }
  }

  datatype Outcome = Recorded(cost: real) | BudgetExceeded(total: real, budget: real)

  /** What recording the last call of the log reports. */
  function VerdictOn(prices: string -> Pricing, budget: Option<real>, log: seq<Call>): Outcome
    requires log != []
  {
    var last := log[|log| - 1];
    if budget.Some? && Spent(prices, log) >= budget.value then BudgetExceeded(Spent(prices, log), budget.value)
    else Recorded(Cost(prices(last.model), last.charge))
  }

  /** One accumulator for each model in the log, in the order of the first calls. */
  ghost predicate Books(prices: string -> Pricing, log: seq<Call>, models: seq<string>, usage: map<string, ModelUsage>)
  {
    && Distinct(models) && (forall m :: m in models <==> m in usage)
    && (forall m :: m in usage ==> usage[m] == UsageOf(prices, log, m))
    && (forall c :: c in log ==> c.model in models)
  }

  /** Opening an accumulator for a model without calls. */
  lemma BooksOpen(prices: string -> Pricing, log: seq<Call>, models: seq<string>, usage: map<string, ModelUsage>,
      model: string)
    requires Books(prices, log, models, usage) && model !in usage
    ensures Books(prices, log, models + [model], usage[model := NO_USAGE])
  {
    UnusedModel(prices, log, model, models);
    hide UsageOf;
  }

  lemma BooksKeys(prices: string -> Pricing, log: seq<Call>, models: seq<string>, usage: map<string, ModelUsage>)
    requires Books(prices, log, models, usage)
    ensures forall m :: m in models <==> m in usage
    ensures forall m :: m in usage ==> usage[m] == UsageOf(prices, log, m)
    ensures forall c :: c in log ==> c.model in models
  {
  }

  lemma BooksCharge(prices: string -> Pricing, log: seq<Call>, models: seq<string>, usage: map<string, ModelUsage>,
      c: Call)
    requires Books(prices, log, models, usage) && c.model in usage
    ensures Books(prices, log + [c], models,
      usage[c.model := Charged(usage[c.model], c.charge, Cost(prices(c.model), c.charge))])
  {
    hide Distinct, Charged, Cost, UsageOf;
    forall m ensures UsageOf(prices, log + [c], m) ==
      if c.model == m then Charged(UsageOf(prices, log, m), c.charge, Cost(prices(m), c.charge))
        else UsageOf(prices, log, m) {
      UsageAppended(prices, log, c, m);
    }
  }

  class CostTracker {
    const maxBudget: Option<real>
    const warnThreshold: real
    const prices: string -> Pricing
    var totalCost: real
    var totalCalls: nat
    var models: seq<string>
    var modelUsage: map<string, ModelUsage>
    var warnEmitted: bool
    ghost var log: seq<Call>

    /** The state is the log of calls, summed up; models are in the order of their first call. */
    ghost predicate Valid()
      reads this
    {
      && totalCost == Spent(prices, log)
      && totalCalls == |log|
      && models == Opened(log)
      && Books(prices, log, models, modelUsage)
    }

    constructor (maxBudget: Option<real>, warnThreshold: real, prices: string -> Pricing)
      ensures Valid() && log == [] && !warnEmitted
      ensures this.maxBudget == maxBudget && this.warnThreshold == warnThreshold && this.prices == prices
    {
      this.maxBudget, this.warnThreshold, this.prices := maxBudget, warnThreshold, prices;
      totalCost, totalCalls, models, modelUsage, warnEmitted, log := 0.0, 0, [], map[], false, [];
    }

    /** Over as soon as the logged calls cost the budget. */
    method IsOverBudget() returns (over: bool)
      requires Valid()
      ensures over <==> maxBudget.Some? && Spent(prices, log) >= maxBudget.value
    {
      over := maxBudget.Some? && totalCost >= maxBudget.value;
    }

    /** Adds the call to its model's accumulator, which is created at the model's first call. */
    method Accumulate(model: string, charge: Charge, cost: real)
      requires Books(prices, log, models, modelUsage) && cost == Cost(prices(model), charge)
      modifies this`models, this`modelUsage
      ensures Books(prices, log + [Call(model, charge)], models, modelUsage)
      ensures models == old(models) + if model in old(models) then [] else [model]
    {
      BooksKeys(prices, log, models, modelUsage);
      hide Books, Cost, Charged;
      if model !in modelUsage {
        BooksOpen(prices, log, models, modelUsage, model);
        models := models + [model];
        modelUsage := modelUsage[model := NO_USAGE];
      }
      BooksCharge(prices, log, models, modelUsage, Call(model, charge));
      var mu := modelUsage[model];
      modelUsage := modelUsage[model := Charged(mu, charge, cost)];
    }

    /** The spend is recorded whether or not it exceeds the budget; a failure only reports it. */
    method AddUsage(model: string, charge: Charge) returns (r: Outcome)
      requires Valid()
      modifies this
      ensures Valid() && log == old(log) + [Call(model, charge)]
      ensures totalCost == old(totalCost) + Cost(prices(model), charge)
      ensures r.BudgetExceeded? <==> maxBudget.Some? && totalCost >= maxBudget.value
      ensures r == VerdictOn(prices, maxBudget, log)
      ensures r == if maxBudget.Some? && totalCost >= maxBudget.value then BudgetExceeded(totalCost, maxBudget.value)
        else Recorded(Cost(prices(model), charge))
      ensures warnEmitted <==> old(warnEmitted) || (warnThreshold > 0.0 && totalCost >= warnThreshold)
    {
      var cost := Cost(prices(model), charge);
      hide Cost, Books, Opened;
      OpenedStep(log, Call(model, charge));
      Accumulate(model, charge, cost);
      ghost var before := log;
      log := log + [Call(model, charge)];
      assert log[..|before|] == before;
      totalCost, totalCalls := totalCost + cost, totalCalls + 1;
      if warnThreshold > 0.0 && !warnEmitted && totalCost >= warnThreshold {
        warnEmitted := true;
      }
      if maxBudget.Some? && totalCost >= maxBudget.value {
        return BudgetExceeded(totalCost, maxBudget.value);
      }
      r := Recorded(cost);
    }

    method AddCanonicalUsage(usage: Canonical, model: string) returns (r: Outcome)
      requires Valid()
      modifies this
      ensures Valid() && log == old(log) + [Call(model, CanonicalCharge(usage))]
      ensures r.BudgetExceeded? <==> maxBudget.Some? && totalCost >= maxBudget.value
    {
      r := AddUsage(model, CanonicalCharge(usage));
    }

    /** The savings of the given model, or of the model whose first call came last. */
    method LastTurnCacheSavings(model: Option<string>) returns (r: Option<real>)
      requires Valid()
      ensures log == [] ==> r == None
      ensures log != [] ==> Opened(log) != []
      ensures log != [] ==>
        r == Savings(prices, log, if model.Some? then model.value else Opened(log)[|Opened(log)| - 1])
    {
      BooksKeys(prices, log, models, modelUsage);
      OpenedFacts(log);
      hide Cost, UsageOf, Opened, Spent, Savings, Books, Discount, NotBelowZero;
      if models == [] {
        return None;
      }
      var target := if model.Some? then model.value else models[|models| - 1];
      SavingsFromUsage(prices, log, target);
      if target !in modelUsage {
        UnusedModel(prices, log, target, models);
        return None;
      }
      var mu := modelUsage[target];
      if mu.lastRead == 0 {
        return None;
      }
      r := Some(NotBelowZero(Discount(prices(target), mu.lastRead)));
    }

    /** A response without a usage report, or with an empty one (None for both), costs nothing and
        is not counted; a report with none of the known keys is a call that costs nothing. */
    method UpdateFromResponse(usage: Option<Report>, model: string) returns (r: Outcome)
      requires Valid()
      modifies this
      ensures Valid() && log == if usage.None? then old(log) else old(log) + [Call(model, Direct(usage.value))]
      ensures usage.None? ==> r == Recorded(0.0)
      ensures usage.Some? ==> (r.BudgetExceeded? <==> maxBudget.Some? && totalCost >= maxBudget.value)
    {
      if usage.None? {
        return Recorded(0.0);
      }
      var charge := DirectCharge(usage.value);
      r := AddUsage(model, charge);
    }
  }

  function NotBelowZero(x: real): real { if x < 0.0 then 0.0 else x }

  /** What is reported as saved by a model's latest call: nothing without a call or without cache
      reads, else what the call would have cost more without them, and never less than zero. */
  function Savings(prices: string -> Pricing, log: seq<Call>, model: string): Option<real>
  {
    var latest := LatestCharge(log, model);
    if latest.None? || latest.value.read == 0 then None
    else
      var more := Cost(prices(model), Uncached(latest.value)) - Cost(prices(model), latest.value);
      Some(NotBelowZero(more))
  }

  /** The accumulator's snapshot of the last read is enough to compute it. */
  lemma SavingsFromUsage(prices: string -> Pricing, log: seq<Call>, model: string)
    ensures var read, price := UsageOf(prices, log, model).lastRead, prices(model);
      Savings(prices, log, model) ==
        if read == 0 then None else Some(NotBelowZero(Discount(price, read)))
  {
    LatestIsRecorded(prices, log, model);
    hide UsageOf, Cost, Discount, Uncached;
    if LatestCharge(log, model).Some? {
      UncachedCost(prices(model), LatestCharge(log, model).value);
    }
  }

  /** What is reported is the larger of zero and what the latest call would have cost more. */
  lemma SavingsAreTheExcess(prices: string -> Pricing, log: seq<Call>, model: string)
    ensures
      var latest, saved := LatestCharge(log, model), Savings(prices, log, model);
      && (saved.None? <==> latest.None? || latest.value.read == 0)
      && (saved.Some? ==>
            var more := Cost(prices(model), Uncached(latest.value)) - Cost(prices(model), latest.value);
            saved.value >= 0.0 && saved.value >= more && (saved.value == 0.0 || saved.value == more))
  {
    hide Cost, LatestCharge;
  }

  /** The position of a model's first call; the end of the log if it has none. */
  function FirstCall(log: seq<Call>, model: string): nat
  {
    if log == [] then 0
    else if model in Opened(log[..|log| - 1]) then FirstCall(log[..|log| - 1], model)
    else if model == log[|log| - 1].model then |log| - 1 else |log|
  }

  lemma {:induction false} OpenedInOrder(log: seq<Call>)
    ensures forall m :: m in Opened(log) ==> FirstCall(log, m) < |log|
    ensures forall m :: m in Opened(log) <==> exists c :: c in log && c.model == m
    ensures forall p, q :: 0 <= p < q < |Opened(log)| ==>
      FirstCall(log, Opened(log)[p]) < FirstCall(log, Opened(log)[q])
  {
    if log != [] {
      var front, last := log[..|log| - 1], log[|log| - 1];
      assert log == front + [last];
      OpenedInOrder(front);
      assert forall m :: m in Opened(front) ==> FirstCall(log, m) == FirstCall(front, m) < |front|;
      forall m ensures m in Opened(log) <==> exists c :: c in log && c.model == m {
        if m in Opened(front) {
          var c :| c in front && c.model == m;
          assert c in log;
        }
        assert last in log;
      }
      assert forall p :: 0 <= p < |Opened(front)| ==> Opened(front)[p] in Opened(front);
    }
  }

  /** Asked without a model, the savings are those of the session's latest call exactly if no
      model's first call came after the first call of the latest call's model. */
  lemma SavingsOfLatestCallIff(log: seq<Call>)
    requires log != []
    ensures Opened(log) != []
    ensures var latest := log[|log| - 1].model;
      Opened(log)[|Opened(log)| - 1] == latest <==>
        forall c :: c in log ==> FirstCall(log, c.model) <= FirstCall(log, latest)
  {
    OpenedInOrder(log);
    OpenedFacts(log);
    var known, latest := Opened(log), log[|log| - 1].model;
    hide Opened, FirstCall;
    assert log[|log| - 1] in log;
    var newest := known[|known| - 1];
    assert newest in known;
    assert latest in known;
    if newest == latest {
      forall c | c in log ensures FirstCall(log, c.model) <= FirstCall(log, latest) {
        assert c.model in known;
        var p :| 0 <= p < |known| && known[p] == c.model;
      }
    } else {
      var p :| 0 <= p < |known| && known[p] == latest;
      var c :| c in log && c.model == newest;
    }
  }

  lemma OpenedFacts(log: seq<Call>)
    ensures Opened(log) == [] <==> log == []
  {
  }

  lemma {:induction false} UnusedModel(prices: string -> Pricing, log: seq<Call>, model: string, models: seq<string>)
    requires model !in models && forall c :: c in log ==> c.model in models
    ensures UsageOf(prices, log, model) == NO_USAGE
  {
    if log != [] { UnusedModel(prices, log[..|log| - 1], model, models); }
  }

  /** The log of a runner that records calls until the first one that is refused. */
  function Run(prices: string -> Pricing, budget: Option<real>, log: seq<Call>, calls: seq<Call>): seq<Call>
    decreases calls
  {
    if calls == [] then log
    else
      var next := log + [calls[0]];
      if VerdictOn(prices, budget, next).BudgetExceeded? then next else Run(prices, budget, next, calls[1..])
  }

  lemma OneMoreSpent(prices: string -> Pricing, budget: real, log: seq<Call>, c: Call)
    ensures Spent(prices, log + [c]) == Spent(prices, log) + Cost(prices(c.model), c.charge)
    ensures VerdictOn(prices, Some(budget), log + [c]).BudgetExceeded? <==> Spent(prices, log + [c]) >= budget
  {
    hide Cost;
    assert (log + [c])[..|log|] == log;
  }

  lemma {:induction false} RecordsPrefix(
    prices: string -> Pricing, budget: Option<real>, log: seq<Call>, calls: seq<Call>)
    ensures log <= Run(prices, budget, log, calls) <= log + calls
    decreases calls
  {
    hide VerdictOn;
    if calls != [] {
      var next := log + [calls[0]];
      assert log + calls == next + calls[1..];
      RecordsPrefix(prices, budget, next, calls[1..]);
    }
  }

  /** Stopping at the first refusal records a prefix of the calls, all of them unless the budget
      is reached, and overspends by less than the last call. */
  lemma {:induction false} OverspendBounded(prices: string -> Pricing, budget: real, log: seq<Call>, calls: seq<Call>)
    requires Spent(prices, log) < budget
    ensures var end := Run(prices, Some(budget), log, calls);
      && log <= end <= log + calls
      && (Spent(prices, end) < budget ==> end == log + calls)
      && (end != log ==>
            Spent(prices, end) < budget + Cost(prices(end[|end| - 1].model), end[|end| - 1].charge))
    decreases calls
  {
    hide Cost, Spent, VerdictOn;
    RecordsPrefix(prices, Some(budget), log, calls);
    if calls == [] {
      assert log + calls == log;
    } else {
      var next := log + [calls[0]];
      OneMoreSpent(prices, budget, log, calls[0]);
      if Spent(prices, next) < budget {
        assert log + calls == next + calls[1..];
        OverspendBounded(prices, budget, next, calls[1..]);
      }
    }
  }
}
