/** From a provider's usage report to the four token counts that are charged, on both paths. */
module UsageBilling {
  import opened PyLists

  // ---------------------------------------------------------------- the report

  /** The keys of a usage dictionary that either path reads; None is an absent key. */
  datatype Report = Report(
    inputTokens: Option<int>, promptTokens: Option<int>,
    outputTokens: Option<int>, completionTokens: Option<int>,
    cacheReadInputTokens: Option<int>, cacheCreationInputTokens: Option<int>,
    promptCacheHitTokens: Option<int>, promptCacheMissTokens: Option<int>,
    cachedTokens: Option<int>, cachedInputTokens: Option<int>,
    nestedCached: Option<int>, nestedCreation: Option<int>)

  const NOTHING := Report(None, None, None, None, None, None, None, None, None, None, None, None)

  /** What is charged, each count at its own rate. */
  datatype Charge = Charge(input: int, output: int, read: int, creation: int)

  function Prompt(c: Charge): int { c.input + c.read + c.creation }

  /** Python's `x or y` on an optional count, with 0 and None falsy. */
  function Or(a: Option<int>, b: int): int
  {
    if a.Some? && a.value != 0 then a.value else b
  }

  function First(a: Option<int>, b: Option<int>): Option<int>
  {
    if a.Some? then a else b
  }

  // ---------------------------------------------------------------- the normalising path

  datatype Provider = OpenAICompat | Codex | Anthropic

  datatype Canonical = Canonical(
    input: Option<int>, output: Option<int>, read: Option<int>, creation: Option<int>, miss: Option<int>)

  function Normalise(p: Provider, u: Report): Canonical
  {
    var read := match p
      case OpenAICompat => First(u.promptCacheHitTokens, u.nestedCached)
      case Codex => u.cachedTokens
      case Anthropic => u.cacheReadInputTokens;
    var creation := match p
      case OpenAICompat => u.nestedCreation
      case Codex => None
      case Anthropic => u.cacheCreationInputTokens;
    var reported := if p.OpenAICompat? then u.promptCacheMissTokens else None;
    var input := First(u.inputTokens, u.promptTokens);
    var residual := Or(input, 0) - Or(read, 0) - Or(creation, 0);
    var miss :=
      if reported.Some? || input.None? then reported
      else if p.Anthropic? then input
      else if residual > 0 then Some(residual) else None;
    Canonical(input, First(u.outputTokens, u.completionTokens), read, creation, miss)
  }

  function CanonicalCharge(c: Canonical): Charge
  {
    var billable :=
      if c.miss.None? || c.miss.value < 0 || (c.miss.value == 0 && Or(c.read, 0) == 0) then c.input else c.miss;
    Charge(Max(0, Or(billable, 0)), Or(c.output, 0), Or(c.read, 0), Or(c.creation, 0))
  }

  // ---------------------------------------------------------------- the direct path

  method DirectCharge(u: Report) returns (c: Charge)
    ensures c == Direct(u)
  {
    var input, read, creation := Or(u.inputTokens, 0), Or(u.cacheReadInputTokens, 0), Or(u.cacheCreationInputTokens, 0);
    var includes := false;
    if input == 0 {
      input := Or(u.promptTokens, 0);
      includes := input != 0;
    }
    if read == 0 {
      read := Or(u.promptCacheHitTokens, Or(u.nestedCached, Or(u.cachedInputTokens, 0)));
      if read != 0 {
        includes := input != 0;
      }
    }
    if creation == 0 {
      creation := Or(u.nestedCreation, 0);
    }
    if includes && read != 0 {
      input := Max(0, input - read - creation);
    }
    c := Charge(input, Or(u.outputTokens, Or(u.completionTokens, 0)), read, creation);
  }

  /** The cached part leaves the input exactly when a cache read is reported outside Anthropic's
      own key, or beside an input figure that came as `promptTokens`. */
  function Direct(u: Report): Charge
  {
    var own := Or(u.inputTokens, 0) != 0;
    var input := Or(u.inputTokens, Or(u.promptTokens, 0));
    var elsewhere := Or(u.cacheReadInputTokens, 0) == 0;
    var read := Or(u.cacheReadInputTokens, Or(u.promptCacheHitTokens, Or(u.nestedCached, Or(u.cachedInputTokens, 0))));
    var creation := Or(u.cacheCreationInputTokens, Or(u.nestedCreation, 0));
    Charge(
      if read != 0 && input != 0 && (elsewhere || !own) then Max(0, input - read - creation) else input,
      Or(u.outputTokens, Or(u.completionTokens, 0)), read, creation)
  }

  /** The first count that is reported and not zero. */
  function FirstReported(counts: seq<Option<int>>): int
  {
    if counts == [] then 0
    else if counts[0].Some? && counts[0].value != 0 then counts[0].value
    else FirstReported(counts[1..])
  }

  ghost predicate Reported(a: Option<int>) { a.Some? && a.value != 0 }

  /** Every count is the first reported one of its keys, and the buckets leave the input unless it
      is Anthropic's own input figure beside Anthropic's own read figure. */
  lemma DirectByKeys(u: Report)
    ensures
      var c, input := Direct(u), FirstReported([u.inputTokens, u.promptTokens]);
      && c.read == FirstReported([u.cacheReadInputTokens, u.promptCacheHitTokens, u.nestedCached, u.cachedInputTokens])
      && c.creation == FirstReported([u.cacheCreationInputTokens, u.nestedCreation])
      && c.output == FirstReported([u.outputTokens, u.completionTokens])
      && c.input ==
           if input == 0 || c.read == 0 || (Reported(u.inputTokens) && Reported(u.cacheReadInputTokens)) then input
           else Max(0, input - c.read - c.creation)
  {
    FirstOfTwo(u.inputTokens, u.promptTokens);
    FirstOfTwo(u.cacheCreationInputTokens, u.nestedCreation);
    FirstOfTwo(u.outputTokens, u.completionTokens);
    FirstOfTwo(u.nestedCached, u.cachedInputTokens);
    FirstCons(u.promptCacheHitTokens, [u.nestedCached, u.cachedInputTokens]);
    FirstCons(u.cacheReadInputTokens, [u.promptCacheHitTokens, u.nestedCached, u.cachedInputTokens]);
    hide FirstReported;
    assert [u.promptCacheHitTokens] + [u.nestedCached, u.cachedInputTokens] ==
      [u.promptCacheHitTokens, u.nestedCached, u.cachedInputTokens];
    assert [u.cacheReadInputTokens] + [u.promptCacheHitTokens, u.nestedCached, u.cachedInputTokens] ==
      [u.cacheReadInputTokens, u.promptCacheHitTokens, u.nestedCached, u.cachedInputTokens];
  }

  lemma FirstCons(a: Option<int>, rest: seq<Option<int>>)
    ensures FirstReported([a] + rest) == Or(a, FirstReported(rest))
  {
    assert ([a] + rest)[1..] == rest;
  }

  lemma FirstOfTwo(a: Option<int>, b: Option<int>)
    ensures FirstReported([a, b]) == Or(a, Or(b, 0))
  {
    FirstCons(b, []);
    FirstCons(a, [b]);
    assert [b] + [] == [b] && [a] + [b] == [a, b];
  }

  // ---------------------------------------------------------------- the shapes providers send

  function AnthropicReport(input: nat, output: nat, read: Option<nat>, creation: Option<nat>): Report
  {
    NOTHING.(inputTokens := Some(input), outputTokens := Some(output),
             cacheReadInputTokens := read, cacheCreationInputTokens := creation)
  }

  function DeepSeekReport(prompt: nat, output: nat, hit: nat, miss: nat): Report
  {
    NOTHING.(promptTokens := Some(prompt), completionTokens := Some(output),
             promptCacheHitTokens := Some(hit), promptCacheMissTokens := Some(miss))
  }

  function OpenAIReport(prompt: nat, output: nat, cached: Option<nat>, creation: Option<nat>): Report
  {
    NOTHING.(promptTokens := Some(prompt), completionTokens := Some(output),
             nestedCached := cached, nestedCreation := creation)
  }

  function CodexReport(input: nat, output: nat, cached: Option<nat>): Report
  {
    NOTHING.(inputTokens := Some(input), outputTokens := Some(output), cachedTokens := cached)
  }

  function Count(n: Option<nat>): nat { if n.Some? then n.value else 0 }

  ghost predicate Agree(p: Provider, u: Report)
  {
    CanonicalCharge(Normalise(p, u)) == Direct(u)
  }

  /** Anthropic reports the uncached input: both paths charge every count as reported. */
  lemma AnthropicAgrees(input: nat, output: nat, read: Option<nat>, creation: Option<nat>)
    ensures Agree(Anthropic, AnthropicReport(input, output, read, creation))
    ensures Direct(AnthropicReport(input, output, read, creation)) ==
      Charge(input, output, Count(read), Count(creation))
    ensures CanonicalCharge(Normalise(Anthropic, AnthropicReport(input, output, read, creation))) ==
      Charge(input, output, Count(read), Count(creation))
  {
  }

  /** DeepSeek reports hit and miss: the paths agree exactly if the miss count is what the prompt
      leaves, or nothing is cached and no miss is reported; a consistent report is charged once. */
  lemma DeepSeekAgreesIff(prompt: nat, output: nat, hit: nat, miss: nat)
    ensures Agree(OpenAICompat, DeepSeekReport(prompt, output, hit, miss)) <==>
      miss == Max(0, prompt - hit) || (hit == 0 && miss == 0)
    ensures prompt == hit + miss ==> Prompt(Direct(DeepSeekReport(prompt, output, hit, miss))) == prompt
  {
  }

  /** What is charged for a DeepSeek report: the direct path takes the hit out of the prompt, the
      normalising path trusts the reported miss. */
  lemma DeepSeekCharges(prompt: nat, output: nat, hit: nat, miss: nat)
    ensures Direct(DeepSeekReport(prompt, output, hit, miss)) == Charge(Max(0, prompt - hit), output, hit, 0)
    ensures CanonicalCharge(Normalise(OpenAICompat, DeepSeekReport(prompt, output, hit, miss))) ==
      Charge(if hit == 0 && miss == 0 then prompt else miss, output, hit, 0)
  {
  }

  /** What is charged for an OpenAI report: both paths take the cached part out of the prompt, the
      direct one only if something was read from the cache, the other only if something is left. */
  lemma OpenAICharges(prompt: nat, output: nat, cached: Option<nat>, creation: Option<nat>)
    ensures var u, c, k := OpenAIReport(prompt, output, cached, creation), Count(cached), Count(creation);
      && Direct(u) == Charge(if c > 0 then Max(0, prompt - c - k) else prompt, output, c, k)
      && CanonicalCharge(Normalise(OpenAICompat, u)) ==
           Charge(if prompt > c + k then prompt - c - k else prompt, output, c, k)
  {
  }

  /** What is charged for a Codex report, whose cached part only the normalising path sees. */
  lemma CodexCharges(input: nat, output: nat, cached: Option<nat>)
    ensures Direct(CodexReport(input, output, cached)) == Charge(input, output, 0, 0)
    ensures var c := Count(cached);
      CanonicalCharge(Normalise(Codex, CodexReport(input, output, cached))) ==
        Charge(if input > c then input - c else input, output, c, 0)
  {
  }

  /** OpenAI reports the cached part inside the prompt. */
  lemma OpenAIAgreesIff(prompt: nat, output: nat, cached: Option<nat>, creation: Option<nat>)
    ensures var c, k := Count(cached), Count(creation);
      Agree(OpenAICompat, OpenAIReport(prompt, output, cached, creation)) <==>
        if c == 0 then k == 0 || prompt <= k else prompt == 0 || prompt > c + k
  {
  }

  /** The normalising path charges each prompt token once exactly if some of it was not cached,
      or nothing was: a prompt that is cached to the last token is charged twice. */
  lemma OpenAIChargedOnceIff(prompt: nat, output: nat, cached: Option<nat>, creation: Option<nat>)
    ensures var u, c, k := OpenAIReport(prompt, output, cached, creation), Count(cached), Count(creation);
      && (Prompt(CanonicalCharge(Normalise(OpenAICompat, u))) == prompt <==> (prompt > c + k || c + k == 0))
      && (Prompt(Direct(u)) == prompt <==> (if c > 0 then prompt >= c + k else k == 0))
  {
  }

  /** The direct path does not know Codex's key: the paths agree only on uncached calls. */
  lemma CodexAgreesIff(input: nat, output: nat, cached: Option<nat>)
    ensures Agree(Codex, CodexReport(input, output, cached)) <==> Count(cached) == 0
    ensures Count(cached) < input ==>
      Prompt(CanonicalCharge(Normalise(Codex, CodexReport(input, output, cached)))) == input
  {
  }
}
