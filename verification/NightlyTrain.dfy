/** The adaptive controller of the nightly training loop (scripts/nightly-train.ts, `selfImprove`). */
module Controller {
  datatype Result = Result(id: string, score: real, passed: bool)
  datatype Strategy = Sequential | Direct
  datatype TaskPerf = TaskPerf(bestScore: real, bestStrategy: Strategy, failCount: nat)

  const MAX_TEMPERATURE := 0.95
  const MIN_TEMPERATURE := 0.5
  const MAX_STEPS := 30
  const MIN_STEPS := 15

  // --- what one result and one iteration do --------------------------------

  function Track(perf: map<string, TaskPerf>, r: Result, strategy: Strategy): map<string, TaskPerf> {
    if r.id !in perf then perf[r.id := TaskPerf(r.score, strategy, if r.passed then 0 else 1)]
    else
      var prev := perf[r.id];
      if r.score > prev.bestScore
      then perf[r.id := TaskPerf(r.score, strategy, if r.passed then 0 else prev.failCount + 1)]
      else if !r.passed then perf[r.id := prev.(failCount := prev.failCount + 1)]
      else perf
  }

  /** Task performance after a whole history of results. */
  function PerfAfter(h: seq<Result>, strategy: Strategy): map<string, TaskPerf> {
    if h == [] then map[] else Track(PerfAfter(h[..|h| - 1], strategy), h[|h| - 1], strategy)
  }

  function Passes(results: seq<Result>): nat {
    if results == [] then 0
    else Passes(results[..|results| - 1]) + if results[|results| - 1].passed then 1 else 0
  }

  lemma PassesPush(results: seq<Result>, i: nat)
    requires i < |results|
    ensures Passes(results[..0]) == 0
    ensures Passes(results[..i + 1]) == Passes(results[..i]) + if results[i].passed then 1 else 0
  {
    assert results[..i + 1][..i] == results[..i];
  }

  /** passRate < num/den and passRate > num/den; both false for an empty list, whose rate is not a number. */
  predicate RateBelow(results: seq<Result>, num: nat, den: nat) {
    results != [] && den * Passes(results) < num * |results|
  }

  predicate RateAbove(results: seq<Result>, num: nat, den: nat) {
    results != [] && den * Passes(results) > num * |results|
  }

  function Min(a: real, b: real): real { if a <= b then a else b }
  function Max(a: real, b: real): real { if a >= b then a else b }
  function MinInt(a: int, b: int): int { if a <= b then a else b }
  function MaxInt(a: int, b: int): int { if a >= b then a else b }

  function NextTemperature(t: real, results: seq<Result>): real {
    if RateBelow(results, 4, 10) then Min(MAX_TEMPERATURE, t + 0.05)
    else if RateAbove(results, 6, 10) then Max(MIN_TEMPERATURE, t - 0.05)
    else t
  }

  function NextSteps(s: int, results: seq<Result>): int {
    if RateBelow(results, 4, 10) && s < MAX_STEPS then MinInt(MAX_STEPS, s + 5)
    else if RateAbove(results, 8, 10) && s > MIN_STEPS then MaxInt(MIN_STEPS, s - 5)
    else s
  }

  class Harness {
    var taskPerformance: map<string, TaskPerf>
    var globalTemperature: real
    var maxSteps: int
    const strategy: Strategy
    ghost var history: seq<Result>

    ghost predicate Valid() reads this {
      taskPerformance == PerfAfter(history, strategy)
    }

    constructor (strategy: Strategy)
      ensures Valid() && history == [] && this.strategy == strategy
      ensures globalTemperature == 0.7 && maxSteps == 15
    {
      taskPerformance, globalTemperature, maxSteps, history := map[], 0.7, 15, [];
      this.strategy := strategy;
    }

    method TrackAll(results: seq<Result>) returns (passCount: nat)
      requires Valid()
      modifies this`taskPerformance, this`history
      ensures Valid() && history == old(history) + results && passCount == Passes(results)
    {
      passCount := 0;
      assert Passes(results[..0]) == 0;
      hide Passes, Valid;
      for i := 0 to |results|
        invariant Valid() && history == old(history) + results[..i]
        invariant passCount == Passes(results[..i])
      {
        PassesPush(results, i);
        assert old(history) + results[..i + 1] == old(history) + results[..i] + [results[i]];
        TrackOne(results[i]);
        if results[i].passed {
          passCount := passCount + 1;
        }
      }
      assert results[..|results|] == results;
    }

    method TrackOne(r: Result)
      requires Valid()
      modifies this`taskPerformance, this`history
      ensures Valid() && history == old(history) + [r]
    {
      assert (history + [r])[..|history|] == history;
      if r.id !in taskPerformance || r.score > taskPerformance[r.id].bestScore {
        var before := if r.id in taskPerformance then taskPerformance[r.id].failCount else 0;
        taskPerformance := taskPerformance[r.id := TaskPerf(r.score, strategy, if r.passed then 0 else before + 1)];
      } else if !r.passed {
        var prev := taskPerformance[r.id];
        taskPerformance := taskPerformance[r.id := prev.(failCount := prev.failCount + 1)];
      }
      history := history + [r];
    }

    method SelfImprove(results: seq<Result>)
      requires Valid()
      modifies this
      ensures Valid() && history == old(history) + results
      ensures globalTemperature == NextTemperature(old(globalTemperature), results)
      ensures maxSteps == NextSteps(old(maxSteps), results)
    {
      var passCount := TrackAll(results);
      if results != [] && 10 * passCount < 4 * |results| {
        globalTemperature := Min(MAX_TEMPERATURE, globalTemperature + 0.05);
      } else if results != [] && 10 * passCount > 6 * |results| {
        globalTemperature := Max(MIN_TEMPERATURE, globalTemperature - 0.05);
      }
      if results != [] && 10 * passCount < 4 * |results| && maxSteps < MAX_STEPS {
        maxSteps := MinInt(MAX_STEPS, maxSteps + 5);
      } else if results != [] && 10 * passCount > 8 * |results| && maxSteps > MIN_STEPS {
        maxSteps := MaxInt(MIN_STEPS, maxSteps - 5);
      }
    }
  }

  // --- the state is a function of the whole history ------------------------

  /** A passing result that beats every earlier result of its task. */
  ghost predicate Breakthrough(h: seq<Result>, id: string, i: int) {
    && 0 <= i < |h| && h[i].id == id && h[i].passed
    && forall j :: 0 <= j < i && h[j].id == id ==> h[j].score < h[i].score
  }

  function Fails(h: seq<Result>, id: string, from: nat): nat {
    if |h| <= from then 0
    else
      var n := |h| - 1;
      Fails(h[..n], id, from) + if h[n].id == id && !h[n].passed then 1 else 0
  }

  ghost predicate IsBest(h: seq<Result>, id: string, score: real) {
    && (exists i :: 0 <= i < |h| && h[i].id == id && h[i].score == score)
    && (forall i :: 0 <= i < |h| && h[i].id == id ==> h[i].score <= score)
  }

  /** The index of the last breakthrough, or -1. */
  ghost predicate LastBreakthrough(h: seq<Result>, id: string, r: int) {
    && -1 <= r < |h| && (r >= 0 ==> Breakthrough(h, id, r))
    && forall i :: r < i < |h| ==> !Breakthrough(h, id, i)
  }

  ghost predicate Seen(h: seq<Result>, id: string) {
    exists i :: 0 <= i < |h| && h[i].id == id
  }

  lemma BestStep(h: seq<Result>, id: string, best: real)
    requires h != []
    requires Seen(h[..|h| - 1], id) ==> IsBest(h[..|h| - 1], id, best)
    ensures
      var last, seen := h[|h| - 1], Seen(h[..|h| - 1], id);
      && (Seen(h, id) <==> seen || last.id == id)
      && (last.id == id && (!seen || last.score > best) ==> IsBest(h, id, last.score))
      && (seen && !(last.id == id && last.score > best) ==> IsBest(h, id, best))
      && (Breakthrough(h, id, |h| - 1) <==> last.id == id && last.passed && (!seen || last.score > best))
  {
    var n := |h| - 1;
    var before := h[..n];
    assert forall i :: 0 <= i < n ==> before[i] == h[i];
    if Seen(before, id) {
      var i :| 0 <= i < n && before[i].id == id && before[i].score == best;
      assert h[i].id == id && h[i].score == best;
    }
    if h[n].id == id {
      assert h[n].id == id && h[n].score == h[n].score;
    }
  }

  /** bestScore is the maximum seen. */
  lemma {:induction false} BestMeaning(h: seq<Result>, strategy: Strategy, id: string)
    ensures
      var perf := PerfAfter(h, strategy);
      && (id in perf <==> Seen(h, id))
      && (id in perf ==> IsBest(h, id, perf[id].bestScore) && perf[id].bestStrategy == strategy)
  {
    if h != [] {
      var before := h[..|h| - 1];
      var perf := PerfAfter(before, strategy);
      BestMeaning(before, strategy, id);
      BestStep(h, id, if id in perf then perf[id].bestScore else 0.0);
      hide IsBest, Seen, Breakthrough;
    }
  }

  /** failCount is the number of failures since the last breakthrough. */
  lemma {:induction false} FailMeaning(h: seq<Result>, strategy: Strategy, id: string) returns (r: int)
    ensures LastBreakthrough(h, id, r)
    ensures
      var perf := PerfAfter(h, strategy);
      Fails(h, id, r + 1) == if id in perf then perf[id].failCount else 0
  {
    if h == [] {
      return -1;
    }
    var before, n := h[..|h| - 1], |h| - 1;
    var perf := PerfAfter(before, strategy);
    var q := FailMeaning(before, strategy, id);
    BestMeaning(before, strategy, id);
    BestStep(h, id, if id in perf then perf[id].bestScore else 0.0);
    SameBreakthroughs(h, id);
    hide IsBest, Seen, Breakthrough;
    r := if Breakthrough(h, id, n) then n else q;
  }

  lemma SameBreakthroughs(h: seq<Result>, id: string)
    requires h != []
    ensures forall i :: i < |h| - 1 ==> (Breakthrough(h, id, i) <==> Breakthrough(h[..|h| - 1], id, i))
  {
    assert forall i :: 0 <= i < |h| - 1 ==> h[..|h| - 1][i] == h[i];
  }

  // --- temperature and steps -----------------------------------------------

  ghost predicate InRange(t: real, s: int) {
    MIN_TEMPERATURE <= t <= MAX_TEMPERATURE && MIN_STEPS <= s <= MAX_STEPS
  }

  function TemperatureAfter(t: real, runs: seq<seq<Result>>): real {
    if runs == [] then t else NextTemperature(TemperatureAfter(t, runs[..|runs| - 1]), runs[|runs| - 1])
  }

  function StepsAfter(s: int, runs: seq<seq<Result>>): int {
    if runs == [] then s else NextSteps(StepsAfter(s, runs[..|runs| - 1]), runs[|runs| - 1])
  }

  lemma {:induction false} AlwaysInRange(t: real, s: int, runs: seq<seq<Result>>)
    requires InRange(t, s)
    ensures InRange(TemperatureAfter(t, runs), StepsAfter(s, runs))
  {
    if runs != [] {
      AlwaysInRange(t, s, runs[..|runs| - 1]);
    }
  }

  /** A streak below 40% drives both knobs up in closed form, to the caps after nine iterations at the latest. */
  lemma {:induction false} LowStreak(t: real, s: int, runs: seq<seq<Result>>)
    requires InRange(t, s)
    requires forall i :: 0 <= i < |runs| ==> RateBelow(runs[i], 4, 10)
    ensures TemperatureAfter(t, runs) == Min(MAX_TEMPERATURE, t + 0.05 * |runs| as real)
    ensures StepsAfter(s, runs) == MinInt(MAX_STEPS, s + 5 * |runs|)
    ensures |runs| >= 9 ==> TemperatureAfter(t, runs) == 0.95 && StepsAfter(s, runs) == 30
  {
    if runs != [] {
      hide RateBelow, RateAbove;
      LowStreak(t, s, runs[..|runs| - 1]);
    }
  }

  /** A streak above 80% drives both down again, to the floors after nine iterations at the latest. */
  lemma {:induction false} HighStreak(t: real, s: int, runs: seq<seq<Result>>)
    requires InRange(t, s)
    requires forall i :: 0 <= i < |runs| ==> RateAbove(runs[i], 8, 10)
    ensures TemperatureAfter(t, runs) == Max(MIN_TEMPERATURE, t - 0.05 * |runs| as real)
    ensures StepsAfter(s, runs) == MaxInt(MIN_STEPS, s - 5 * |runs|)
    ensures |runs| >= 9 ==> TemperatureAfter(t, runs) == 0.5 && StepsAfter(s, runs) == 15
  {
    if runs != [] {
      HighStreak(t, s, runs[..|runs| - 1]);
    }
  }

  /** Neither below 40% nor above 60%; a run with no results has no rate and is neither. */
  ghost predicate Steady(results: seq<Result>) {
    !RateBelow(results, 4, 10) && !RateAbove(results, 6, 10)
  }

  /** However many steady iterations pass, neither knob has moved. */
  lemma {:induction false} SteadyStreak(t: real, s: int, runs: seq<seq<Result>>)
    requires forall i :: 0 <= i < |runs| ==> Steady(runs[i])
    ensures TemperatureAfter(t, runs) == t && StepsAfter(s, runs) == s
  {
    if runs != [] {
      hide RateBelow;
      var last := runs[|runs| - 1];
      assert Steady(last) && !RateAbove(last, 8, 10);
      SteadyStreak(t, s, runs[..|runs| - 1]);
    }
  }

  /** A streak above 60% and at most 80% cools to the floor in closed form while the steps stay where they were. */
  lemma {:induction false} CoolingStreak(t: real, s: int, runs: seq<seq<Result>>)
    requires InRange(t, s)
    requires forall i :: 0 <= i < |runs| ==> RateAbove(runs[i], 6, 10) && !RateAbove(runs[i], 8, 10)
    ensures TemperatureAfter(t, runs) == Max(MIN_TEMPERATURE, t - 0.05 * |runs| as real)
    ensures StepsAfter(s, runs) == s
  {
    if runs != [] {
      CoolingStreak(t, s, runs[..|runs| - 1]);
    }
  }

  // --- what the rates are rates of -----------------------------------------

  ghost function PassedAt(results: seq<Result>): set<int> {
    set i | 0 <= i < |results| && results[i].passed
  }

  lemma {:induction false} PassesAreCounted(results: seq<Result>)
    ensures Passes(results) == |PassedAt(results)|
  {
    if results != [] {
      var n := |results| - 1;
      PassesAreCounted(results[..n]);
      assert PassedAt(results) == PassedAt(results[..n]) + if results[n].passed then {n} else {};
      assert n !in PassedAt(results[..n]);
    }
  }

  /**
   * One iteration by its results alone: p of n passed. Below 40% both knobs go up, above 60% the temperature
   * goes down, above 80% the steps too; each stops at its bound, and a run with no results moves nothing.
   */
  lemma OneIteration(t: real, s: int, results: seq<Result>)
    requires InRange(t, s)
    ensures
      var p, n := |set i | 0 <= i < |results| && results[i].passed|, |results|;
      && NextTemperature(t, results)
         == (if n > 0 && 10 * p < 4 * n then if t > 0.9 then 0.95 else t + 0.05
             else if n > 0 && 10 * p > 6 * n then if t < 0.55 then 0.5 else t - 0.05
             else t)
      && NextSteps(s, results)
         == (if n > 0 && 10 * p < 4 * n then if s > 25 then 30 else s + 5
             else if n > 0 && 10 * p > 8 * n then if s < 20 then 15 else s - 5
             else s)
  {
    PassesAreCounted(results);
    assert PassedAt(results) == set i | 0 <= i < |results| && results[i].passed;
    hide Passes, PassedAt;
  }

  /** When every result passes, neither knob goes up; when every one fails, neither goes down. */
  lemma ExtremeIterations(t: real, s: int, results: seq<Result>)
    requires InRange(t, s)
    ensures (forall r :: r in results ==> r.passed) ==> NextTemperature(t, results) <= t && NextSteps(s, results) <= s
    ensures (forall r :: r in results ==> !r.passed) ==> NextTemperature(t, results) >= t && NextSteps(s, results) >= s
  {
    OneIteration(t, s, results);
    PassesAreCounted(results);
    assert PassedAt(results) == set i | 0 <= i < |results| && results[i].passed;
    if forall r :: r in results ==> r.passed {
      AllAlike(results, true);
    }
    if forall r :: r in results ==> !r.passed {
      AllAlike(results, false);
    }
    hide Passes, NextTemperature, NextSteps;
  }

  lemma {:induction false} AllAlike(results: seq<Result>, passed: bool)
    requires forall r :: r in results ==> r.passed == passed
    ensures Passes(results) == if passed then |results| else 0
  {
    if results != [] {
      var init, last := results[..|results| - 1], results[|results| - 1];
      assert last in results && forall r :: r in init ==> r in results;
      AllAlike(init, passed);
    }
  }

  /** Where a task failed, from a position on. */
  ghost function FailedAt(h: seq<Result>, id: string, from: nat): set<int> {
    set i | from <= i < |h| && h[i].id == id && !h[i].passed
  }

  /** The failures since a position, counted. */
  lemma {:induction false} FailsAreCounted(h: seq<Result>, id: string, from: nat)
    ensures Fails(h, id, from) == |FailedAt(h, id, from)|
  {
    if |h| <= from {
      assert FailedAt(h, id, from) == {};
    } else {
      var n := |h| - 1;
      FailsAreCounted(h[..n], id, from);
      assert FailedAt(h, id, from) == FailedAt(h[..n], id, from) + if h[n].id == id && !h[n].passed then {n} else {};
      assert n !in FailedAt(h[..n], id, from);
    }
  }

  /** Nine is the exact number: after eight, the lowest temperature has not reached the cap. */
  lemma EightIsNotEnough(runs: seq<seq<Result>>)
    requires |runs| == 8 && forall i :: 0 <= i < |runs| ==> RateBelow(runs[i], 4, 10)
    ensures TemperatureAfter(MIN_TEMPERATURE, runs) < MAX_TEMPERATURE
  {
    LowStreak(MIN_TEMPERATURE, MIN_STEPS, runs);
  }
}

/** Turning session logs into training pairs (scripts/nightly-train.ts, `collectTrainingData`). */
module TrainingPairs {
  import opened Seqs
  import opened Text

  datatype Part = Part(isText: bool, text: string)

  /** A parsed log line; a line that is malformed or of another type is Ignored. */
  datatype Entry =
    | UserMessage(content: string)
    | AssistantMessage(content: string)
    | AssistantContent(parts: seq<Part>)
    | Error
    | Ignored

  datatype Pair = Pair(prompt: string, chosen: string)

  function TextOf(): Part -> seq<string> {
    (p: Part) => if p.isText then [p.text] else []
  }

  /** The assistant text an entry sets, if it sets one. */
  function ResponseOf(e: Entry): Option<string> {
    match e
    case AssistantMessage(content) => if content != "" then Some(content) else None
    case AssistantContent(parts) =>
      var texts := Flat(parts, TextOf());
      if texts != [] then Some(Join(texts, '\n')) else None
    case _ => None
  }

  // --- the segment specification -------------------------------------------

  predicate Starts(e: Entry) {
    e.UserMessage? && e.content != ""
  }

  /** Where the turn open before position k began: the last nonempty user message before k, or -1. */
  function TurnStart(log: seq<Entry>, k: nat): (p: int)
    requires k <= |log|
    ensures -1 <= p < k
    ensures p >= 0 ==> Starts(log[p])
    ensures forall j :: p < j < k ==> !Starts(log[j])
  {
    if k == 0 then -1 else if Starts(log[k - 1]) then k - 1 else TurnStart(log, k - 1)
  }

  /** The last assistant text of a turn's body, or "". */
  function LastText(body: seq<Entry>): string {
    if body == [] then ""
    else
      match ResponseOf(body[|body| - 1])
      case Some(text) => text
      case None => LastText(body[..|body| - 1])
  }

  predicate HasError(body: seq<Entry>) {
    exists i :: 0 <= i < |body| && body[i].Error?
  }

  /** What position k contributes: if it closes a turn with a last text and no error, that turn's pair. */
  function ClosedAt(log: seq<Entry>, k: nat): seq<Pair>
    requires k < |log|
  {
    var p := TurnStart(log, k);
    if !Starts(log[k]) || p < 0 then []
    else
      var body := log[p + 1..k];
      if LastText(body) != "" && !HasError(body) then [Pair(log[p].content, LastText(body))] else []
  }

  function PairsUpTo(log: seq<Entry>, n: nat): seq<Pair>
    requires n <= |log|
  {
    if n == 0 then [] else PairsUpTo(log, n - 1) + ClosedAt(log, n - 1)
  }

  /** In order, exactly the turns followed by another user message, with a last text and no error. */
  function Pairs(log: seq<Entry>): seq<Pair> {
    PairsUpTo(log, |log|)
  }

  // --- the loop ------------------------------------------------------------

  ghost predicate TurnState(log: seq<Entry>, n: nat, prompt: string, response: string, hasError: bool)
    requires n <= |log|
  {
    var p := TurnStart(log, n);
    if p < 0 then prompt == ""
    else prompt == log[p].content && response == LastText(log[p + 1..n]) && hasError == HasError(log[p + 1..n])
  }

  method Collect(log: seq<Entry>) returns (pairs: seq<Pair>)
    ensures pairs == Pairs(log)
  {
    hide LastText, HasError, ClosedAt, ResponseOf;
    pairs := [];
    var prompt, response, hasError := "", "", false;
    for i := 0 to |log|
      invariant pairs == PairsUpTo(log, i)
      invariant TurnState(log, i, prompt, response, hasError)
    {
      hide TurnState, PairsUpTo, ResponseOf;
      var e := log[i];
      Advance(log, i, prompt, response, hasError);
      if Starts(e) {
        if prompt != "" && response != "" && !hasError {
          pairs := pairs + [Pair(prompt, response)];
        }
        prompt, response, hasError := e.content, "", false;
      } else {
        var text := ResponseOf(e);
        if text.Some? {
          response := text.value;
        }
        if e.Error? {
          hasError := true;
        }
      }
    }
  }

  /** One turn of the loop, against the specification. */
  lemma Advance(log: seq<Entry>, i: nat, prompt: string, response: string, hasError: bool)
    requires i < |log| && TurnState(log, i, prompt, response, hasError)
    ensures
      var before, after := PairsUpTo(log, i), PairsUpTo(log, i + 1);
      if Starts(log[i]) then
        && after == (if prompt != "" && response != "" && !hasError then before + [Pair(prompt, response)] else before)
        && TurnState(log, i + 1, log[i].content, "", false)
      else
        && after == before
        && TurnState(log, i + 1, prompt,
                     match ResponseOf(log[i]) case Some(text) => text case None => response,
                     hasError || log[i].Error?)
  {
    hide *;
    OneMore(log, i);
    Closes(log, i, prompt, response, hasError);
    Steps(log, i, prompt, response, hasError);
  }

  /** What the loop emits is what position i contributes. */
  lemma Closes(log: seq<Entry>, i: nat, prompt: string, response: string, hasError: bool)
    requires i < |log| && TurnState(log, i, prompt, response, hasError)
    ensures ClosedAt(log, i)
            == if Starts(log[i]) && prompt != "" && response != "" && !hasError then [Pair(prompt, response)] else []
  {
    hide LastText, HasError;
  }

  lemma Steps(log: seq<Entry>, i: nat, prompt: string, response: string, hasError: bool)
    requires i < |log| && TurnState(log, i, prompt, response, hasError)
    ensures
      if Starts(log[i]) then TurnState(log, i + 1, log[i].content, "", false)
      else TurnState(log, i + 1, prompt,
                     match ResponseOf(log[i]) case Some(text) => text case None => response,
                     hasError || log[i].Error?)
  {
    OpenTurn(log, i);
    NewTurn(log, i);
    hide LastText, HasError, ResponseOf, Starts;
  }

  lemma OneMore(log: seq<Entry>, i: nat)
    requires i < |log|
    ensures PairsUpTo(log, i + 1) == PairsUpTo(log, i) + ClosedAt(log, i)
  {
    hide ClosedAt;
  }

  /** How the open turn's body changes over one entry. */
  lemma OpenTurn(log: seq<Entry>, i: nat)
    requires i < |log|
    ensures
      var p := TurnStart(log, i);
      p >= 0 && !Starts(log[i]) ==>
        var body, body' := log[p + 1..i], log[p + 1..i + 1];
        && LastText(body') == (match ResponseOf(log[i]) case Some(text) => text case None => LastText(body))
        && (HasError(body') <==> HasError(body) || log[i].Error?)
  {
    hide *;
    var p := TurnStart(log, i);
    if p >= 0 && !Starts(log[i]) {
      assert log[p + 1..i + 1] == log[p + 1..i] + [log[i]];
      BodyGrows(log[p + 1..i], log[i]);
    }
  }

  lemma NewTurn(log: seq<Entry>, i: nat)
    requires i < |log|
    ensures LastText(log[i + 1..i + 1]) == "" && !HasError(log[i + 1..i + 1])
  {
  }

  lemma BodyGrows(body: seq<Entry>, e: Entry)
    ensures LastText(body + [e]) == match ResponseOf(e) case Some(text) => text case None => LastText(body)
    ensures HasError(body + [e]) <==> HasError(body) || e.Error?
  {
    hide ResponseOf;
    assert (body + [e])[..|body|] == body;
    assert forall i :: 0 <= i < |body| ==> (body + [e])[i] == body[i];
    assert (body + [e])[|body|] == e;
  }

  /** The open last turn is never emitted: entries without a further user message change nothing. */
  lemma {:induction false} FinalTurnNeverEmitted(log: seq<Entry>, n: nat)
    requires n <= |log| && forall k :: n <= k < |log| ==> !Starts(log[k])
    ensures Pairs(log) == PairsUpTo(log, n)
    decreases |log| - n
  {
    NoneClosed(log, n, |log|);
  }

  lemma NothingCloses(log: seq<Entry>, k: nat)
    requires k < |log|
    ensures !Starts(log[k]) ==> ClosedAt(log, k) == []
  {
    hide LastText, HasError, Starts;
  }

  lemma {:induction false} NoneClosed(log: seq<Entry>, n: nat, m: nat)
    requires n <= m <= |log| && forall k :: n <= k < m ==> !Starts(log[k])
    ensures PairsUpTo(log, m) == PairsUpTo(log, n)
  {
    hide *;
    if n < m {
      NoneClosed(log, n, m - 1);
      OneMore(log, m - 1);
      NothingCloses(log, m - 1);
    }
  }

  lemma ClosedTurnExact(log: seq<Entry>, k: nat, x: Pair)
    requires k < |log|
    ensures x in ClosedAt(log, k) ==>
      var p := TurnStart(log, k);
      p >= 0 && GoodTurn(log, p, k) && x == PairOf(log, p, k)
    ensures forall from :: 0 <= from < k && GoodTurn(log, from, k) ==>
      from == TurnStart(log, k) && ClosedAt(log, k) == [PairOf(log, from, k)]
  {
    var p := TurnStart(log, k);
    if p >= 0 {
      GoodTurnParts(log, p, k);
    }
    forall from | 0 <= from < k && GoodTurn(log, from, k)
      ensures from == p && ClosedAt(log, k) == [PairOf(log, from, k)]
    {
      GoodTurnParts(log, from, k);
    }
    hide LastText, HasError, Starts, GoodTurn;
  }

  lemma GoodTurnParts(log: seq<Entry>, from: nat, to: nat)
    requires from < to < |log|
    ensures GoodTurn(log, from, to) <==>
            && Starts(log[from]) && Starts(log[to]) && (forall j :: from < j < to ==> !Starts(log[j]))
            && LastText(log[from + 1..to]) != "" && !HasError(log[from + 1..to])
  {
    hide LastText;
    var body := log[from + 1..to];
    assert forall j :: from < j < to ==> log[j] == body[j - from - 1];
    assert HasError(body) <==> exists j :: from < j < to && log[j].Error? by {
      if i :| 0 <= i < |body| && body[i].Error? {
        assert log[from + 1 + i].Error?;
      }
    }
  }

  /** A pair is emitted exactly when it is a good turn between two consecutive user messages. */
  lemma {:induction false} PairsExact(log: seq<Entry>, n: nat, x: Pair)
    requires n <= |log|
    ensures x in PairsUpTo(log, n) <==>
            exists from, to :: 0 <= from < to < n && GoodTurn(log, from, to) && x == PairOf(log, from, to)
  {
    hide ClosedAt, GoodTurn, PairOf;
    if n > 0 {
      PairsExact(log, n - 1, x);
      ClosedTurnExact(log, n - 1, x);
    }
  }

  ghost predicate GoodTurn(log: seq<Entry>, from: int, to: int)
    requires 0 <= from < to < |log|
  {
    && log[from].UserMessage? && log[from].content != "" && log[to].UserMessage? && log[to].content != ""
    && (forall j :: from < j < to ==> !(log[j].UserMessage? && log[j].content != "") && !log[j].Error?)
    && LastText(log[from + 1..to]) != ""
  }

  ghost function PairOf(log: seq<Entry>, from: int, to: int): Pair
    requires 0 <= from < to < |log| && GoodTurn(log, from, to)
  {
    Pair(log[from].content, LastText(log[from + 1..to]))
  }

  // --- what a turn's text is -----------------------------------------------

  lemma {:induction false} TextsOf(parts: seq<Part>, x: Part)
    ensures Flat(parts + [x], TextOf()) == Flat(parts, TextOf()) + if x.isText then [x.text] else []
  {
    FlatPush(parts, x, TextOf());
  }

  lemma {:induction false} JoinMore(texts: seq<string>, x: string)
    requires texts != []
    ensures Join(texts + [x], '\n') == Join(texts, '\n') + ("\n" + x)
  {
    if |texts| > 1 {
      assert (texts + [x])[1..] == texts[1..] + [x];
      JoinMore(texts[1..], x);
    } else {
      assert (texts + [x])[1..] == [x];
    }
  }

  /** What an entry sets the response to: nonempty content, or the text parts joined by newlines, others skipped. */
  lemma ResponseMeaning(content: string, parts: seq<Part>, x: Part)
    ensures ResponseOf(AssistantMessage(content)) == if content == "" then None else Some(content)
    ensures ResponseOf(AssistantContent([])) == None
    ensures
      var before := ResponseOf(AssistantContent(parts));
      ResponseOf(AssistantContent(parts + [x]))
      == if !x.isText then before else if before == None then Some(x.text) else Some(before.value + ("\n" + x.text))
    ensures forall e: Entry :: !e.AssistantMessage? && !e.AssistantContent? ==> ResponseOf(e) == None
  {
    var before, all := Flat(parts, TextOf()), Flat(parts + [x], TextOf());
    TextsOf(parts, x);
    assert before + [] == before;
    hide Flat, Join;
    assert x.isText ==> all == before + [x.text];
    if before != [] {
      JoinMore(before, x.text);
    } else {
      JoinOne(x.text);
    }
  }

  lemma JoinOne(x: string)
    ensures Join([] + [x], '\n') == x
  {
  }

  /** A turn's text is what its last entry with a response sets; with none it is empty. */
  lemma {:induction false} LastTextMeaning(body: seq<Entry>, i: nat)
    ensures i < |body| && ResponseOf(body[i]).Some? && (forall j :: i < j < |body| ==> ResponseOf(body[j]) == None) ==>
      LastText(body) == ResponseOf(body[i]).value
    ensures (forall j :: 0 <= j < |body| ==> ResponseOf(body[j]) == None) ==> LastText(body) == ""
  {
    hide ResponseOf;
    if body != [] && ResponseOf(body[|body| - 1]) == None {
      LastTextMeaning(body[..|body| - 1], i);
    }
  }

  ghost predicate ClosesGoodTurn(log: seq<Entry>, k: int) {
    exists from :: 0 <= from < k < |log| && GoodTurn(log, from, k)
  }

  ghost function Closers(log: seq<Entry>, m: nat): set<int> {
    set k | 0 <= k < m && ClosesGoodTurn(log, k)
  }

  /** Pairs are emitted in the order of the turns that they close, one for each good one. */
  lemma {:induction false} PairsGrow(log: seq<Entry>, n: nat, m: nat)
    requires n <= m <= |log|
    ensures PairsUpTo(log, n) <= PairsUpTo(log, m)
    ensures |PairsUpTo(log, m)| == |Closers(log, m)|
    decreases m
  {
    hide *;
    if m == 0 {
      NoneYet(log);
    } else {
      PairsGrow(log, if n < m then n else m - 1, m - 1);
      OneMore(log, m - 1);
      ClosesOne(log, m - 1);
      OneCloser(log, m - 1);
    }
  }

  lemma NoneYet(log: seq<Entry>)
    ensures PairsUpTo(log, 0) == [] && Closers(log, 0) == {}
  {
  }

  lemma OneCloser(log: seq<Entry>, k: nat)
    ensures |Closers(log, k + 1)| == |Closers(log, k)| + if ClosesGoodTurn(log, k) then 1 else 0
  {
    hide ClosesGoodTurn;
    assert Closers(log, k + 1) == Closers(log, k) + if ClosesGoodTurn(log, k) then {k as int} else {};
  }

  lemma ClosesOne(log: seq<Entry>, k: nat)
    requires k < |log|
    ensures |ClosedAt(log, k)| == if ClosesGoodTurn(log, k) then 1 else 0
  {
    hide LastText, HasError, Starts, GoodTurn;
    if |ClosedAt(log, k)| > 0 {
      ClosedTurnExact(log, k, ClosedAt(log, k)[0]);
    } else {
      ClosedTurnExact(log, k, Pair("", ""));
    }
  }
}
