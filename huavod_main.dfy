/** The fallback chain of `main` in NoAd_huavod.py: method 1 (yt-dlp on the
    page, with or without browser cookies), then extraction and, for each
    candidate source in order, yt-dlp and then ffmpeg, then the manual
    prompt with yt-dlp and then ffmpeg on the operator's link. The chain
    stops at the first attempt that reports success.

    The result of each download attempt is taken from an oracle
    `outcome(i, step)`: what that attempt returns when it is the i-th step
    of the run. The chain is specified as running a fixed plan of steps
    until an attempt succeeds (`RunPlan`), and `RunStrategies` is the
    imperative flag-and-break code proved equal to it. */
module HuavodMain {
  import opened Wrappers
  import opened Text
  import opened Sequences
  import opened Huavod

  datatype Step =
    | Method1(cookies: bool)        // method 1: yt-dlp on the page itself
    | Extract                      // method 2: extract candidate sources
    | SourceYtDlp(src: string)     // yt-dlp on one candidate
    | SourceFfmpeg(src: string)    // ffmpeg on the same candidate
    | Prompt                       // method 3: ask for a source link
    | ManualYtDlp(src: string)     // yt-dlp on the operator's link
    | ManualFfmpeg(src: string)    // ffmpeg on the operator's link

  /** Steps that run a download and report success or failure. */
  predicate IsAttempt(s: Step)
  {
    !s.Extract? && !s.Prompt?
  }

  /** The steps taken so far, and whether the last one was a successful
      download. */
  datatype Run = Run(trace: seq<Step>, success: bool)

  /** Take one more step; only an attempt can succeed. */
  function Perform(r: Run, s: Step, outcome: (nat, Step) -> bool): Run
  {
    Run(r.trace + [s], IsAttempt(s) && outcome(|r.trace|, s))
  }

  /** Take the steps of `plan` in order, stopping at the first success. */
  function RunPlan(plan: seq<Step>, outcome: (nat, Step) -> bool, r: Run): Run
    decreases |plan|
  {
    if r.success || plan == [] then r else RunPlan(plan[1..], outcome, Perform(r, plan[0], outcome))
  }

  predicate Succeeds(outcome: (nat, Step) -> bool, i: nat, s: Step)
  {
    IsAttempt(s) && outcome(i, s)
  }

  /** Running a plan from a state that has not succeeded: the new steps are
      a prefix of the plan; no step before the last one succeeded; the run
      succeeded exactly when its last step did; and a failed run took every
      step of the plan. */
  lemma {:induction false} RunPlanSpec(plan: seq<Step>, outcome: (nat, Step) -> bool, start: Run)
    requires !start.success
    ensures var r := RunPlan(plan, outcome, start); var k := |r.trace| - |start.trace|;
      0 <= k <= |plan| && r.trace == start.trace + plan[..k]
      && (forall i :: |start.trace| <= i < |r.trace| - 1 ==> !Succeeds(outcome, i, r.trace[i]))
      && (r.success <==> k > 0 && Succeeds(outcome, |r.trace| - 1, r.trace[|r.trace| - 1]))
      && (!r.success ==> k == |plan|)
    decreases |plan|
  {
    if plan != [] {
      var next := Perform(start, plan[0], outcome);
      var r := RunPlan(plan, outcome, start);
      if next.success {
        assert r == next;
        assert plan[..1] == [plan[0]];
      } else {
        RunPlanSpec(plan[1..], outcome, next);
        var k := |r.trace| - |next.trace|;
        assert plan[1..][..k] == plan[1..k + 1];
        assert [plan[0]] + plan[1..k + 1] == plan[..k + 1];
      }
    }
  }

  /** One step of `RunPlan`, for use in proofs. */
  lemma RunPlanCons(s: Step, rest: seq<Step>, outcome: (nat, Step) -> bool, r: Run)
    requires !r.success
    ensures RunPlan([s] + rest, outcome, r) == RunPlan(rest, outcome, Perform(r, s, outcome))
  {
    assert ([s] + rest)[1..] == rest;
  }

  /** Two attempts in a row: the run ends after the first that succeeds,
      or goes on after both. */
  lemma AttemptPair(a: Step, b: Step, later: seq<Step>, outcome: (nat, Step) -> bool, trace: seq<Step>)
    requires IsAttempt(a) && IsAttempt(b)
    ensures var r := RunPlan([a, b] + later, outcome, Run(trace, false));
      if outcome(|trace|, a) then r == Run(trace + [a], true)
      else if outcome(|trace| + 1, b) then r == Run(trace + [a] + [b], true)
      else r == RunPlan(later, outcome, Run(trace + [a] + [b], false))
  {
    assert [a, b] + later == [a] + ([b] + later);
    RunPlanCons(a, [b] + later, outcome, Run(trace, false));
    if !outcome(|trace|, a) {
      RunPlanCons(b, later, outcome, Run(trace + [a], false));
    }
  }

  function SourceSteps(src: string): seq<Step>
  {
    [SourceYtDlp(src), SourceFfmpeg(src)]
  }

  function ManualSteps(manual: Option<string>): seq<Step>
  {
    match manual
    case None => []
    case Some(v) => [ManualYtDlp(v), ManualFfmpeg(v)]
  }

  /** Every step `main` can take, in the order it takes them. */
  function Plan(cookies: bool, sources: seq<string>, manual: Option<string>): seq<Step>
  {
    [Method1(cookies), Extract] + FlatMap(SourceSteps, sources) + [Prompt] + ManualSteps(manual)
  }

  /** The candidate steps from the i-th source on: that source's two
      attempts, then the rest. */
  lemma SourcesFrom(sources: seq<string>, i: nat, tail: seq<Step>)
    requires i < |sources|
    ensures FlatMap(SourceSteps, sources[i..]) + tail
            == [SourceYtDlp(sources[i]), SourceFfmpeg(sources[i])] + (FlatMap(SourceSteps, sources[i + 1..]) + tail)
  {
    assert sources[i..] == [sources[i]] + sources[i + 1..];
    FlatMapAppend(SourceSteps, [sources[i]], sources[i + 1..]);
    assert FlatMap(SourceSteps, [sources[i]]) == FlatMap(SourceSteps, []) + SourceSteps(sources[i]);
  }

  /** The run of the whole plan after method 1. */
  lemma PlanFirst(cookies: bool, sources: seq<string>, manual: Option<string>, outcome: (nat, Step) -> bool)
    ensures RunPlan(Plan(cookies, sources, manual), outcome, Run([], false))
            == RunPlan([Extract] + FlatMap(SourceSteps, sources) + ([Prompt] + ManualSteps(manual)), outcome,
                       Run([Method1(cookies)], outcome(0, Method1(cookies))))
  {
    var later := [Extract] + FlatMap(SourceSteps, sources) + ([Prompt] + ManualSteps(manual));
    var f := FlatMap(SourceSteps, sources);
    var m := ManualSteps(manual);
    assert [Method1(cookies), Extract] + f + [Prompt] + m == [Method1(cookies)] + ([Extract] + f + ([Prompt] + m));
    RunPlanCons(Method1(cookies), later, outcome, Run([], false));
    assert Perform(Run([], false), Method1(cookies), outcome) == Run([Method1(cookies)], outcome(0, Method1(cookies)));
  }

  /** The candidate steps are yt-dlp then ffmpeg for each source, in source
      order. */
  lemma {:induction false} SourceStepsAt(sources: seq<string>)
    ensures var fs := FlatMap(SourceSteps, sources);
      |fs| == 2 * |sources|
      && forall k :: 0 <= k < |sources| ==> fs[2 * k] == SourceYtDlp(sources[k]) && fs[2 * k + 1] == SourceFfmpeg(sources[k])
  {
    if sources != [] {
      var p := sources[..|sources| - 1];
      SourceStepsAt(p);
      forall k | 0 <= k < |p|
        ensures sources[k] == p[k]
      {
      }
    }
  }

  /** The stage a step belongs to: 0 method 1, 1 extraction, 2 a candidate
      attempt, 3 the prompt, 4 a manual attempt. */
  function Stage(s: Step): nat
  {
    match s
    case Method1(_) => 0
    case Extract => 1
    case SourceYtDlp(_) => 2
    case SourceFfmpeg(_) => 2
    case Prompt => 3
    case ManualYtDlp(_) => 4
    case ManualFfmpeg(_) => 4
  }

  /** The stage of the i-th step of a plan with `n` candidate steps. */
  function StageAt(i: nat, n: nat): nat
  {
    if i == 0 then 0 else if i == 1 then 1 else if i < 2 + n then 2 else if i == 2 + n then 3 else 4
  }

  /** Where each step sits in the plan. */
  lemma PlanShape(cookies: bool, sources: seq<string>, manual: Option<string>)
    ensures var plan := Plan(cookies, sources, manual); var n := 2 * |sources|;
      |plan| == 3 + n + |ManualSteps(manual)|
      && plan[0] == Method1(cookies) && plan[1] == Extract
      && (forall k :: 0 <= k < |sources| ==> plan[2 + 2 * k] == SourceYtDlp(sources[k]) && plan[3 + 2 * k] == SourceFfmpeg(sources[k]))
      && plan[2 + n] == Prompt
      && (manual.Some? ==> plan[3 + n] == ManualYtDlp(manual.value) && plan[4 + n] == ManualFfmpeg(manual.value))
  {
    var plan := Plan(cookies, sources, manual);
    var fs := FlatMap(SourceSteps, sources);
    SourceStepsAt(sources);
    assert forall i :: 2 <= i < 2 + |fs| ==> plan[i] == fs[i - 2];
  }

  /** Each position of the plan holds a step of the stage `StageAt` names. */
  lemma PlanStages(cookies: bool, sources: seq<string>, manual: Option<string>)
    ensures var plan := Plan(cookies, sources, manual);
      forall i :: 0 <= i < |plan| ==> Stage(plan[i]) == StageAt(i, 2 * |sources|)
  {
    var plan := Plan(cookies, sources, manual);
    var fs := FlatMap(SourceSteps, sources);
    var n := 2 * |sources|;
    SourceStepsAt(sources);
    forall i | 2 <= i < 2 + n
      ensures Stage(plan[i]) == 2
    {
      assert plan[i] == fs[i - 2];
      var k := (i - 2) / 2;
      if (i - 2) % 2 == 0 {
        assert fs[2 * k] == SourceYtDlp(sources[k]);
      } else {
        assert fs[2 * k + 1] == SourceFfmpeg(sources[k]);
      }
    }
    assert forall i :: 3 + n <= i < |plan| ==> plan[i] == ManualSteps(manual)[i - 3 - n];
  }

  /** A step a run took sits at the same position as in its plan, and so
      belongs to the stage that position names. */
  lemma StageOfTaken(plan: seq<Step>, trace: seq<Step>, n: nat, j: nat)
    requires |trace| <= |plan| && trace == plan[..|trace|]
    requires forall i :: 0 <= i < |plan| ==> Stage(plan[i]) == StageAt(i, n)
    requires j < |trace|
    ensures Stage(trace[j]) == StageAt(j, n)
  {
    assert trace[j] == plan[j];
  }

  /** A text lower-cases to `y` exactly when it is `y` or `Y`. */
  lemma LowerIsY(t: string)
    ensures LowerAscii(t) == "y" <==> t == "y" || t == "Y"
  {
    if |t| == 1 && LowerAscii(t) == "y" {
      assert LowerAscii(t)[0] == 'y';
      assert t == [t[0]];
    }
  }

  /** `input(...).lower().strip() == 'y'`: cookies are used exactly when
      the answer, stripped, is `y` or `Y`. Lower-casing only ASCII letters
      decides this test exactly: no other character lower-cases to `y` or
      to whitespace. */
  function UseCookies(answer: string): (r: bool)
    ensures r <==> Strip(answer, Whitespace) == "y" || Strip(answer, Whitespace) == "Y"
  {
    LowerStrip(answer);
    LowerIsY(Strip(answer, Whitespace));
    Strip(LowerAscii(answer), Whitespace) == "y"
  }

  /** `interactive_browser_method`: the stripped answer, or nothing when it
      is empty. */
  function ManualSource(answer: string): (m: Option<string>)
    ensures m.Some? ==> m.value != "" && m.value[0] !in Whitespace && m.value[|m.value| - 1] !in Whitespace
    ensures m.None? <==> forall i :: 0 <= i < |answer| ==> answer[i] in Whitespace
  {
    StripSpec(answer, Whitespace);
    StripEmptyIff(answer, Whitespace);
    var v := Strip(answer, Whitespace);
    if v != "" then Some(v) else None
  }

  /** The whole of `main` after the dependency checks and URL input. */
  function Chain(cookieAnswer: string, fetch: nat -> FetchOutcome, findAll: string -> seq<seq<string>>,
                 parse: string -> Option<JsonObject>, manualAnswer: string,
                 outcome: (nat, Step) -> bool): Run
  {
    RunPlan(Plan(UseCookies(cookieAnswer), Extraction(fetch, findAll, parse), ManualSource(manualAnswer)),
            outcome, Run([], false))
  }

  /** The candidate loop of `main`: for each source, yt-dlp and then ffmpeg,
      leaving the loop at the first success. Whatever steps follow the
      candidates in the plan (`tail`), the loop has run its part of the plan:
      on success the whole run ends here, otherwise the run goes on with the
      tail from the new trace. */
  method TrySources(sources: seq<string>, outcome: (nat, Step) -> bool, trace0: seq<Step>, ghost tail: seq<Step>)
    returns (trace: seq<Step>, success: bool)
    ensures success ==> Run(trace, true) == RunPlan(FlatMap(SourceSteps, sources) + tail, outcome, Run(trace0, false))
    ensures !success ==> RunPlan(FlatMap(SourceSteps, sources) + tail, outcome, Run(trace0, false))
                         == RunPlan(tail, outcome, Run(trace, false))
  {
    trace := trace0;
    success := false;
    var i := 0;
    while i < |sources|
      invariant 0 <= i <= |sources|
      invariant RunPlan(FlatMap(SourceSteps, sources) + tail, outcome, Run(trace0, false))
                == RunPlan(FlatMap(SourceSteps, sources[i..]) + tail, outcome, Run(trace, false))
    {
      var src := sources[i];
      ghost var later := FlatMap(SourceSteps, sources[i + 1..]) + tail;
      SourcesFrom(sources, i, tail);
      AttemptPair(SourceYtDlp(src), SourceFfmpeg(src), later, outcome, trace);
      var ok := outcome(|trace|, SourceYtDlp(src));
      trace := trace + [SourceYtDlp(src)];
      if ok {
        success := true;
        break;
      }
      ok := outcome(|trace|, SourceFfmpeg(src));
      trace := trace + [SourceFfmpeg(src)];
      if ok {
        success := true;
        break;
      }
      i := i + 1;
    }
    if !success {
      assert sources[i..] == [];
      assert FlatMap(SourceSteps, sources[i..]) + tail == tail;
    }
  }

  /** Method 3: prompt for a link; when the stripped answer is not empty,
      yt-dlp on it, and ffmpeg on it when yt-dlp failed. */
  method ManualStage(manualAnswer: string, outcome: (nat, Step) -> bool, trace0: seq<Step>)
    returns (trace: seq<Step>, success: bool)
    ensures Run(trace, success) == RunPlan([Prompt] + ManualSteps(ManualSource(manualAnswer)), outcome, Run(trace0, false))
  {
    var manual := ManualSource(manualAnswer);
    RunPlanCons(Prompt, ManualSteps(manual), outcome, Run(trace0, false));
    trace := trace0 + [Prompt];
    success := false;
    if manual.Some? {
      var v := manual.value;
      assert ManualSteps(manual) == [ManualYtDlp(v), ManualFfmpeg(v)] + [];
      AttemptPair(ManualYtDlp(v), ManualFfmpeg(v), [], outcome, trace);
      var ok := outcome(|trace|, ManualYtDlp(v));
      trace := trace + [ManualYtDlp(v)];
      if ok {
        success := true;
      } else {
        ok := outcome(|trace|, ManualFfmpeg(v));
        trace := trace + [ManualFfmpeg(v)];
        success := ok;
      }
    }
  }

  /** Methods 2 and 3, reached when method 1 failed: extraction, the
      candidate loop, and the manual stage when no candidate succeeded. */
  method AfterMethod1(fetch: nat -> FetchOutcome, findAll: string -> seq<seq<string>>,
                      parse: string -> Option<JsonObject>, manualAnswer: string,
                      outcome: (nat, Step) -> bool, trace0: seq<Step>)
    returns (trace: seq<Step>, success: bool)
    ensures Run(trace, success)
            == RunPlan([Extract] + FlatMap(SourceSteps, Extraction(fetch, findAll, parse))
                       + ([Prompt] + ManualSteps(ManualSource(manualAnswer))), outcome, Run(trace0, false))
  {
    ghost var tail := [Prompt] + ManualSteps(ManualSource(manualAnswer));
    ghost var rest := FlatMap(SourceSteps, Extraction(fetch, findAll, parse)) + tail;
    assert [Extract] + FlatMap(SourceSteps, Extraction(fetch, findAll, parse)) + tail == [Extract] + rest;
    RunPlanCons(Extract, rest, outcome, Run(trace0, false));
    trace := trace0 + [Extract];
    var sources := ExtractVideoSources(fetch, findAll, parse);
    trace, success := TrySources(sources, outcome, trace, tail);
    if !success {
      trace, success := ManualStage(manualAnswer, outcome, trace);
    }
  }

  /** `main`: method 1, then the later methods while `success` is false. */
  method RunStrategies(cookieAnswer: string, fetch: nat -> FetchOutcome, findAll: string -> seq<seq<string>>,
                       parse: string -> Option<JsonObject>, manualAnswer: string,
                       outcome: (nat, Step) -> bool)
    returns (trace: seq<Step>, success: bool)
    ensures Run(trace, success) == Chain(cookieAnswer, fetch, findAll, parse, manualAnswer, outcome)
  {
    var useCookies := UseCookies(cookieAnswer);
    PlanFirst(useCookies, Extraction(fetch, findAll, parse), ManualSource(manualAnswer), outcome);
    success := outcome(0, Method1(useCookies));
    trace := [Method1(useCookies)];
    if !success {
      trace, success := AfterMethod1(fetch, findAll, parse, manualAnswer, outcome, trace);
    }
  }

  /** Method 1 runs first and only once; a success there ends the run
      before extraction. */
  lemma Method1First(cookies: bool, sources: seq<string>, manual: Option<string>, outcome: (nat, Step) -> bool)
    ensures var r := RunPlan(Plan(cookies, sources, manual), outcome, Run([], false));
      |r.trace| >= 1 && r.trace[0] == Method1(cookies)
      && (forall i :: 1 <= i < |r.trace| ==> !r.trace[i].Method1?)
      && (outcome(0, Method1(cookies)) <==> r.trace == [Method1(cookies)] && r.success)
  {
    var plan := Plan(cookies, sources, manual);
    PlanShape(cookies, sources, manual);
    PlanStages(cookies, sources, manual);
    RunPlanSpec(plan, outcome, Run([], false));
    var r := RunPlan(plan, outcome, Run([], false));
    forall i | 1 <= i < |r.trace|
      ensures !r.trace[i].Method1?
    {
      assert r.trace[i] == plan[i];
      assert Stage(plan[i]) == StageAt(i, 2 * |sources|);
    }
  }

  /** Extraction happens exactly when method 1 failed. */
  lemma ExtractIffMethod1Failed(cookies: bool, sources: seq<string>, manual: Option<string>, outcome: (nat, Step) -> bool)
    ensures var r := RunPlan(Plan(cookies, sources, manual), outcome, Run([], false));
      Extract in r.trace <==> !outcome(0, Method1(cookies))
  {
    if !outcome(0, Method1(cookies)) {
      ExtractAfterMethod1Failed(cookies, sources, manual, outcome);
    }
    if Extract in RunPlan(Plan(cookies, sources, manual), outcome, Run([], false)).trace {
      ExtractOnlyAfterMethod1Failed(cookies, sources, manual, outcome);
    }
  }

  /** A failed method 1 is followed by the extraction. */
  lemma ExtractAfterMethod1Failed(cookies: bool, sources: seq<string>, manual: Option<string>, outcome: (nat, Step) -> bool)
    requires !outcome(0, Method1(cookies))
    ensures var r := RunPlan(Plan(cookies, sources, manual), outcome, Run([], false));
      |r.trace| >= 2 && r.trace[1] == Extract
  {
    var plan := Plan(cookies, sources, manual);
    PlanShape(cookies, sources, manual);
    RunPlanSpec(plan, outcome, Run([], false));
    var r := RunPlan(plan, outcome, Run([], false));
    assert |r.trace| >= 2 by {
      if r.success {
        assert !Succeeds(outcome, 0, r.trace[0]);
      }
    }
  }

  /** The extraction is reached only after method 1 failed. */
  lemma ExtractOnlyAfterMethod1Failed(cookies: bool, sources: seq<string>, manual: Option<string>, outcome: (nat, Step) -> bool)
    requires Extract in RunPlan(Plan(cookies, sources, manual), outcome, Run([], false)).trace
    ensures !outcome(0, Method1(cookies))
  {
    var plan := Plan(cookies, sources, manual);
    RunPlanSpec(plan, outcome, Run([], false));
    PlanStages(cookies, sources, manual);
    FirstStepFailedBeforeStageOne(plan, RunPlan(plan, outcome, Run([], false)).trace, 2 * |sources|, outcome);
    assert plan[0] == Method1(cookies) by {
      PlanShape(cookies, sources, manual);
    }
  }

  /** A trace taken from a staged plan that reaches the extraction went past
      the first step, which therefore did not succeed. */
  lemma FirstStepFailedBeforeStageOne(plan: seq<Step>, trace: seq<Step>, n: nat, outcome: (nat, Step) -> bool)
    requires |trace| <= |plan| && trace == plan[..|trace|]
    requires forall i :: 0 <= i < |plan| ==> Stage(plan[i]) == StageAt(i, n)
    requires forall i :: 0 <= i < |trace| - 1 ==> !Succeeds(outcome, i, trace[i])
    requires Extract in trace
    ensures !Succeeds(outcome, 0, plan[0])
  {
    var j :| 0 <= j < |trace| && trace[j] == Extract;
    StageOfTaken(plan, trace, n, j);
    assert j == 1;
    assert trace[0] == plan[0];
  }

  /** Candidates are tried in their order, each with yt-dlp and then with
      ffmpeg: whatever prefix of them the run reaches sits right after the
      extraction step. */
  lemma SourcesInOrder(cookies: bool, sources: seq<string>, manual: Option<string>, outcome: (nat, Step) -> bool)
    ensures var r := RunPlan(Plan(cookies, sources, manual), outcome, Run([], false));
      forall k :: 0 <= k < |sources| ==>
        (2 + 2 * k < |r.trace| ==> r.trace[2 + 2 * k] == SourceYtDlp(sources[k]))
        && (3 + 2 * k < |r.trace| ==> r.trace[3 + 2 * k] == SourceFfmpeg(sources[k]))
  {
    PlanShape(cookies, sources, manual);
    RunPlanSpec(Plan(cookies, sources, manual), outcome, Run([], false));
  }

  /** The ffmpeg attempt on a candidate happens only after yt-dlp on it
      failed. */
  lemma FfmpegAfterYtDlpFailed(cookies: bool, sources: seq<string>, manual: Option<string>,
                               outcome: (nat, Step) -> bool, k: nat)
    requires k < |sources|
    ensures var r := RunPlan(Plan(cookies, sources, manual), outcome, Run([], false));
      3 + 2 * k < |r.trace| ==> !outcome(2 + 2 * k, SourceYtDlp(sources[k]))
  {
    var plan := Plan(cookies, sources, manual);
    PlanShape(cookies, sources, manual);
    RunPlanSpec(plan, outcome, Run([], false));
    var r := RunPlan(plan, outcome, Run([], false));
    if 3 + 2 * k < |r.trace| {
      assert r.trace[2 + 2 * k] == plan[2 + 2 * k] == SourceYtDlp(sources[k]);
      assert !Succeeds(outcome, 2 + 2 * k, r.trace[2 + 2 * k]);
    }
  }

  /** Method 1 and every attempt on every candidate failed. */
  predicate AllFailed(cookies: bool, sources: seq<string>, outcome: (nat, Step) -> bool)
  {
    !outcome(0, Method1(cookies))
    && forall k :: 0 <= k < |sources| ==>
         !outcome(2 + 2 * k, SourceYtDlp(sources[k])) && !outcome(3 + 2 * k, SourceFfmpeg(sources[k]))
  }

  /** A run that reached the prompt passed every earlier step of its plan
      without a success. */
  lemma FailedBeforePrompt(plan: seq<Step>, trace: seq<Step>, n: nat, outcome: (nat, Step) -> bool)
    requires |trace| <= |plan| && trace == plan[..|trace|]
    requires forall i :: 0 <= i < |plan| ==> Stage(plan[i]) == StageAt(i, n)
    requires forall i :: 0 <= i < |trace| - 1 ==> !Succeeds(outcome, i, trace[i])
    requires Prompt in trace
    ensures 2 + n < |plan|
    ensures forall i :: 0 <= i < 2 + n ==> !Succeeds(outcome, i, plan[i])
  {
    var j :| 0 <= j < |trace| && trace[j] == Prompt;
    StageOfTaken(plan, trace, n, j);
    forall i | 0 <= i < 2 + n
      ensures !Succeeds(outcome, i, plan[i])
    {
      assert trace[i] == plan[i];
    }
  }

  /** No success among the first `2 + 2 * |sources|` steps of a plan laid
      out as `Plan` lays it out is `AllFailed`. */
  lemma FailedSteps(cookies: bool, sources: seq<string>, plan: seq<Step>, outcome: (nat, Step) -> bool)
    requires 2 + 2 * |sources| < |plan| && plan[0] == Method1(cookies)
    requires forall k :: 0 <= k < |sources| ==> plan[2 + 2 * k] == SourceYtDlp(sources[k]) && plan[3 + 2 * k] == SourceFfmpeg(sources[k])
    requires forall i :: 0 <= i < 2 + 2 * |sources| ==> !Succeeds(outcome, i, plan[i])
    ensures AllFailed(cookies, sources, outcome)
  {
    assert !Succeeds(outcome, 0, plan[0]);
    forall k | 0 <= k < |sources|
      ensures !outcome(2 + 2 * k, SourceYtDlp(sources[k])) && !outcome(3 + 2 * k, SourceFfmpeg(sources[k]))
    {
      assert !Succeeds(outcome, 2 + 2 * k, plan[2 + 2 * k]);
      assert !Succeeds(outcome, 3 + 2 * k, plan[3 + 2 * k]);
    }
  }

  /** The manual prompt comes only after method 1 and every candidate
      attempt failed. */
  lemma PromptOnlyWhenAllFailed(cookies: bool, sources: seq<string>, manual: Option<string>, outcome: (nat, Step) -> bool)
    ensures var r := RunPlan(Plan(cookies, sources, manual), outcome, Run([], false));
      Prompt in r.trace ==> AllFailed(cookies, sources, outcome)
  {
    var plan := Plan(cookies, sources, manual);
    var n := 2 * |sources|;
    PlanShape(cookies, sources, manual);
    PlanStages(cookies, sources, manual);
    RunPlanSpec(plan, outcome, Run([], false));
    var r := RunPlan(plan, outcome, Run([], false));
    if Prompt in r.trace {
      FailedBeforePrompt(plan, r.trace, n, outcome);
      FailedSteps(cookies, sources, plan, outcome);
    }
  }

  /** When method 1 and every candidate attempt failed, the prompt comes. */
  lemma PromptWhenAllFailed(cookies: bool, sources: seq<string>, manual: Option<string>, outcome: (nat, Step) -> bool)
    requires AllFailed(cookies, sources, outcome)
    ensures Prompt in RunPlan(Plan(cookies, sources, manual), outcome, Run([], false)).trace
  {
    var plan := Plan(cookies, sources, manual);
    var n := 2 * |sources|;
    PlanShape(cookies, sources, manual);
    RunPlanSpec(plan, outcome, Run([], false));
    var r := RunPlan(plan, outcome, Run([], false));
    forall i | 0 <= i < 2 + n
      ensures !Succeeds(outcome, i, plan[i])
    {
      if i >= 2 {
        var k := (i - 2) / 2;
        if (i - 2) % 2 == 0 {
          assert i == 2 + 2 * k;
          assert plan[2 + 2 * k] == SourceYtDlp(sources[k]);
        } else {
          assert i == 3 + 2 * k;
          assert plan[3 + 2 * k] == SourceFfmpeg(sources[k]);
        }
      }
    }
    assert |r.trace| > 2 + n by {
      if r.success {
        assert r.trace[|r.trace| - 1] == plan[|r.trace| - 1];
      }
    }
    assert r.trace[2 + n] == Prompt;
  }

  /** On the operator's link, yt-dlp comes right after the prompt. */
  lemma ManualAfterPrompt(cookies: bool, sources: seq<string>, v: string, outcome: (nat, Step) -> bool)
    ensures var r := RunPlan(Plan(cookies, sources, Some(v)), outcome, Run([], false)); var n := 2 * |sources|;
      ManualYtDlp(v) in r.trace ==> |r.trace| >= 4 + n && r.trace[2 + n] == Prompt && r.trace[3 + n] == ManualYtDlp(v)
  {
    var plan := Plan(cookies, sources, Some(v));
    var n := 2 * |sources|;
    PlanShape(cookies, sources, Some(v));
    PlanStages(cookies, sources, Some(v));
    RunPlanSpec(plan, outcome, Run([], false));
    var r := RunPlan(plan, outcome, Run([], false));
    if ManualYtDlp(v) in r.trace {
      var j :| 0 <= j < |r.trace| && r.trace[j] == ManualYtDlp(v);
      StageOfTaken(plan, r.trace, n, j);
    }
  }

  /** A run that reached the last step of a plan ending in the two manual
      attempts took all of it, and the manual yt-dlp attempt failed. */
  lemma ManualFfmpegTaken(plan: seq<Step>, trace: seq<Step>, n: nat, v: string, outcome: (nat, Step) -> bool)
    requires |plan| == 5 + n && plan[3 + n] == ManualYtDlp(v)
    requires |trace| <= |plan| && trace == plan[..|trace|]
    requires forall i :: 0 <= i < |plan| ==> Stage(plan[i]) == StageAt(i, n)
    requires forall i :: 0 <= i < |trace| - 1 ==> !Succeeds(outcome, i, trace[i])
    requires ManualFfmpeg(v) in trace
    ensures |trace| == 5 + n && !outcome(3 + n, ManualYtDlp(v))
  {
    var j :| 0 <= j < |trace| && trace[j] == ManualFfmpeg(v);
    StageOfTaken(plan, trace, n, j);
    assert trace[3 + n] == ManualYtDlp(v) by {
      assert j != 3 + n;
    }
    assert !Succeeds(outcome, 3 + n, trace[3 + n]);
  }

  /** On the operator's link, ffmpeg runs last and only when yt-dlp on the
      same link failed. */
  lemma ManualFfmpegAfterYtDlpFailed(cookies: bool, sources: seq<string>, v: string, outcome: (nat, Step) -> bool)
    ensures var r := RunPlan(Plan(cookies, sources, Some(v)), outcome, Run([], false)); var n := 2 * |sources|;
      ManualFfmpeg(v) in r.trace ==> |r.trace| == 5 + n && !outcome(3 + n, ManualYtDlp(v))
  {
    var plan := Plan(cookies, sources, Some(v));
    var n := 2 * |sources|;
    PlanShape(cookies, sources, Some(v));
    PlanStages(cookies, sources, Some(v));
    RunPlanSpec(plan, outcome, Run([], false));
    var r := RunPlan(plan, outcome, Run([], false));
    if ManualFfmpeg(v) in r.trace {
      ManualFfmpegTaken(plan, r.trace, n, v, outcome);
    }
  }
}
