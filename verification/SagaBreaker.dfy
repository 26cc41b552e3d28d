/** The breaker inside a payment: its state is that of a history of questions and results read off the steps of the run, and
    a leg is stopped exactly when that history isolates its provider. */
module SagaBreaker {
  import opened Common
  import opened Uuid
  import opened Domain
  import opened Saga
  import opened SagaInvariant
  import opened SagaLedger
  import opened SagaTraces
  import B = CircuitBreaker

  /** The bank has declined this leg's payment. */
  ghost predicate BankDeclined(steps: seq<Step>, i: nat) {
    exists message :: LegStep(i, Initiate(Err(message))) in steps
  }

  /** `h` continues `h0` by the steps of the run: a question for each leg at its breaker, a result for each leg that got the
      bank's answer, and one event of somebody else's for each change of the breaker by others. */
  ghost predicate Chronicle(job: Job, cfg: B.Config, h0: seq<B.Event>, steps: seq<Step>, h: seq<B.Event>)
    decreases |steps|
  {
    if steps == [] then h == h0
    else
      var before, n := steps[..|steps| - 1], |h| - 1;
      match steps[|steps| - 1]
      case LegStep(i, AskBreaker(now)) =>
        i < |job.plan| && h != [] && h[n] == B.Asked(job.plan[i].provider, now) && Chronicle(job, cfg, h0, before, h[..n])
      case LegStep(i, ReportResult(now, latency)) =>
        && i < |job.plan| && h != [] && h[n] == B.Reported(job.plan[i].provider, BankDeclined(before, i), latency, now)
        && Chronicle(job, cfg, h0, before, h[..n])
      case Other(OtherBreaker(breaker)) => h != [] && breaker == B.Run(cfg, h) && Chronicle(job, cfg, h0, before, h[..n])
      case _ => Chronicle(job, cfg, h0, before, h)
  }

  /** Every run in which nobody else uses the breaker has such a history. */
  lemma {:induction false} ChronicleOf(job: Job, cfg: B.Config, s0: State, h0: seq<B.Event>, steps: seq<Step>) returns (h: seq<B.Event>)
    requires Init(job, s0) && Valid(job, cfg, s0, steps)
    requires forall k :: 0 <= k < |steps| ==> !(steps[k].Other? && steps[k].o.OtherBreaker?)
    ensures Chronicle(job, cfg, h0, steps, h)
  {
    if steps == [] {
      h := h0;
    } else {
      var before, step := steps[..|steps| - 1], steps[|steps| - 1];
      h := ChronicleOf(job, cfg, s0, h0, before);
      InvHolds(job, cfg, s0, before);
      match step {
        case LegStep(i, AskBreaker(now)) =>
          var more := h + [B.Asked(job.plan[i].provider, now)];
          assert more[..|h|] == h;
          h := more;
        case LegStep(i, ReportResult(now, latency)) =>
          var more := h + [B.Reported(job.plan[i].provider, BankDeclined(before, i), latency, now)];
          assert more[..|h|] == h;
          h := more;
        case _ =>
      }
    }
  }

  lemma {:induction false} DeclinedIff(steps: seq<Step>, i: nat)
    ensures BankDeclined(steps, i) <==> exists message :: Initiate(Err(message)) in ActsOf(steps, i)
  {
    forall message ensures LegStep(i, Initiate(Err(message))) in steps <==> Initiate(Err(message)) in ActsOf(steps, i) {
      ActAmong(steps, i, Initiate(Err(message)));
    }
  }

  lemma FailedIffDeclined(p: SplitLeg, l: Leg, acts: seq<LegAct>)
    requires Underway(p, l, acts) && l.pc == AtReport
    ensures l.err.Some? <==> exists message :: Initiate(Err(message)) in acts
  {
    if acts[3].reply.Err? {
      assert Initiate(Err(acts[3].reply.error)) in acts;
    }
  }

  /** A leg about to report has failed exactly when the bank declined. */
  lemma {:induction false} ReportedFlag(job: Job, cfg: B.Config, s0: State, steps: seq<Step>, i: nat)
    requires Init(job, s0) && Valid(job, cfg, s0, steps) && i < |job.plan|
    ensures var s := Run(job, cfg, s0, steps);
            |s.legs| == |job.plan| && (s.legs[i].pc == AtReport ==> (s.legs[i].err.Some? <==> BankDeclined(steps, i)))
  {
    LegTrace(job, cfg, s0, steps, i);
    DeclinedIff(steps, i);
    var l := Run(job, cfg, s0, steps).legs[i];
    if l.pc == AtReport {
      FailedIffDeclined(job.plan[i], l, ActsOf(steps, i));
    }
  }

  /** Only questions, results and other users change the breaker. */
  lemma NextBreaker(job: Job, cfg: B.Config, s: State, step: Step)
    requires Enabled(job, s, step)
    ensures Next(job, cfg, s, step).breaker
         == match step
            case LegStep(i, AskBreaker(now)) => B.After(cfg, s.breaker, B.Asked(s.legs[i].leg.provider, now))
            case LegStep(i, ReportResult(now, latency)) =>
              B.After(cfg, s.breaker, B.Reported(s.legs[i].leg.provider, s.legs[i].err.Some?, latency, now))
            case Other(OtherBreaker(breaker)) => breaker
            case _ => s.breaker
  {
  }

  lemma {:induction false} BreakerNext(job: Job, cfg: B.Config, s0: State, h0: seq<B.Event>, before: seq<Step>, step: Step, h: seq<B.Event>)
    requires Init(job, s0) && Valid(job, cfg, s0, before) && Enabled(job, Run(job, cfg, s0, before), step)
    requires Chronicle(job, cfg, h0, before + [step], h) && h != []
    requires step.LegStep? && (step.a.AskBreaker? || step.a.ReportResult?)
    requires Run(job, cfg, s0, before).breaker == B.Run(cfg, h[..|h| - 1])
    ensures Next(job, cfg, Run(job, cfg, s0, before), step).breaker == B.Run(cfg, h)
  {
    var s := Run(job, cfg, s0, before);
    assert (before + [step])[..|before|] == before;
    InvHolds(job, cfg, s0, before);
    LegSources(job, s.legs);
    ReportedFlag(job, cfg, s0, before, step.i);
    NextBreaker(job, cfg, s, step);
  }

  /** Throughout the run the breaker is in the state of its history. */
  lemma {:induction false} BreakerFollows(job: Job, cfg: B.Config, s0: State, h0: seq<B.Event>, steps: seq<Step>, h: seq<B.Event>)
    requires Init(job, s0) && s0.breaker == B.Run(cfg, h0)
    requires Valid(job, cfg, s0, steps) && Chronicle(job, cfg, h0, steps, h)
    ensures Run(job, cfg, s0, steps).breaker == B.Run(cfg, h)
    decreases |steps|
  {
    if steps != [] {
      var before, step := steps[..|steps| - 1], steps[|steps| - 1];
      assert steps == before + [step];
      if step.LegStep? && (step.a.AskBreaker? || step.a.ReportResult?) {
        BreakerFollows(job, cfg, s0, h0, before, h[..|h| - 1]);
        BreakerNext(job, cfg, s0, h0, before, step, h);
      } else if !(step.Other? && step.o.OtherBreaker?) {
        BreakerFollows(job, cfg, s0, h0, before, h);
        NextBreaker(job, cfg, Run(job, cfg, s0, before), step);
      }
    }
  }

  /** A leg that asks the breaker ends with an open circuit exactly when its provider is isolated at that moment: as many of the
      provider's latest results as the threshold failed or were slow, and the open duration has not passed since. Otherwise it
      goes on to look up its provider. */
  lemma {:induction false} BreakerGate(job: Job, cfg: B.Config, s0: State, h0: seq<B.Event>, steps: seq<Step>, k: nat, i: nat, now: int, h: seq<B.Event>)
    requires Init(job, s0) && Valid(job, cfg, s0, steps) && s0.breaker == B.Run(cfg, h0) && cfg.threshold >= 1
    requires k < |steps| && steps[k] == LegStep(i, AskBreaker(now)) && Chronicle(job, cfg, h0, steps[..k], h)
    requires B.Monotone(h) && B.NotBefore(h, now)
    ensures i < |job.plan| && |Run(job, cfg, s0, steps).legs| == |job.plan| && Valid(job, cfg, s0, steps[..k + 1])
    ensures var p := job.plan[i].provider;
            Run(job, cfg, s0, steps).legs[i].err == Some(CircuitOpen(p)) <==> B.Isolated(cfg, h, p, now)
    ensures |Run(job, cfg, s0, steps[..k + 1]).legs| == |job.plan|
    ensures var l := Run(job, cfg, s0, steps[..k + 1]).legs[i];
            if B.Isolated(cfg, h, job.plan[i].provider, now) then l.pc == Done else l.pc == AtProvider && l.err == None
  {
    LegAtStep(job, cfg, s0, steps, k, i, AskBreaker(now));
    BreakerFollows(job, cfg, s0, h0, steps[..k], h);
    B.RefusedIffIsolated(cfg, h, job.plan[i].provider, now);
    LegKeeps(job, cfg, s0, steps, k + 1, i, 0);
  }
}
