/** The per-provider circuit breaker, and the history-only rule it implements. Times and durations are integers of one clock. */
module CircuitBreaker {
  import opened Common

  datatype Gate = Closed | Open | HalfOpen

  datatype Config = Config(threshold: int, openDuration: int, latencyThreshold: int)

  const DEFAULT_THRESHOLD := 3
  const DEFAULT_OPEN_MS := 5000
  const DEFAULT_LATENCY_MS := 150

  function Configure(threshold: int, openDuration: int, latencyThreshold: int): (c: Config)
    ensures c.threshold >= 1 && c.openDuration != 0 && c.latencyThreshold != 0
  {
    Config(if threshold <= 0 then DEFAULT_THRESHOLD else threshold,
           if openDuration == 0 then DEFAULT_OPEN_MS else openDuration,
           if latencyThreshold == 0 then DEFAULT_LATENCY_MS else latencyThreshold)
  }

  /** The three maps of the breaker; a provider never seen reads as zero failures and a closed gate. */
  datatype State = State(failures: map<string, int>, gates: map<string, Gate>, openSince: map<string, int>) {
    function Failures(p: string): int {
      if p in failures then failures[p] else 0
    }

    function Gate(p: string): Gate {
      if p in gates then gates[p] else Closed
    }

    function OpenSince(p: string): int {
      if p in openSince then openSince[p] else 0
    }
  }

  const FRESH := State(map[], map[], map[])

  function Allows(cfg: Config, s: State, p: string, now: int): bool {
    s.Gate(p) == Open ==> now - s.OpenSince(p) >= cfg.openDuration
  }

  function AfterAllow(cfg: Config, s: State, p: string, now: int): State {
    if s.Gate(p) == Open && Allows(cfg, s, p, now) then s.(gates := s.gates[p := HalfOpen]) else s
  }

  predicate Bad(cfg: Config, failed: bool, latency: int) {
    failed || latency > cfg.latencyThreshold
  }

  function AfterResult(cfg: Config, s: State, p: string, failed: bool, latency: int, now: int): State {
    if Bad(cfg, failed, latency) then
      var n := s.Failures(p) + 1;
      if s.Gate(p) == HalfOpen || n >= cfg.threshold
      then State(s.failures[p := n], s.gates[p := Open], s.openSince[p := now])
      else s.(failures := s.failures[p := n])
    else s.(failures := s.failures[p := 0], gates := s.gates[p := Closed])
  }

  class Breaker {
    const cfg: Config
    var failures: map<string, int>
    var gates: map<string, Gate>
    var openSince: map<string, int>

    function Snapshot(): State
      reads this
    {
      State.State(failures, gates, openSince)
    }

    constructor (threshold: int, openDuration: int, latencyThreshold: int)
      ensures cfg == Configure(threshold, openDuration, latencyThreshold) && Snapshot() == FRESH
    {
      cfg := Configure(threshold, openDuration, latencyThreshold);
      failures, gates, openSince := map[], map[], map[];
    }

    method Allow(p: string, now: int) returns (ok: bool)
      modifies this
      ensures ok == Allows(cfg, old(Snapshot()), p, now)
      ensures Snapshot() == AfterAllow(cfg, old(Snapshot()), p, now)
    {
      var gate := if p in gates then gates[p] else Closed;
      match gate {
        case Open =>
          if now - (if p in openSince then openSince[p] else 0) >= cfg.openDuration {
            gates := gates[p := HalfOpen];
            return true;
          }
          return false;
        case _ =>
          return true;
      }
    }

    method RecordResult(p: string, failed: bool, latency: int, now: int)
      modifies this
      ensures Snapshot() == AfterResult(cfg, old(Snapshot()), p, failed, latency, now)
    {
      var slow := latency > cfg.latencyThreshold;
      if failed || slow {
        failures := failures[p := (if p in failures then failures[p] else 0) + 1];
        if (p in gates && gates[p] == HalfOpen) || failures[p] >= cfg.threshold {
          gates := gates[p := Open];
          openSince := openSince[p := now];
        }
        return;
      }
      failures := failures[p := 0];
      gates := gates[p := Closed];
    }
  }

  // ---- the history-only rule ------------------------------------------------

  datatype Event =
    | Asked(p: string, at: int)
    | Reported(p: string, failed: bool, latency: int, at: int)

  function After(cfg: Config, s: State, e: Event): State {
    match e
    case Asked(p, at) => AfterAllow(cfg, s, p, at)
    case Reported(p, failed, latency, at) => AfterResult(cfg, s, p, failed, latency, at)
  }

  /** The breaker after a history, latest event last. */
  function Run(cfg: Config, h: seq<Event>): State {
    if h == [] then FRESH else After(cfg, Run(cfg, h[..|h| - 1]), h[|h| - 1])
  }

  /** Length of the trailing run of bad results of one provider. */
  function Streak(cfg: Config, h: seq<Event>, p: string): nat {
    if h == [] then 0
    else
      var e, before := h[|h| - 1], h[..|h| - 1];
      if e.Asked? || e.p != p then Streak(cfg, before, p)
      else if Bad(cfg, e.failed, e.latency) then Streak(cfg, before, p) + 1
      else 0
  }

  /** Time of the latest bad result of one provider. */
  function LastBad(cfg: Config, h: seq<Event>, p: string): Option<int> {
    if h == [] then None
    else
      var e, before := h[|h| - 1], h[..|h| - 1];
      if e.Reported? && e.p == p && Bad(cfg, e.failed, e.latency) then Some(e.at) else LastBad(cfg, before, p)
  }

  /** Time order: the mutex makes the breaker see its clock readings in order. */
  ghost predicate Monotone(h: seq<Event>) {
    forall i, j :: 0 <= i < j < |h| ==> h[i].at <= h[j].at
  }

  ghost predicate NotBefore(h: seq<Event>, t: int) {
    forall i :: 0 <= i < |h| ==> h[i].at <= t
  }

  /** The rule: few enough bad results in a row, or a long enough pause since the last of them. */
  predicate Permitted(cfg: Config, h: seq<Event>, p: string, t: int) {
    Streak(cfg, h, p) < cfg.threshold
    || (LastBad(cfg, h, p).Some? && t - LastBad(cfg, h, p).value >= cfg.openDuration)
  }

  /** What the three maps mean in terms of the history. */
  ghost predicate Means(cfg: Config, h: seq<Event>, p: string, t: int) {
    var s := Run(cfg, h);
    && s.Failures(p) == Streak(cfg, h, p)
    && (s.Gate(p) == Closed <==> Streak(cfg, h, p) < cfg.threshold)
    && (Streak(cfg, h, p) > 0 ==> LastBad(cfg, h, p).Some?)
    && (s.Gate(p) != Closed ==> LastBad(cfg, h, p) == Some(s.OpenSince(p)))
    && (s.Gate(p) == HalfOpen ==> t - s.OpenSince(p) >= cfg.openDuration)
  }

  lemma {:induction false} StateMeansHistory(cfg: Config, h: seq<Event>, p: string, t: int)
    requires cfg.threshold >= 1 && Monotone(h) && NotBefore(h, t)
    ensures Means(cfg, h, p, t)
  {
    if h != [] {
      var e, before := h[|h| - 1], h[..|h| - 1];
      StateMeansHistory(cfg, before, p, e.at);
      var s := Run(cfg, before);
      match e
      case Asked(q, at) =>
        assert q != p ==> AfterAllow(cfg, s, q, at).Gate(p) == s.Gate(p);
      case Reported(q, failed, latency, at) =>
        assert q != p ==> AfterResult(cfg, s, q, failed, latency, at).Gate(p) == s.Gate(p);
    }
  }

  /** The three-state machine answers exactly by the rule, so the half-open state is unobservable. */
  lemma {:induction false} AllowFollowsHistory(cfg: Config, h: seq<Event>, p: string, t: int)
    requires cfg.threshold >= 1 && Monotone(h) && NotBefore(h, t)
    ensures Allows(cfg, Run(cfg, h), p, t) <==> Permitted(cfg, h, p, t)
    ensures Run(cfg, h).Gate(p) == Closed <==> Run(cfg, h).Failures(p) < cfg.threshold
  {
    StateMeansHistory(cfg, h, p, t);
  }

  // ---- the rule on the reported results alone ---------------------------------

  /** The results reported for one provider, in order. */
  function Results(h: seq<Event>, p: string): (rs: seq<Event>)
    ensures forall i :: 0 <= i < |rs| ==> rs[i].Reported? && rs[i].p == p && rs[i] in h
  {
    if h == [] then []
    else
      var e, before := h[|h| - 1], Results(h[..|h| - 1], p);
      if e.Reported? && e.p == p then before + [e] else before
  }

  /** The last `k` results exist, and each of them failed or took longer than the latency threshold. */
  predicate LastFailedOrSlow(cfg: Config, rs: seq<Event>, k: nat)
    requires forall i :: 0 <= i < |rs| ==> rs[i].Reported?
  {
    k <= |rs| && forall i :: |rs| - k <= i < |rs| ==> rs[i].failed || rs[i].latency > cfg.latencyThreshold
  }

  /** As many results in a row as the threshold have failed or were slow, the last of them less than the open duration ago. */
  predicate Isolated(cfg: Config, h: seq<Event>, p: string, t: int)
    requires cfg.threshold >= 1
  {
    var rs := Results(h, p);
    LastFailedOrSlow(cfg, rs, cfg.threshold) && t - rs[|rs| - 1].at < cfg.openDuration
  }

  lemma {:induction false} ResultsNext(h: seq<Event>, e: Event, p: string)
    ensures Results(h + [e], p) == if e.Reported? && e.p == p then Results(h, p) + [e] else Results(h, p)
  {
    assert (h + [e])[..|h|] == h;
  }

  lemma LastNext(cfg: Config, rs: seq<Event>, e: Event, k: nat)
    requires e.Reported? && forall i :: 0 <= i < |rs| ==> rs[i].Reported?
    ensures LastFailedOrSlow(cfg, rs + [e], k)
        <==> k == 0 || ((e.failed || e.latency > cfg.latencyThreshold) && LastFailedOrSlow(cfg, rs, k - 1))
  {
    var all := rs + [e];
    if k > 0 && LastFailedOrSlow(cfg, all, k) {
      assert all[|rs|] == e;
      assert forall i :: |rs| - (k - 1) <= i < |rs| ==> all[i] == rs[i];
    }
  }

  lemma {:induction false} StreakOfResults(cfg: Config, h: seq<Event>, p: string, k: nat)
    ensures Streak(cfg, h, p) >= k <==> LastFailedOrSlow(cfg, Results(h, p), k)
  {
    if h != [] {
      var e, before := h[|h| - 1], h[..|h| - 1];
      assert h == before + [e];
      StreakOfResults(cfg, before, p, k);
      ResultsNext(before, e, p);
      if e.Reported? && e.p == p {
        LastNext(cfg, Results(before, p), e, k);
        if k > 0 {
          StreakOfResults(cfg, before, p, k - 1);
        }
      }
    }
  }

  lemma {:induction false} LastBadOfResults(cfg: Config, h: seq<Event>, p: string)
    requires Streak(cfg, h, p) > 0
    ensures var rs := Results(h, p); rs != [] && LastBad(cfg, h, p) == Some(rs[|rs| - 1].at)
  {
    var e, before := h[|h| - 1], h[..|h| - 1];
    if e.Asked? || e.p != p {
      LastBadOfResults(cfg, before, p);
    }
  }

  /** A provider is refused exactly when its last results, as many as the threshold, each failed or were slow, and the open
      duration has not passed since the last of them. */
  lemma {:induction false} RefusedIffIsolated(cfg: Config, h: seq<Event>, p: string, t: int)
    requires cfg.threshold >= 1 && Monotone(h) && NotBefore(h, t)
    ensures !Allows(cfg, Run(cfg, h), p, t) <==> Isolated(cfg, h, p, t)
  {
    AllowFollowsHistory(cfg, h, p, t);
    StreakOfResults(cfg, h, p, cfg.threshold);
    if Streak(cfg, h, p) > 0 {
      LastBadOfResults(cfg, h, p);
    }
  }

  /** The same in terms of the constructor's arguments: positive ones are taken as they are. */
  lemma {:induction false} ConfiguredBreaker(threshold: int, openDuration: int, latencyThreshold: int, h: seq<Event>, p: string, t: int)
    requires threshold > 0 && openDuration > 0 && latencyThreshold > 0 && Monotone(h) && NotBefore(h, t)
    ensures var rs := Results(h, p);
            !Allows(Configure(threshold, openDuration, latencyThreshold), Run(Configure(threshold, openDuration, latencyThreshold), h), p, t)
            <==> && threshold <= |rs|
                 && (forall i :: |rs| - threshold <= i < |rs| ==> rs[i].failed || rs[i].latency > latencyThreshold)
                 && t - rs[|rs| - 1].at < openDuration
  {
    RefusedIffIsolated(Configure(threshold, openDuration, latencyThreshold), h, p, t);
  }

  /** Missing or senseless arguments mean three failures, five seconds and 150 milliseconds. */
  lemma DefaultBreaker(threshold: int)
    requires threshold <= 0
    ensures Configure(threshold, 0, 0) == Config(3, 5000, 150)
  {
  }

  // ---- independence of providers ----------------------------------------------

  /** The part of a history that concerns one provider. */
  function Only(h: seq<Event>, p: string): seq<Event> {
    if h == [] then []
    else Only(h[..|h| - 1], p) + (if h[|h| - 1].p == p then [h[|h| - 1]] else [])
  }

  lemma {:induction false} OnlyKeepsOrder(h: seq<Event>, p: string, t: int)
    requires Monotone(h) && NotBefore(h, t)
    ensures Monotone(Only(h, p)) && NotBefore(Only(h, p), t)
  {
    if h != [] {
      OnlyKeepsOrder(h[..|h| - 1], p, h[|h| - 1].at);
    }
  }

  /** What one more event does to the streak and to the latest bad time. */
  lemma {:induction false} RuleNext(cfg: Config, h: seq<Event>, e: Event, p: string)
    ensures Streak(cfg, h + [e], p) == (if e.Asked? || e.p != p then Streak(cfg, h, p)
                                        else if Bad(cfg, e.failed, e.latency) then Streak(cfg, h, p) + 1 else 0)
    ensures LastBad(cfg, h + [e], p) == (if e.Reported? && e.p == p && Bad(cfg, e.failed, e.latency) then Some(e.at)
                                         else LastBad(cfg, h, p))
  {
    assert (h + [e])[..|h|] == h;
  }

  lemma {:induction false} OnlyNext(h: seq<Event>, e: Event, p: string)
    ensures Only(h + [e], p) == if e.p == p then Only(h, p) + [e] else Only(h, p)
  {
    assert (h + [e])[..|h|] == h;
  }

  lemma {:induction false} OnlyKeepsRule(cfg: Config, h: seq<Event>, p: string)
    ensures Streak(cfg, Only(h, p), p) == Streak(cfg, h, p)
    ensures LastBad(cfg, Only(h, p), p) == LastBad(cfg, h, p)
  {
    if h != [] {
      var e, before := h[|h| - 1], h[..|h| - 1];
      assert h == before + [e];
      OnlyKeepsRule(cfg, before, p);
      OnlyNext(before, e, p);
      RuleNext(cfg, before, e, p);
      if e.p == p {
        RuleNext(cfg, Only(before, p), e, p);
      }
    }
  }

  /** The answer for one provider does not depend on what happened with the others. */
  lemma {:induction false} ProvidersAreIndependent(cfg: Config, h: seq<Event>, p: string, t: int)
    requires cfg.threshold >= 1 && Monotone(h) && NotBefore(h, t)
    ensures Allows(cfg, Run(cfg, h), p, t) <==> Allows(cfg, Run(cfg, Only(h, p)), p, t)
  {
    OnlyKeepsOrder(h, p, t);
    OnlyKeepsRule(cfg, h, p);
    AllowFollowsHistory(cfg, h, p, t);
    AllowFollowsHistory(cfg, Only(h, p), p, t);
  }
}
