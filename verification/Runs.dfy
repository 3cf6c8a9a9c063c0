/** How far an engine has come in a run of messages. */
module Runs {
  import opened Types
  import opened Folding
  import opened Reference
  import opened RunLaws

  // Named one by one so that the solver unfolds only what a proof asks for.
  datatype Trail = StateTrail | LogTrail

  ghost predicate TrailOk(c: Trail, st: State, queue: seq<Stamped>, i: nat, log0: seq<Report>, model: State, log: seq<Report>)
    requires i <= |queue|
  {
    match c
    case StateTrail => model == Run(st, queue[..i]).state
    case LogTrail => log == log0 + Run(st, queue[..i]).reports
  }

  /** Having processed `queue[..i]` from `st`, the engine is in `model` and `log` extends `log0`. */
  ghost predicate CameTo(st: State, queue: seq<Stamped>, i: nat, log0: seq<Report>, model: State, log: seq<Report>) {
    i <= |queue|
    && forall c {:trigger TrailOk(c, st, queue, i, log0, model, log)} :: TrailOk(c, st, queue, i, log0, model, log)
  }

  /** The clock after the first `i` messages. */
  ghost function ClockAt(start: nat, queue: seq<Stamped>, i: nat): nat
    requires i <= |queue|
  {
    if i == 0 then start else queue[i - 1].now
  }

  lemma {:induction false} ClockRuns(start: nat, queue: seq<Stamped>, i: nat)
    requires Monotone(start, queue) && i < |queue|
    ensures ClockAt(start, queue, i) <= queue[i].now == ClockAt(start, queue, i + 1)
  {
  }

  lemma {:induction false} ComesFrom(st: State, queue: seq<Stamped>, log: seq<Report>)
    ensures CameTo(st, queue, 0, log, st, log)
  {
    assert queue[..0] == [];
    assert log + [] == log;
  }

  lemma {:induction false} CameSoFar(
      st: State, start: nat, queue: seq<Stamped>, i: nat, log0: seq<Report>, model: State, log: seq<Report>)
    requires CameTo(st, queue, i, log0, model, log)
    ensures var o := Run(st, queue[..i]); model == o.state && log == log0 + o.reports
    ensures ClockAt(start, queue, i) == ClockAfter(start, queue[..i])
  {
    assert TrailOk(StateTrail, st, queue, i, log0, model, log) && TrailOk(LogTrail, st, queue, i, log0, model, log);
  }

  lemma {:induction false} CameThrough(
      st: State, start: nat, queue: seq<Stamped>, log0: seq<Report>, model: State, log: seq<Report>)
    requires CameTo(st, queue, |queue|, log0, model, log)
    ensures var o := Run(st, queue); model == o.state && log == log0 + o.reports
    ensures ClockAt(start, queue, |queue|) == ClockAfter(start, queue)
  {
    CameSoFar(st, start, queue, |queue|, log0, model, log);
    assert queue[..|queue|] == queue;
  }

  /** One message further. */
  lemma {:induction false} ComesTo(
      st: State, queue: seq<Stamped>, i: nat, log0: seq<Report>, model: State, log: seq<Report>, model': State, log': seq<Report>)
    requires i < |queue| && CameTo(st, queue, i, log0, model, log)
    requires var o := Step(model, queue[i].msg, queue[i].now); model' == o.state && log' == log + o.reports
    ensures CameTo(st, queue, i + 1, log0, model', log')
  {
    CameSoFar(st, 0, queue, i, log0, model, log);
    assert queue[..i + 1] == queue[..i] + [queue[i]];
    FoldLast(Dispatch, st, queue[..i], queue[i]);
    AppendTwice(log0, Run(st, queue[..i]).reports, Step(model, queue[i].msg, queue[i].now).reports);
  }

  /** A stretch further. */
  lemma {:induction false} ComesFurther(
      st: State, start: nat, queue: seq<Stamped>, n: nat, k: nat, rest: seq<Stamped>, log0: seq<Report>,
      model: State, log: seq<Report>, model': State, log': seq<Report>)
    requires n + k <= |queue| && rest == queue[n..][..k] && CameTo(st, queue, n, log0, model, log)
    requires var o := Run(model, rest); model' == o.state && log' == log + o.reports
    ensures CameTo(st, queue, n + k, log0, model', log')
    ensures ClockAfter(ClockAt(start, queue, n), rest) == ClockAt(start, queue, n + k)
  {
    CameSoFar(st, start, queue, n, log0, model, log);
    assert queue[..n + k] == queue[..n] + rest;
    RunSplits(st, queue[..n], rest);
    AppendTwice(log0, Run(st, queue[..n]).reports, Run(model, rest).reports);
  }

  lemma {:induction false} NextAdmissible(
      st: State, queue: seq<Stamped>, i: nat, log0: seq<Report>, model: State, log: seq<Report>)
    requires AdmissibleRun(st, queue) && i < |queue| && CameTo(st, queue, i, log0, model, log)
    ensures Admissible(model, queue[i].msg)
  {
    CameSoFar(st, 0, queue, i, log0, model, log);
  }

  /** One message of a stretch. */
  lemma {:induction false} RestAdmissible(st: State, queue: seq<Stamped>, n: nat, rest: seq<Stamped>, i: nat)
    requires AdmissibleRun(st, queue) && n + |rest| <= |queue| && rest == queue[n..][..|rest|] && i < |rest|
    ensures Admissible(Run(Run(st, queue[..n]).state, rest[..i]).state, rest[i].msg)
  {
    assert queue[..n] + rest[..i] == queue[..n + i];
    RunSplits(st, queue[..n], rest[..i]);
    assert rest[i] == queue[n + i];
  }

  /** What is demanded of a whole run holds of any stretch of it, from where that stretch starts. */
  lemma {:induction false} RestOfRun(
      st: State, start: nat, queue: seq<Stamped>, n: nat, rest: seq<Stamped>, log0: seq<Report>, model: State, log: seq<Report>)
    requires AdmissibleRun(st, queue) && Monotone(start, queue)
    requires n + |rest| <= |queue| && rest == queue[n..][..|rest|] && CameTo(st, queue, n, log0, model, log)
    ensures AdmissibleRun(model, rest) && Monotone(ClockAt(start, queue, n), rest)
  {
    CameSoFar(st, start, queue, n, log0, model, log);
    forall i | 0 <= i < |rest|
      ensures Admissible(Run(model, rest[..i]).state, rest[i].msg)
    {
      RestAdmissible(st, queue, n, rest, i);
    }
  }
}
