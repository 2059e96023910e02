// Reachable states of the pipeline: the ends of runs, and equally the states
// that have every property which holds at the start and which all steps keep.
module PipelineRuns {
  import opened Backoff
  import opened Pipeline

  /******* Runs *******/

  // Some run ends in s.
  ghost predicate Reachable(cfg: Config, s: State) { exists r :: IsRunTo(cfg, r, s) }

  ghost predicate IsRunTo(cfg: Config, r: Run, s: State) {
    ValidRun(cfg, r) && r.states[|r.steps|] == s
  }

  lemma InitialReachable(cfg: Config)
    ensures Reachable(cfg, Initial())
  {
    assert IsRunTo(cfg, Run([Initial()], []), Initial());
  }

  lemma StepReaches(cfg: Config, s: State, step: Step)
    requires Reachable(cfg, s) && Enabled(cfg, s, step)
    ensures Reachable(cfg, Apply(cfg, s, step))
  {
    var r :| IsRunTo(cfg, r, s);
    ExtendRun(cfg, r, s, step, Apply(cfg, s, step));
  }

  lemma ExtendRun(cfg: Config, r: Run, s: State, step: Step, s': State)
    requires IsRunTo(cfg, r, s) && Follows(cfg, s, step, s')
    ensures IsRunTo(cfg, Run(r.states + [s'], r.steps + [step]), s')
  {
    var more := Run(r.states + [s'], r.steps + [step]);
    forall k | 0 <= k < |more.steps| ensures StepAt(cfg, more, k) {
      if k < |r.steps| {
        assert StepAt(cfg, r, k);
      }
    }
  }

  /******* Properties that all steps keep *******/

  ghost predicate StepClosed(cfg: Config, property: State -> bool) {
    forall s, step {:trigger property(Apply(cfg, s, step))} ::
      property(s) && Enabled(cfg, s, step) ==> property(Apply(cfg, s, step))
  }

  // s' can be reached from s: it has every property of s that all steps keep.
  ghost predicate Leads(cfg: Config, s: State, s': State) {
    forall property: State -> bool :: property(s) && StepClosed(cfg, property) ==> property(s')
  }

  lemma StepLeads(cfg: Config, s: State, step: Step)
    requires Enabled(cfg, s, step)
    ensures Leads(cfg, s, Apply(cfg, s, step))
  {
    forall property: State -> bool | property(s) && StepClosed(cfg, property) ensures property(Apply(cfg, s, step)) {
    }
  }

  lemma LeadsTransitive(cfg: Config, a: State, b: State, c: State)
    requires Leads(cfg, a, b) && Leads(cfg, b, c)
    ensures Leads(cfg, a, c)
  {
  }

  lemma {:induction false} RunLeads(cfg: Config, r: Run, k: nat, n: nat)
    requires ValidRun(cfg, r) && k <= n < |r.states|
    ensures Leads(cfg, r.states[k], r.states[n])
    decreases n
  {
    if k < n {
      RunLeads(cfg, r, k, n - 1);
      assert StepAt(cfg, r, n - 1);
      StepLeads(cfg, r.states[n - 1], r.steps[n - 1]);
      LeadsTransitive(cfg, r.states[k], r.states[n - 1], r.states[n]);
    }
  }

  lemma LeadsReaches(cfg: Config, s: State, s': State)
    requires Reachable(cfg, s) && Leads(cfg, s, s')
    ensures Reachable(cfg, s')
  {
    var reached := (x: State) => Reachable(cfg, x);
    forall x, step | reached(x) && Enabled(cfg, x, step) ensures reached(Apply(cfg, x, step)) {
      StepReaches(cfg, x, step);
    }
    assert StepClosed(cfg, reached);
  }

  // The ends of runs are the states with every property that the empty system
  // has and that all steps keep.
  lemma ReachableExactly(cfg: Config, s: State)
    ensures Reachable(cfg, s) <==> Leads(cfg, Initial(), s)
  {
    InitialReachable(cfg);
    if Reachable(cfg, s) {
      var r :| IsRunTo(cfg, r, s);
      RunLeads(cfg, r, 0, |r.steps|);
    } else if Leads(cfg, Initial(), s) {
      LeadsReaches(cfg, Initial(), s);
    }
  }
}
