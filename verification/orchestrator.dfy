/** The step loop shared by the two pipeline entry points,
    packages/etl/src/orchestrators/run-all.ts and run-mp.ts. A step's body is
    an oracle: `succeeds(i)` says whether step `i` returned or threw. What the
    loop does is returned as a trace of step runs and waits. */
module Orchestrator {
  import opened Wrappers
  import Env

  /** Pause between two consecutive steps, in milliseconds. */
  const DelayBetweenEtls: int := 10_000

  /** The legislative pipeline: its only active step, and the variables it needs. */
  const LegislativoSteps: seq<string> := ["Discovery (Boletines)"]
  const LegislativoRequired: seq<string> := ["LEGISLATIVO_URL", "LEGISLATIVO_SERVICE_ROLE_KEY"]

  /** The procurement pipeline: no active step yet, and the variables it needs. */
  const MercadoPublicoSteps: seq<string> := []
  const MercadoPublicoRequired: seq<string> := ["SUPABASE_URL", "SUPABASE_SERVICE_ROLE_KEY", "MERCADOPUBLICO_TICKET"]

  /** Something the loop does that an observer can see. */
  datatype Event = Ran(index: nat, name: string) | Slept(ms: int)

  /** What step `i` of `steps` contributes: its run, then a pause unless it is
      the last step. */
  function StepEvents(steps: seq<string>, i: nat): seq<Event>
    requires i < |steps|
  {
    [Ran(i, steps[i])] + (if i < |steps| - 1 then [Slept(DelayBetweenEtls)] else [])
  }

  /** The events of the first `k` steps. */
  function Schedule(steps: seq<string>, k: nat): seq<Event>
    requires k <= |steps|
  {
    if k == 0 then [] else Schedule(steps, k - 1) + StepEvents(steps, k - 1)
  }

  /** The names of the steps run in a trace, in order. */
  function RunsOf(trace: seq<Event>): seq<string>
  {
    if |trace| == 0 then []
    else RunsOf(trace[..|trace| - 1]) + (if trace[|trace| - 1].Ran? then [trace[|trace| - 1].name] else [])
  }

  /** The number of waits in a trace. */
  function SleepsOf(trace: seq<Event>): nat
  {
    if |trace| == 0 then 0
    else SleepsOf(trace[..|trace| - 1]) + (if trace[|trace| - 1].Slept? then 1 else 0)
  }

  lemma {:induction false} RunsOfAppend(a: seq<Event>, b: seq<Event>)
    ensures RunsOf(a + b) == RunsOf(a) + RunsOf(b)
    ensures SleepsOf(a + b) == SleepsOf(a) + SleepsOf(b)
    decreases |b|
  {
    if |b| == 0 {
      assert a + b == a;
    } else {
      assert (a + b)[..|a + b| - 1] == a + b[..|b| - 1];
      RunsOfAppend(a, b[..|b| - 1]);
    }
  }

  /** Steps that returned among the first `n`. */
  function Successes(succeeds: nat -> bool, n: nat): nat
  {
    if n == 0 then 0 else Successes(succeeds, n - 1) + (if succeeds(n - 1) then 1 else 0)
  }

  /** The loop of `main`: every step runs once, in order, whatever the earlier
      ones did; a step that throws is counted as failed and the loop goes on;
      a pause follows every step but the last. */
  method RunSteps(steps: seq<string>, succeeds: nat -> bool)
    returns (completed: nat, failed: nat, trace: seq<Event>)
    ensures completed + failed == |steps|
    ensures completed == Successes(succeeds, |steps|)
    ensures trace == Schedule(steps, |steps|)
  {
    completed, failed, trace := 0, 0, [];
    var i := 0;
    while i < |steps|
      invariant 0 <= i <= |steps|
      invariant completed + failed == i
      invariant completed == Successes(succeeds, i)
      invariant trace == Schedule(steps, i)
    {
      trace := trace + [Ran(i, steps[i])];
      if succeeds(i) {
        completed := completed + 1;
      } else {
        failed := failed + 1;
      }
      if i < |steps| - 1 {
        trace := trace + [Slept(DelayBetweenEtls)];
      }
      i := i + 1;
    }
  }

  /** The steps run are exactly the list, each once and in order. */
  lemma {:induction false} ScheduleRunsEachStepOnce(steps: seq<string>, k: nat)
    requires k <= |steps|
    ensures RunsOf(Schedule(steps, k)) == steps[..k]
  {
    if k > 0 {
      ScheduleRunsEachStepOnce(steps, k - 1);
      RunsOfAppend(Schedule(steps, k - 1), StepEvents(steps, k - 1));
      var e := StepEvents(steps, k - 1);
      RunsOfAppend([Ran(k - 1, steps[k - 1])], e[1..]);
      assert e == [Ran(k - 1, steps[k - 1])] + e[1..];
      assert RunsOf([Ran(k - 1, steps[k - 1])]) == [steps[k - 1]] by {
        assert [Ran(k - 1, steps[k - 1])][..0] == [];
      }
      assert steps[..k] == steps[..k - 1] + [steps[k - 1]];
    }
  }

  /** `n` steps make `max(0, n - 1)` pauses. */
  lemma {:induction false} SchedulePauses(steps: seq<string>, k: nat)
    requires k <= |steps|
    ensures k < |steps| ==> SleepsOf(Schedule(steps, k)) == k
    ensures k == |steps| ==> SleepsOf(Schedule(steps, k)) == if k == 0 then 0 else k - 1
  {
    if k > 0 {
      SchedulePauses(steps, k - 1);
      RunsOfAppend(Schedule(steps, k - 1), StepEvents(steps, k - 1));
      var e := StepEvents(steps, k - 1);
      RunsOfAppend([Ran(k - 1, steps[k - 1])], e[1..]);
      assert e == [Ran(k - 1, steps[k - 1])] + e[1..];
      assert SleepsOf([Ran(k - 1, steps[k - 1])]) == 0 by {
        assert [Ran(k - 1, steps[k - 1])][..0] == [];
      }
      if k < |steps| {
        assert e[1..] == [Slept(DelayBetweenEtls)];
        assert SleepsOf(e[1..]) == 1 by {
          assert e[1..][..0] == [];
        }
      } else {
        assert e[1..] == [];
      }
    }
  }

  /** No pause after the last step: the trace of a non-empty list ends with
      the run of its last step. */
  lemma ScheduleEndsWithLastRun(steps: seq<string>)
    requires |steps| > 0
    ensures Schedule(steps, |steps|)[|Schedule(steps, |steps|)| - 1] == Ran(|steps| - 1, steps[|steps| - 1])
  {
  }

  /** `main`: the environment is checked before anything runs; if it fails the
      error escapes to the top-level handler and no step runs. */
  method RunSequence(env: map<string, string>, required: seq<string>, steps: seq<string>, succeeds: nat -> bool)
    returns (r: Result<()>, completed: nat, failed: nat, trace: seq<Event>)
    ensures r == Env.ValidateEnv(env, required)
    ensures r.Err? ==> completed == 0 && failed == 0 && trace == []
    ensures r.Ok? ==> completed + failed == |steps| && completed == Successes(succeeds, |steps|)
    ensures r.Ok? ==> trace == Schedule(steps, |steps|)
  {
    r := Env.ValidateEnv(env, required);
    if r.Err? {
      return r, 0, 0, [];
    }
    completed, failed, trace := RunSteps(steps, succeeds);
  }

  /** run-all.ts: the legislative pipeline. */
  method RunAll(env: map<string, string>, succeeds: nat -> bool)
    returns (r: Result<()>, completed: nat, failed: nat, trace: seq<Event>)
    ensures r == Env.ValidateEnv(env, LegislativoRequired)
    ensures r.Ok? ==> completed + failed == 1 && (completed == 1 <==> succeeds(0))
    ensures r.Ok? ==> trace == [Ran(0, "Discovery (Boletines)")]
    ensures r.Err? ==> trace == []
  {
    r, completed, failed, trace := RunSequence(env, LegislativoRequired, LegislativoSteps, succeeds);
    if r.Ok? {
      assert Schedule(LegislativoSteps, 1) == StepEvents(LegislativoSteps, 0);
    }
  }

  /** run-mp.ts: the procurement pipeline, whose step list is empty, so a
      valid environment gives 0 completed, 0 failed and no pause. */
  method RunMercadoPublico(env: map<string, string>, succeeds: nat -> bool)
    returns (r: Result<()>, completed: nat, failed: nat, trace: seq<Event>)
    ensures r == Env.ValidateEnv(env, MercadoPublicoRequired)
    ensures completed == 0 && failed == 0 && trace == []
  {
    r, completed, failed, trace := RunSequence(env, MercadoPublicoRequired, MercadoPublicoSteps, succeeds);
  }
}
