// The port probe of ProcessMonitor.performHealthCheck
// (container/process-monitor.ts): when an unresponsive port gets its process
// killed. Probes of one run, in order of their results.
module Health {
  import opened Text

  const PORT_FAILURE_THRESHOLD: nat := 2
  const PORT_STARTUP_GRACE_MS := 60000

  // `sinceStart` is the age of the run when the probe began; `running` is the
  // monitor's state when its result arrived.
  datatype Probe = Probe(responsive: bool, sinceStart: int, running: bool)

  datatype PortHealth = PortHealth(portBindConfirmed: bool, portFailureCount: nat, healthRestartInProgress: bool, kills: nat)

  const AT_START := PortHealth(false, 0, false, 0)

  function OnProbe(h: PortHealth, p: Probe, autoRestart: bool): PortHealth {
    if p.responsive then PortHealth(true, 0, false, h.kills)
    else if h.portBindConfirmed || p.sinceStart >= PORT_STARTUP_GRACE_MS then
      var failures := h.portFailureCount + 1;
      if failures >= PORT_FAILURE_THRESHOLD && !h.healthRestartInProgress && p.running && autoRestart then
        PortHealth(h.portBindConfirmed, failures, true, h.kills + 1)
      else h.(portFailureCount := failures)
    else h
  }

  class HealthMonitor {
    const autoRestart: bool
    var portBindConfirmed: bool
    var portFailureCount: nat
    var healthRestartInProgress: bool
    var kills: nat

    ghost function View(): PortHealth
      reads this
    {
      PortHealth(portBindConfirmed, portFailureCount, healthRestartInProgress, kills)
    }

    // start() resets the tracking.
    constructor (autoRestart: bool)
      ensures View() == AT_START && this.autoRestart == autoRestart
    {
      this.autoRestart := autoRestart;
      portBindConfirmed, portFailureCount, healthRestartInProgress, kills := false, 0, false, 0;
    }

    method PortProbe(p: Probe) returns (killed: bool)
      modifies this
      ensures View() == OnProbe(old(View()), p, autoRestart)
      ensures killed <==> kills == old(kills) + 1
    {
      killed := false;
      if p.responsive {
        if !portBindConfirmed {
          portBindConfirmed := true;
        }
        portFailureCount := 0;
        healthRestartInProgress := false;
      } else {
        var shouldCountFailure := portBindConfirmed || p.sinceStart >= PORT_STARTUP_GRACE_MS;
        if shouldCountFailure {
          portFailureCount := portFailureCount + 1;
          if portFailureCount >= PORT_FAILURE_THRESHOLD && !healthRestartInProgress && p.running && autoRestart {
            healthRestartInProgress := true;
            kills := kills + 1;
            killed := true;
          }
        }
      }
    }
  }

  function After(probes: seq<Probe>, autoRestart: bool): PortHealth {
    if probes == [] then AT_START else OnProbe(After(Init(probes), autoRestart), Last(probes), autoRestart)
  }

  // ------------------------------------------------------------------
  // The reference looks at the history of probes, not at any counter
  // ------------------------------------------------------------------

  // Probe `i` failed, and it counts: the port had answered before in this run,
  // or the run was past its grace period.
  predicate Counts(probes: seq<Probe>, i: nat)
    requires i < |probes|
  {
    && !probes[i].responsive
    && (probes[i].sinceStart >= PORT_STARTUP_GRACE_MS || exists j :: 0 <= j < i && probes[j].responsive)
  }

  // Counted failures since the last success.
  function Streak(probes: seq<Probe>): nat {
    if probes == [] || Last(probes).responsive then 0
    else Streak(Init(probes)) + (if Counts(probes, |probes| - 1) then 1 else 0)
  }

  // Probe `i` is the one that gets the process killed.
  predicate Kills(probes: seq<Probe>, i: nat)
    requires i < |probes|
  {
    Counts(probes, i) && probes[i].running && Streak(probes[..i + 1]) == PORT_FAILURE_THRESHOLD
  }

  // A run ends when its process is no longer running.
  predicate OneRun(probes: seq<Probe>) {
    forall i, j :: 0 <= i < j < |probes| && probes[j].running ==> probes[i].running
  }

  // The fields follow the history.
  lemma {:induction false} FieldsFollow(probes: seq<Probe>)
    requires OneRun(probes)
    ensures
      var h := After(probes, true);
      && (h.portBindConfirmed <==> exists j :: 0 <= j < |probes| && probes[j].responsive)
      && h.portFailureCount == Streak(probes)
      && (h.healthRestartInProgress ==> Streak(probes) >= PORT_FAILURE_THRESHOLD)
      && (probes != [] && Last(probes).running && Streak(probes) >= PORT_FAILURE_THRESHOLD ==> h.healthRestartInProgress)
  {
    if probes != [] {
      var before := Init(probes);
      FieldsFollow(before);
      assert forall j :: 0 <= j < |before| ==> before[j] == probes[j];
      if before == [] {
        assert Streak(before) == 0;
      }
    }
  }

  // With autoRestart, a probe issues a kill exactly when it is the one whose
  // counted failure brings the current streak to the threshold.
  lemma KillExactly(probes: seq<Probe>, i: nat)
    requires OneRun(probes) && i < |probes|
    ensures After(probes[..i + 1], true).kills == After(probes[..i], true).kills + (if Kills(probes, i) then 1 else 0)
  {
    var upTo := probes[..i + 1];
    assert Init(upTo) == probes[..i] && Last(upTo) == probes[i];
    FieldsFollow(probes[..i]);
    assert Counts(upTo, i) == Counts(probes, i) by {
      assert forall j :: 0 <= j < i ==> probes[..i][j] == probes[j] == upTo[j];
    }
    if i > 0 {
      assert Last(probes[..i]) == probes[i - 1];
    }
  }

  // Without it there is none.
  lemma {:induction false} NoAutoRestartNoKill(probes: seq<Probe>)
    ensures After(probes, false).kills == 0
  {
    if probes != [] {
      NoAutoRestartNoKill(Init(probes));
    }
  }

  lemma {:induction false} StreakGrows(probes: seq<Probe>, i: nat, j: nat)
    requires i <= j <= |probes|
    requires forall k :: i <= k < j ==> !probes[k].responsive
    ensures Streak(probes[..i]) <= Streak(probes[..j])
  {
    if i < j {
      StreakGrows(probes, i, j - 1);
      assert Init(probes[..j]) == probes[..j - 1];
    }
  }

  // Between two kills of a run the port has answered.
  lemma KillsNeedSuccess(probes: seq<Probe>, i: nat, j: nat)
    requires i < j < |probes| && Kills(probes, i) && Kills(probes, j)
    ensures exists k :: i < k < j && probes[k].responsive
  {
    var upTo := probes[..j + 1];
    assert Init(upTo) == probes[..j] && Last(upTo) == probes[j];
    assert forall k :: 0 <= k < j ==> upTo[k] == probes[k];
    assert Counts(upTo, j);
    if forall k :: i < k < j ==> !probes[k].responsive {
      StreakGrows(probes, i + 1, j);
    }
  }

  // Once a failure counts, with a clock that does not go back every later one
  // does until the next success: the streak has no gaps.
  lemma StreakHasNoGaps(probes: seq<Probe>, i: nat, j: nat)
    requires i < j < |probes| && Counts(probes, i) && !probes[j].responsive
    requires probes[i].sinceStart <= probes[j].sinceStart
    ensures Counts(probes, j)
  {
  }

  ghost predicate Monotone(probes: seq<Probe>) {
    forall i, j :: 0 <= i < j < |probes| ==> probes[i].sinceStart <= probes[j].sinceStart
  }

  lemma {:induction false} StreakCounts(probes: seq<Probe>, i: nat, j: nat)
    requires i <= j < |probes| && Monotone(probes) && Counts(probes, i)
    requires forall k :: i <= k <= j ==> !probes[k].responsive
    ensures Counts(probes, j)
    ensures Streak(probes[..j + 1]) == Streak(probes[..i]) + (j + 1 - i)
  {
    var upTo := probes[..j + 1];
    assert Init(upTo) == probes[..j] && Last(upTo) == probes[j];
    assert forall k :: 0 <= k <= j ==> upTo[k] == probes[k];
    if i < j {
      StreakCounts(probes, i, j - 1);
      StreakHasNoGaps(probes, i, j);
    }
    assert Counts(upTo, j);
  }

  // A port that stays silent gets its process killed: counting from the first
  // failure that counts, the probe number PORT_FAILURE_THRESHOLD kills, and no
  // other of the same silence does.
  lemma SilenceKillsOnce(probes: seq<Probe>, i: nat, j: nat)
    requires Monotone(probes) && i <= j < |probes|
    requires Counts(probes, i) && Streak(probes[..i]) == 0
    requires forall k :: i <= k <= j ==> !probes[k].responsive
    requires probes[j].running
    ensures Kills(probes, j) <==> j == i + PORT_FAILURE_THRESHOLD - 1
  {
    StreakCounts(probes, i, j);
  }
}
