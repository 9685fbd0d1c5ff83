/**
 Bringing the sidecars up against an environment that decides every exit code, every status reading and every delay.
 The log of commands and status readings is what the claims are about.
 */
module Sidecars {
  import opened Wrappers

  datatype Status = Status(state: string, health: Option<string>)
  type Statuses = map<string, Status>

  // The n-th command ends with an exit code, or raises; the n-th status reading succeeds or raises; and the n-th thing
  // done takes some time.
  datatype World = World(exit: nat -> Option<int>, status: nat -> Option<Statuses>, delay: nat -> nat)

  datatype Happening = Ran(step: string, exit: Option<int>) | Looked(statuses: Option<Statuses>)

  const POSTGRES := "postgres"
  const LITELLM := "litellm"
  const POLL_MS := 2000

  // Required state, and required health if any.
  datatype Target = Target(service: string, required: bool, impact: string, state: string, health: Option<string>,
                           timeout: int)

  // --- Readiness ---

  predicate Matches(statuses: Statuses, service: string, state: string, health: Option<string>) {
    service in statuses && statuses[service].state == state && (health.None? || statuses[service].health == health)
  }

  predicate Ready(statuses: Statuses, target: Target) {
    Matches(statuses, target.service, target.state, target.health)
  }

  // Qdrant serves both profiles, Neo4j the hypermemory one; two timeouts are longer on hosted macOS.
  function Targets(usesQmd: bool, usesHypermemory: bool, hostedMacos: bool): seq<Target> {
    [ Target(POSTGRES, true, "fatal", "running", Some("healthy"), 180),
      Target(LITELLM, true, "fatal", "running", Some("healthy"), if hostedMacos then 300 else 180),
      Target("qdrant", usesQmd || usesHypermemory, "degraded", "running", Some("healthy"), 180),
      Target("neo4j", usesHypermemory, "degraded", "running", Some("healthy"), if hostedMacos then 600 else 180),
      Target("otel-collector", false, "observational", "running", None, 60) ]
  }

  // --- The log ---

  predicate Sees(happening: Happening, service: string, state: string, health: Option<string>) {
    happening.Looked? && happening.statuses.Some? && Matches(happening.statuses.value, service, state, health)
  }

  predicate Seen(log: seq<Happening>, service: string, state: string, health: Option<string>) {
    exists i :: 0 <= i < |log| && Sees(log[i], service, state, health)
  }

  predicate PostgresSeen(log: seq<Happening>) {
    Seen(log, POSTGRES, "running", Some("healthy"))
  }

  // The steps that need the database.
  const DEPENDENT := {"bootstrap-litellm-schema", "start-litellm", "start-runtime-sidecars"}

  // Postgres was started, and then looked at without being seen healthy.
  predicate WaitedInVain(log: seq<Happening>) {
    exists s :: 0 <= s < |log| - 1 && log[s] == Ran("start-postgres", Some(0))
                && forall j :: s < j < |log| ==> log[j].Looked? && !Sees(log[j], POSTGRES, "running", Some("healthy"))
  }

  // The last thing done was a status reading that shows LiteLLM healthy, or does not.
  predicate LooksAtLiteLLM(log: seq<Happening>, healthy: bool) {
    && log != [] && Last(log).Looked? && Last(log).statuses.Some?
    && Matches(Last(log).statuses.value, LITELLM, "running", Some("healthy")) == healthy
  }

  // What has to be in the log before a step is taken.
  predicate Prepared(log: seq<Happening>, step: string) {
    && (step in DEPENDENT ==> PostgresSeen(log))
    && (step == "recreate-postgres" ==> WaitedInVain(log))
    && (step == "bootstrap-litellm-schema" ==> LooksAtLiteLLM(log, false))
    && (step == "start-litellm" ==> log != [] && Last(log) == Ran("bootstrap-litellm-schema", Some(0)))
    && (step == "start-runtime-sidecars" ==>
          LooksAtLiteLLM(log, true) || (log != [] && Last(log) == Ran("start-litellm", Some(0))))
  }

  // No step without its reason: dependent ones only after Postgres was seen running and healthy, Postgres recreated
  // only after looking in vain, and LiteLLM's steps only behind a reading that does not show it healthy.
  predicate Guarded(log: seq<Happening>) {
    log == [] || (Guarded(Front(log)) && (Last(log).Ran? ==> Prepared(Front(log), Last(log).step)))
  }

  lemma {:induction false} GuardedAt(log: seq<Happening>, i: nat)
    requires Guarded(log) && i < |log| && log[i].Ran?
    ensures Prepared(log[..i], log[i].step)
  {
    if i == |log| - 1 {
      assert Front(log) == log[..i];
    } else {
      GuardedAt(Front(log), i);
      assert Front(log)[..i] == log[..i];
    }
  }

  // The recorded steps: the commands that ended.
  function StepsOf(log: seq<Happening>): seq<(string, int)> {
    if log == [] then []
    else StepsOf(Front(log)) + if Last(log).Ran? && Last(log).exit.Some? then [(Last(log).step, Last(log).exit.value)]
      else []
  }

  // From `before` on there are only status readings.
  predicate OnlyLooks(before: seq<Happening>, after: seq<Happening>) {
    |before| <= |after| && after[..|before|] == before && forall i :: |before| <= i < |after| ==> after[i].Looked?
  }

  lemma {:induction false} LooksKeep(before: seq<Happening>, after: seq<Happening>)
    requires OnlyLooks(before, after)
    ensures StepsOf(after) == StepsOf(before)
    ensures Guarded(before) ==> Guarded(after)
    ensures PostgresSeen(before) ==> PostgresSeen(after)
    decreases |after|
  {
    if |after| > |before| {
      LooksKeep(before, Front(after));
    } else {
      assert after == before;
    }
  }

  lemma RanKeeps(log: seq<Happening>, step: string, exit: Option<int>)
    requires Guarded(log) && Prepared(log, step)
    ensures var after := log + [Ran(step, exit)];
            && Guarded(after)
            && StepsOf(after) == StepsOf(log) + (if exit.Some? then [(step, exit.value)] else [])
            && (PostgresSeen(log) ==> PostgresSeen(after))
  {
    var after := log + [Ran(step, exit)];
    assert Front(after) == log;
    assert forall i :: 0 <= i < |log| ==> after[i] == log[i];
  }

  // --- Steps and reports ---

  // Which step may come after which.
  predicate Next(step: string, following: string) {
    || (step == "start-postgres"
        && following in {"recreate-postgres", "bootstrap-litellm-schema", "start-runtime-sidecars"})
    || (step == "recreate-postgres" && following in {"bootstrap-litellm-schema", "start-runtime-sidecars"})
    || (step == "bootstrap-litellm-schema" && following == "start-litellm")
    || (step == "start-litellm" && following == "start-runtime-sidecars")
  }

  predicate MayFollow(steps: seq<(string, int)>, step: string) {
    if steps == [] then step == "start-postgres" else Next(Last(steps).0, step)
  }

  predicate AllZero(steps: seq<(string, int)>) {
    forall i :: 0 <= i < |steps| ==> steps[i].1 == 0
  }

  // Each step may follow the ones before it, and a step that failed is the last one.
  predicate OnCourse(steps: seq<(string, int)>) {
    forall i :: 0 <= i < |steps| ==> MayFollow(steps[..i], steps[i].0) && (i < |steps| - 1 ==> steps[i].1 == 0)
  }

  lemma CourseAppend(steps: seq<(string, int)>, step: string, code: int)
    requires OnCourse(steps) && AllZero(steps) && MayFollow(steps, step)
    ensures OnCourse(steps + [(step, code)]) && (AllZero(steps + [(step, code)]) <==> code == 0)
  {
    var after := steps + [(step, code)];
    assert forall i :: 0 <= i < |steps| ==> after[..i] == steps[..i];
    assert after[..|steps|] == steps;
    if AllZero(after) {
      assert after[|steps|].1 == 0;
    }
  }

  // The last step of a complete bring-up.
  predicate Complete(steps: seq<(string, int)>) {
    steps != [] && AllZero(steps) && Last(steps).0 == "start-runtime-sidecars"
  }

  datatype Entry = Entry(target: Target, ready: bool, observed: Option<Status>)

  datatype Report = Report(ok: bool, requiredReady: bool, required: seq<Entry>, optional: seq<Entry>,
                           exitCode: int, failedStep: Option<string>, steps: seq<(string, int)>,
                           failedService: Option<string>)

  function EntryOf(statuses: Statuses, target: Target): Entry {
    Entry(target, Ready(statuses, target), if target.service in statuses then Some(statuses[target.service]) else None)
  }

  // The entries of the required targets, or of the others, in order.
  function Entries(statuses: Statuses, targets: seq<Target>, required: bool): seq<Entry> {
    if targets == [] then []
    else Entries(statuses, Front(targets), required)
         + if Last(targets).required == required then [EntryOf(statuses, Last(targets))] else []
  }

  lemma {:induction false} EntriesReady(statuses: Statuses, targets: seq<Target>)
    ensures (forall i :: 0 <= i < |Entries(statuses, targets, true)| ==> Entries(statuses, targets, true)[i].ready)
            <==> RequiredReady(statuses, targets)
  {
    if targets != [] {
      EntriesReady(statuses, Front(targets));
      assert targets == Front(targets) + [Last(targets)];
      var front, entries := Entries(statuses, Front(targets), true), Entries(statuses, targets, true);
      assert forall i :: 0 <= i < |front| ==> entries[i] == front[i];
      assert |entries| > |front| ==> entries[|front|] == EntryOf(statuses, Last(targets));
    }
  }

  // An entry is about one of the targets; it shows the status that was read, if any, and is ready exactly when that has
  // the state and the health that the target asks for.
  predicate EntryFits(entry: Entry, statuses: Statuses, targets: seq<Target>) {
    var target := entry.target;
    && target in targets
    && (if target.service in statuses then entry.observed == Some(statuses[target.service]) else entry.observed.None?)
    && (entry.ready <==> && entry.observed.Some? && entry.observed.value.state == target.state
                         && (target.health.Some? ==> entry.observed.value.health == target.health))
  }

  lemma {:induction false} EntriesFit(statuses: Statuses, targets: seq<Target>, required: bool)
    ensures forall entry :: entry in Entries(statuses, targets, required) ==>
              EntryFits(entry, statuses, targets) && entry.target.required == required
  {
    if targets != [] {
      EntriesFit(statuses, Front(targets), required);
      assert forall target :: target in Front(targets) ==> target in targets;
    }
  }

  predicate RequiredReady(statuses: Statuses, targets: seq<Target>) {
    forall target :: target in targets && target.required ==> Ready(statuses, target)
  }

  // The steps taken are the first ones of a course.
  predicate Took(before: seq<(string, int)>, after: seq<(string, int)>, course: seq<string>) {
    && |before| <= |after| <= |before| + |course| && after[..|before|] == before
    && forall i :: |before| <= i < |after| ==> after[i].0 == course[i - |before|]
  }

  const LITELLM_STEPS := ["bootstrap-litellm-schema"] + ["start-litellm"]

  lemma TookSome(before: seq<(string, int)>, after: seq<(string, int)>, step: string, rest: seq<string>)
    requires Took(before, after, [step])
    ensures Took(before, after, [step] + rest)
  {
  }

  lemma TookMore(before: seq<(string, int)>, between: seq<(string, int)>, after: seq<(string, int)>,
                 first: seq<string>, second: seq<string>)
    requires Took(before, between, first) && |between| == |before| + |first| && Took(between, after, second)
    ensures Took(before, after, first + second)
  {
    assert after[..|before|] == after[..|between|][..|before|] == before;
    forall i | |before| <= i < |after| ensures after[i].0 == (first + second)[i - |before|] {
      if i < |between| {
        assert after[i] == after[..|between|][i] == between[i];
      }
    }
  }

  lemma VainWait(before: seq<Happening>, after: seq<Happening>)
    requires before != [] && Last(before) == Ran("start-postgres", Some(0))
    requires OnlyLooks(before, after) && |after| > |before|
    requires forall i :: |before| <= i < |after| ==> !Sees(after[i], POSTGRES, "running", Some("healthy"))
    ensures WaitedInVain(after)
  {
    assert after[|before| - 1] == after[..|before|][|before| - 1];
  }

  // The steps behind a healthy Postgres, as far as they were taken: LiteLLM's two unless it was read as healthy, and
  // the remaining sidecars.
  predicate TookServices(before: seq<(string, int)>, after: seq<(string, int)>, healthy: bool, done: bool) {
    var course := if healthy then ["start-runtime-sidecars"]
                  else ["bootstrap-litellm-schema", "start-litellm", "start-runtime-sidecars"];
    Took(before, after, course) && (done <==> |after| == |before| + |course| && AllZero(after))
  }

  lemma BehindLiteLLM(before: seq<(string, int)>, between: seq<(string, int)>, after: seq<(string, int)>, done: bool)
    requires Took(before, between, LITELLM_STEPS) && |between| <= |before| + 2
    requires |between| == |before| + 2 ==> Took(between, after, ["start-runtime-sidecars"])
    requires |between| < |before| + 2 ==> after == between
    requires done <==> |after| == |before| + 3 && AllZero(after)
    ensures TookServices(before, after, false, done)
  {
    var course := ["bootstrap-litellm-schema", "start-litellm", "start-runtime-sidecars"];
    assert LITELLM_STEPS + ["start-runtime-sidecars"] == course;
    if |between| == |before| + 2 {
      TookMore(before, between, after, LITELLM_STEPS, ["start-runtime-sidecars"]);
    }
  }

  // How a part of the bring-up ends: go on, stop with a report, or raise.
  datatype End = Go | Stop(code: int, failed: Option<string>) | Raise

  datatype Outcome = Reported(report: Report) | Raised

  // A command that raised, or a status reading that did.
  predicate BrokenOff(log: seq<Happening>) {
    log != [] && match Last(log) case Ran(_, exit) => exit.None? case Looked(statuses) => statuses.None?
  }

  method ReadinessEntries(statuses: Statuses, targets: seq<Target>)
    returns (required: seq<Entry>, optional: seq<Entry>, ready: bool)
    ensures required == Entries(statuses, targets, true) && optional == Entries(statuses, targets, false)
    ensures ready == RequiredReady(statuses, targets)
    ensures ready <==> forall i :: 0 <= i < |required| ==> required[i].ready
  {
    required, optional, ready := [], [], true;
    for n := 0 to |targets|
      invariant required == Entries(statuses, targets[..n], true) && optional == Entries(statuses, targets[..n], false)
      invariant ready == RequiredReady(statuses, targets[..n])
    {
      assert Front(targets[..n + 1]) == targets[..n] && Last(targets[..n + 1]) == targets[n];
      assert targets[..n + 1] == targets[..n] + [targets[n]];
      var entry := EntryOf(statuses, targets[n]);
      if targets[n].required {
        required, ready := required + [entry], ready && entry.ready;
      } else {
        optional := optional + [entry];
      }
    }
    assert targets[..|targets|] == targets;
    EntriesReady(statuses, targets);
  }

  lemma OnlyLastFails(steps: seq<(string, int)>, n: nat)
    requires OnCourse(steps) && n < |steps| && steps[n].1 != 0
    ensures n == |steps| - 1 && !AllZero(steps)
  {
  }

  // The first step that failed.
  method FailedStep(steps: seq<(string, int)>) returns (failed: Option<string>)
    ensures failed.None? ==> AllZero(steps)
    ensures failed.Some? ==>
        exists n :: 0 <= n < |steps| && failed == Some(steps[n].0) && steps[n].1 != 0 && AllZero(steps[..n])
    ensures OnCourse(steps) && steps != [] ==> failed == if AllZero(steps) then None else Some(Last(steps).0)
  {
    for n := 0 to |steps|
      invariant AllZero(steps[..n])
    {
      if steps[n].1 != 0 {
        if OnCourse(steps) {
          OnlyLastFails(steps, n);
        }
        return Some(steps[n].0);
      }
    }
    assert steps[..|steps|] == steps;
    return None;
  }

  // The target was seen ready in a reading since a point of the log.
  predicate SeenSince(start: nat, log: seq<Happening>, target: Target) {
    exists i :: start <= i < |log| && Sees(log[i], target.service, target.state, target.health)
  }

  // The target was seen ready in a reading with no command after it.
  predicate SeenAfterSteps(log: seq<Happening>, target: Target) {
    exists i :: 0 <= i < |log| && Sees(log[i], target.service, target.state, target.health)
                && forall j :: i < j < |log| ==> log[j].Looked?
  }

  lemma SinceIsAfterSteps(before: seq<Happening>, after: seq<Happening>, target: Target)
    requires OnlyLooks(before, after) && SeenSince(|before|, after, target)
    ensures SeenAfterSteps(after, target)
  {
  }

  // One more reading keeps that.
  lemma StillSeen(log: seq<Happening>, reading: Happening, target: Target)
    requires SeenAfterSteps(log, target) && reading.Looked?
    ensures SeenAfterSteps(log + [reading], target)
  {
    var i :| 0 <= i < |log| && Sees(log[i], target.service, target.state, target.health)
             && forall j :: i < j < |log| ==> log[j].Looked?;
    assert (log + [reading])[i] == log[i];
  }

  lemma SeenLater(start: nat, before: seq<Happening>, after: seq<Happening>, targets: seq<Target>)
    requires |before| <= |after| && forall i :: 0 <= i < |before| ==> after[i] == before[i]
    ensures forall i :: 0 <= i < |targets| && SeenSince(start, before, targets[i]) ==>
        SeenSince(start, after, targets[i])
  {
    forall i | 0 <= i < |targets| && SeenSince(start, before, targets[i]) ensures SeenSince(start, after, targets[i]) {
      var k :| start <= k < |before| && Sees(before[k], targets[i].service, targets[i].state, targets[i].health);
      assert after[k] == before[k];
    }
  }

  // A stop without a failed service is the code of the last step; one with a failed service has code 1, no failed step,
  // and comes only when wait failures are suppressed.
  predicate EndFits(end: End, steps: seq<(string, int)>, suppress: bool) {
    && (end.Stop? && end.failed.None? ==> steps != [] && Last(steps).1 == end.code != 0)
    && (end.Stop? && end.failed.Some? ==> suppress && end.code == 1 && AllZero(steps))
  }

  // A status reading that failed shows nothing.
  function Shown(reading: Happening): Statuses
    requires reading.Looked?
  {
    if reading.statuses.Some? then reading.statuses.value else map[]
  }

  // What the report says of the reading it was made from and of the steps.
  predicate ReportFits(report: Report, targets: seq<Target>, code: int, failed: Option<string>, reading: Happening,
                       steps: seq<(string, int)>)
    requires reading.Looked? && steps != []
  {
    var statuses := Shown(reading);
    && report.requiredReady == RequiredReady(statuses, targets)
    && report.required == Entries(statuses, targets, true) && report.optional == Entries(statuses, targets, false)
    && report.ok == (code == 0 && report.requiredReady)
    && report.exitCode == code && report.steps == steps && report.failedService == failed
    && report.failedStep == if AllZero(steps) then None else Some(Last(steps).0)
  }

  // --- The environment ---

  class Environment {
    const world: World
    var now: int
    var runs: nat
    var looks: nat
    var ticks: nat
    var steps: seq<(string, int)>
    ghost var log: seq<Happening>

    ghost predicate Valid()
      reads this
    {
      steps == StepsOf(log) && Guarded(log)
    }

    constructor (world: World, start: int)
      ensures this.world == world && now == start && log == [] && Valid()
    {
      this.world := world;
      now, runs, looks, ticks := start, 0, 0, 0;
      steps, log := [], [];
    }

    // A command, recorded as a step when it ends.
    method Run(step: string) returns (exit: Option<int>)
      requires Valid() && Prepared(log, step)
      modifies this
      ensures Valid() && log == old(log) + [Ran(step, exit)] && (old(PostgresSeen(log)) ==> PostgresSeen(log))
      ensures now >= old(now)
      ensures steps == old(steps) + (if exit.Some? then [(step, exit.value)] else [])
    {
      exit := world.exit(runs);
      RanKeeps(log, step, exit);
      now, runs, ticks := now + world.delay(ticks), runs + 1, ticks + 1;
      log := log + [Ran(step, exit)];
      if exit.Some? {
        steps := steps + [(step, exit.value)];
      }
    }

    method Look() returns (statuses: Option<Statuses>)
      requires Valid()
      modifies this`now, this`looks, this`ticks, this`log
      ensures Valid() && log == old(log) + [Looked(statuses)] && now >= old(now) && statuses == world.status(old(looks))
      ensures old(PostgresSeen(log)) ==> PostgresSeen(log)
    {
      statuses := world.status(looks);
      now, looks, ticks := now + world.delay(ticks), looks + 1, ticks + 1;
      log := log + [Looked(statuses)];
      LooksKeep(old(log), log);
    }

    method Sleep()
      modifies this`now, this`ticks
      ensures now == old(now) + 2000 + world.delay(old(ticks))
    {
      now, ticks := now + POLL_MS + world.delay(ticks), ticks + 1;
    }

    // Polls until a reading matches or the deadline has passed. It ends because every sleep advances the clock, after
    // at most one reading per poll interval and two more.
    method WaitForService(service: string, state: string, health: Option<string>, timeout: int) returns (ok: bool)
      requires Valid()
      modifies this`now, this`looks, this`ticks, this`log
      ensures Valid() && OnlyLooks(old(log), log) && |log| > |old(log)|
      ensures (old(PostgresSeen(log)) ==> PostgresSeen(log))
      ensures ok <==> Sees(Last(log), service, state, health)
      ensures forall i :: |old(log)| <= i < |log| - 1 ==> !Sees(log[i], service, state, health)
      ensures now >= old(now) && (!ok ==> now >= old(now) + 1000 * timeout)
      ensures |log| > |old(log)| + 1 ==> 2000 * (|log| - |old(log)| - 2) < 1000 * timeout
    {
      var deadline := now + 1000 * timeout;
      ghost var before, polls := log, 0;
      while true
        invariant Valid() && OnlyLooks(before, log) && |log| == |before| + polls
        invariant PostgresSeen(before) ==> PostgresSeen(log)
        invariant forall i :: |before| <= i < |log| ==> !Sees(log[i], service, state, health)
        invariant now >= deadline - 1000 * timeout + POLL_MS * polls
        invariant polls > 0 ==> POLL_MS * (polls - 1) < 1000 * timeout
        decreases deadline - now
      {
        ok := Poll(service, state, health);
        if ok || now >= deadline {
          return;
        }
        Sleep();
        polls := polls + 1;
      }
    }

    // One reading, and whether it matches.
    method Poll(service: string, state: string, health: Option<string>) returns (ok: bool)
      requires Valid()
      modifies this`now, this`looks, this`ticks, this`log
      ensures Valid() && |log| == |old(log)| + 1 && log[..|old(log)|] == old(log) && Last(log).Looked?
      ensures now >= old(now)
      ensures old(PostgresSeen(log)) ==> PostgresSeen(log)
      ensures ok <==> Sees(Last(log), service, state, health)
    {
      var statuses := Look();
      ok := statuses.Some? && Matches(statuses.value, service, state, health);
    }

    // One more step of the course; a failure ends it.
    method TakeStep(step: string) returns (end: End)
      requires Valid() && Prepared(log, step)
      requires OnCourse(steps) && AllZero(steps) && MayFollow(steps, step)
      modifies this
      ensures Valid() && (old(PostgresSeen(log)) ==> PostgresSeen(log)) && OnCourse(steps) && EndFits(end, steps, false)
      ensures end.Go? ==> AllZero(steps) && log == old(log) + [Ran(step, Some(0))]
      ensures if end.Raise? then BrokenOff(log) && steps == old(steps)
              else |steps| == |old(steps)| + 1 && Took(old(steps), steps, [step]) && Last(steps).0 == step
      ensures now >= old(now)
    {
      ghost var before := steps;
      var exit := Run(step);
      if exit.None? {
        assert steps == before;
        return Raise;
      }
      CourseAppend(before, step, exit.value);
      assert steps == before + [(step, exit.value)];
      return if exit.value == 0 then Go else Stop(exit.value, None);
    }

    // Recreate Postgres and wait once more.
    method RecreatePostgres(suppress: bool) returns (end: End)
      requires Valid() && WaitedInVain(log)
      requires OnCourse(steps) && AllZero(steps) && MayFollow(steps, "recreate-postgres")
      modifies this
      ensures Valid() && OnCourse(steps) && EndFits(end, steps, suppress)
      ensures end.Go? ==> PostgresSeen(log) && AllZero(steps)
      ensures !end.Raise? ==> steps != [] && Last(steps).0 == "recreate-postgres"
      ensures end.Raise? && suppress ==> BrokenOff(log)
      ensures now >= old(now)
      ensures (end.Stop? && end.failed.Some?) || (end.Raise? && !BrokenOff(log)) ==> now >= old(now) + 1000 * 180
      ensures end.Stop? && end.failed.Some? ==> end.failed == Some("postgres")
    {
      end := TakeStep("recreate-postgres");
      if end.Go? {
        var healthy := WaitForService(POSTGRES, "running", Some("healthy"), 180);
        if !healthy {
          end := if suppress then Stop(1, Some(POSTGRES)) else Raise;
        }
      }
    }

    // Bring Postgres up; when the wait for it fails, recreate it and wait once more.
    method BringUpPostgres(suppress: bool) returns (end: End)
      requires Valid() && steps == []
      modifies this
      ensures Valid() && OnCourse(steps) && EndFits(end, steps, suppress)
      ensures end.Go? ==> PostgresSeen(log) && AllZero(steps)
      ensures !end.Raise? ==> steps != [] && Last(steps).0 in {"start-postgres", "recreate-postgres"}
      ensures end.Raise? && suppress ==> BrokenOff(log)
      ensures steps != [] && Last(steps).0 == "recreate-postgres" ==> now >= old(now) + 1000 * 180
      ensures (end.Stop? && end.failed.Some?) || (end.Raise? && !BrokenOff(log)) ==> now >= old(now) + 2 * 1000 * 180
      ensures end.Stop? && end.failed.Some? ==> end.failed == Some("postgres")
    {
      end := TakeStep("start-postgres");
      if !end.Go? {
        return;
      }
      ghost var started := log;
      var healthy := WaitForService(POSTGRES, "running", Some("healthy"), 180);
      if !healthy {
        VainWait(started, log);
        end := RecreatePostgres(suppress);
      }
    }

    // LiteLLM's schema, and LiteLLM itself.
    method StartLiteLLM() returns (end: End)
      requires Valid() && PostgresSeen(log) && LooksAtLiteLLM(log, false)
      requires OnCourse(steps) && AllZero(steps) && MayFollow(steps, "bootstrap-litellm-schema")
      modifies this
      ensures Valid() && OnCourse(steps) && EndFits(end, steps, false) && PostgresSeen(log)
      ensures end.Go? ==> AllZero(steps) && log != [] && Last(log) == Ran("start-litellm", Some(0))
      ensures end.Raise? ==> BrokenOff(log)
      ensures Took(old(steps), steps, LITELLM_STEPS)
      ensures end.Go? <==> |steps| == |old(steps)| + 2 && AllZero(steps)
      ensures end.Stop? ==> steps != [] && !AllZero(steps)
    {
      end := TakeStep("bootstrap-litellm-schema");
      TookSome(old(steps), steps, "bootstrap-litellm-schema", ["start-litellm"]);
      if end.Go? {
        ghost var between := steps;
        end := TakeStep("start-litellm");
        TookMore(old(steps), between, steps, ["bootstrap-litellm-schema"], ["start-litellm"]);
      }
    }

    // The remaining sidecars.
    method StartRuntime() returns (end: End)
      requires Valid() && PostgresSeen(log) && Prepared(log, "start-runtime-sidecars")
      requires OnCourse(steps) && AllZero(steps) && MayFollow(steps, "start-runtime-sidecars")
      modifies this
      ensures Valid() && OnCourse(steps) && EndFits(end, steps, false) && PostgresSeen(log)
      ensures end.Go? ==> Complete(steps)
      ensures end.Raise? ==> BrokenOff(log)
      ensures end.Stop? ==> steps != []
      ensures Took(old(steps), steps, ["start-runtime-sidecars"])
      ensures end.Go? <==> |steps| == |old(steps)| + 1 && AllZero(steps)
    {
      end := TakeStep("start-runtime-sidecars");
    }

    // Both unless LiteLLM is already healthy, then the remaining sidecars. The status reading that decides this is not
    // guarded against failure.
    method StartServices() returns (end: End)
      requires Valid() && PostgresSeen(log) && OnCourse(steps) && AllZero(steps)
      requires steps != [] && Last(steps).0 in {"start-postgres", "recreate-postgres"}
      modifies this
      ensures Valid() && OnCourse(steps) && EndFits(end, steps, false) && PostgresSeen(log)
      ensures end.Go? ==> Complete(steps)
      ensures end.Raise? ==> BrokenOff(log)
      ensures world.status(old(looks)).None? ==> end.Raise?
      ensures end.Stop? ==> steps != []
      ensures world.status(old(looks)).Some? ==>
                TookServices(old(steps), steps, Healthy(world.status(old(looks)).value, "litellm"), end.Go?)
    {
      var statuses := Look();
      if statuses.None? {
        return Raise;
      }
      if Matches(statuses.value, LITELLM, "running", Some("healthy")) {
        end := StartRuntime();
        return;
      }
      end := StartLiteLLM();
      ghost var between := steps;
      if end.Go? {
        end := StartRuntime();
      }
      BehindLiteLLM(old(steps), between, steps, end.Go?);
    }

    // Waits for the required targets in order.
    method AwaitTargets(targets: seq<Target>, suppress: bool) returns (end: End)
      requires Valid() && AllZero(steps)
      modifies this`now, this`looks, this`ticks, this`log
      ensures Valid() && OnlyLooks(old(log), log)
      ensures EndFits(end, steps, suppress) && (end.Stop? ==> end.failed.Some?) && (end.Raise? ==> !suppress)
      ensures end.Go? ==> forall target :: target in targets && target.required ==> SeenSince(|old(log)|, log, target)
      ensures end.Stop? ==> exists target :: target in targets && target.required && end.failed == Some(target.service)
                                             && now >= old(now) + 1000 * target.timeout
      ensures end.Raise? ==>
                exists target :: target in targets && target.required && now >= old(now) + 1000 * target.timeout
      ensures now >= old(now)
    {
      for n := 0 to |targets|
        invariant Valid() && OnlyLooks(old(log), log) && now >= old(now)
        invariant forall i :: 0 <= i < n && targets[i].required ==> SeenSince(|old(log)|, log, targets[i])
      {
        if !targets[n].required {
          continue;
        }
        ghost var before := log;
        var ok := WaitForService(targets[n].service, targets[n].state, targets[n].health, targets[n].timeout);
        assert forall i :: 0 <= i < |before| ==> log[i] == log[..|before|][i] == before[i];
        if !ok {
          return if suppress then Stop(1, Some(targets[n].service)) else Raise;
        }
        assert Sees(log[|log| - 1], targets[n].service, targets[n].state, targets[n].health);
        SeenLater(|old(log)|, before, log, targets[..n]);
      }
      return Go;
    }

    // All three parts.
    method BringUp(targets: seq<Target>, suppress: bool) returns (end: End)
      requires Valid() && steps == [] && log == []
      modifies this
      ensures Valid() && OnCourse(steps) && EndFits(end, steps, suppress)
      ensures !end.Raise? ==> steps != []
      ensures end.Go? ==> Complete(steps) && forall target :: target in targets && target.required ==>
          SeenAfterSteps(log, target)
      ensures end.Stop? && end.failed.Some? && Complete(steps) ==>
          exists target :: target in targets && target.required && end.failed == Some(target.service)
      ensures end.Raise? && suppress ==> BrokenOff(log)
    {
      end := BringUpPostgres(suppress);
      if end.Go? {
        end := StartServices();
        if end.Go? {
          ghost var started := log;
          end := AwaitTargets(targets, suppress);
          if end.Go? {
            forall target | target in targets && target.required ensures SeenAfterSteps(log, target) {
              SinceIsAfterSteps(started, log, target);
            }
          }
        }
      }
    }

    // The report of a bring-up: one more status reading, which may fail and then shows nothing.
    method MakeReport(targets: seq<Target>, code: int, failed: Option<string>) returns (report: Report)
      requires Valid() && steps != [] && OnCourse(steps)
      modifies this`now, this`looks, this`ticks, this`log
      ensures Valid() && log != [] && Last(log).Looked? && log == old(log) + [Last(log)]
      ensures ReportFits(report, targets, code, failed, Last(log), steps)
    {
      var reading := Look();
      var statuses: Statuses := if reading.Some? then reading.value else map[];
      var required, optional, ready := ReadinessEntries(statuses, targets);
      var failedStep := FailedStep(steps);
      report := Report(code == 0 && ready, ready, required, optional, code, failedStep, steps, failed);
    }
  }

  // --- Main result ---

  predicate ShownReady(log: seq<Happening>, targets: seq<Target>) {
    log != [] && Last(log).Looked? && RequiredReady(Shown(Last(log)), targets)
  }

  // For every sequence of exit codes, status readings and delays: no dependent step before Postgres was seen healthy;
  // the recorded steps go along the course and a failed one is the last; the exit code is zero exactly when the steps
  // are complete and no wait failed, and then every required target was seen ready after the last of them; and the
  // report is ok exactly when, besides, its own reading shows them all ready. With wait failures suppressed it raises
  // only when a command or a status reading does.
  method SidecarsUp(world: World, start: int, targets: seq<Target>, suppress: bool)
    returns (outcome: Outcome, ghost log: seq<Happening>)
    ensures Guarded(log)
    ensures outcome.Reported? ==> outcome.report.steps == StepsOf(log) && OnCourse(outcome.report.steps)
    ensures outcome.Reported? ==> ReportSound(outcome.report, log, targets)
    ensures outcome.Reported? && outcome.report.failedService.Some? ==> suppress
    ensures outcome.Raised? && suppress ==> BrokenOff(log)
  {
    var env := new Environment(world, start);
    var end := env.BringUp(targets, suppress);
    log := env.log;
    if end.Raise? {
      return Raised, log;
    }
    var report := env.MakeReport(targets, if end.Go? then 0 else end.code, if end.Go? then None else end.failed);
    forall target | SeenAfterSteps(log, target) ensures SeenAfterSteps(env.log, target) {
      StillSeen(log, Last(env.log), target);
    }
    log := env.log;
    return Reported(report), log;
  }

  predicate ReportSound(report: Report, log: seq<Happening>, targets: seq<Target>) {
    && (report.exitCode == 0 <==> Complete(report.steps) && report.failedService.None?)
    && (report.ok <==> report.exitCode == 0 && ShownReady(log, targets))
    && (report.exitCode == 0 ==> forall target :: target in targets && target.required ==> SeenAfterSteps(log, target))
    && (report.failedStep.Some? <==> report.exitCode != 0 && report.failedService.None?)
    && (report.failedStep.Some? ==>
          report.steps != [] && Last(report.steps) == (report.failedStep.value, report.exitCode))
  }

  // With the profile's targets, all required ones are shown ready exactly when Postgres and LiteLLM are healthy, Qdrant
  // for either profile, and Neo4j for hypermemory.
  lemma RequiredTargets(usesQmd: bool, usesHypermemory: bool, hostedMacos: bool, statuses: Statuses)
    ensures RequiredReady(statuses, Targets(usesQmd, usesHypermemory, hostedMacos)) <==>
              && Healthy(statuses, POSTGRES) && Healthy(statuses, LITELLM)
              && (usesQmd || usesHypermemory ==> Healthy(statuses, "qdrant"))
              && (usesHypermemory ==> Healthy(statuses, "neo4j"))
  {
    var targets := Targets(usesQmd, usesHypermemory, hostedMacos);
    assert targets[0] in targets && targets[1] in targets && targets[2] in targets && targets[3] in targets;
  }

  // Every target is to run, all but the collector healthily, within three minutes unless hosted macOS slows it down.
  lemma TargetsByService(usesQmd: bool, usesHypermemory: bool, hostedMacos: bool, target: Target)
    requires target in Targets(usesQmd, usesHypermemory, hostedMacos)
    ensures target.service in {"postgres", "litellm", "qdrant", "neo4j", "otel-collector"} && target.state == "running"
    ensures if target.service == "otel-collector"
            then !target.required && target.health.None? && target.timeout == 60 && target.impact == "observational"
            else target.health == Some("healthy")
    ensures target.service in {"postgres", "litellm"} <==> target.impact == "fatal"
    ensures target.service in {"qdrant", "neo4j"} <==> target.impact == "degraded"
    ensures target.timeout == (if target.service == "otel-collector" then 60
                               else if hostedMacos && target.service == "litellm" then 300
                               else if hostedMacos && target.service == "neo4j" then 600 else 180)
  {
  }

  predicate Healthy(statuses: Statuses, service: string) {
    service in statuses && statuses[service] == Status("running", Some("healthy"))
  }
}
