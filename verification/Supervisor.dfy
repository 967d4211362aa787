/** The supervisor of the runtime worker: it spawns a worker, marks the recorded
    phase, opens the browser once, and restarts with growing delays. Each event
    is one callback of the event loop. */
module Supervisor {
  import opened Wrappers

  /** Codes a startup failure may carry; Unlisted is any of the other launch
      failure codes. A message whose code is not a launch failure code carries
      none. */
  datatype Code =
    | DatabaseUnavailable | BackendStartFailed | ReadinessTimeout
    | EnvConfigurationInvalid | DatabaseSchemaInvalid | PortUnavailable | SpaBuildFailed | SpaAssetsUnavailable
    | Unlisted(name: string)

  predicate Retryable(c: Code) { c.DatabaseUnavailable? || c.BackendStartFailed? || c.ReadinessTimeout? }

  predicate Terminal(c: Code) {
    c.EnvConfigurationInvalid? || c.DatabaseSchemaInvalid? || c.PortUnavailable? || c.SpaBuildFailed? || c.SpaAssetsUnavailable?
  }

  datatype Failure = Failure(code: Option<Code>)

  datatype Phase = Starting | Ready

  /** What `waitForWorker` tracks. `marking` is a pending markReady, `ending` the
      pending markStarting after the exit of a ready worker, `broken` a lifecycle
      error, `told` that the worker was sent its shutdown. */
  datatype Worker = Worker(seen: bool, marking: bool, ready: bool, failure: Option<Failure>, exited: bool,
                           ending: bool, broken: bool, told: bool)

  datatype Reason = Aborted | Threw | Failed(code: Code)

  datatype Mode = MarkingStart | Running(worker: Worker) | Delaying(milliseconds: nat) | Stopped(reason: Reason)

  /** `opens` and `spawns` count what was done; `ends` lists, for each worker that
      was followed by a delay, whether it had been ready, and `delays` the delays. */
  datatype State = State(mode: Mode, phase: Phase, aborted: bool, browserOpened: bool, restartNumber: nat,
                         opens: nat, spawns: nat, ends: seq<bool>, delays: seq<nat>)

  datatype Event =
    | Abort
    | MarkedStarting(ok: bool)
    | ReadyMessage
    | FailureMessage(failure: Failure)
    | MarkedReady(ok: bool, browserOk: bool)
    | Exit
    | DelayDone

  const MAX_DELAY := 30000

  function Pow2(n: nat): nat { if n == 0 then 1 else 2 * Pow2(n - 1) }

  function Min(a: nat, b: nat): nat { if a <= b then a else b }

  function RestartDelay(restartNumber: nat): nat {
    Min(1000 * Pow2(Min(if restartNumber == 0 then 0 else restartNumber - 1, 5)), MAX_DELAY)
  }

  /** The top of the loop. */
  function Top(s: State): State { s.(mode := if s.aborted then Stopped(Aborted) else MarkingStart) }

  /** What the loop does with the result of `waitForWorker`. */
  function Ended(s: State, w: Worker): (after: State)
    ensures after.aborted == s.aborted && !after.mode.Running?
  {
    var counted := if w.ready then s.(browserOpened := true, restartNumber := 0) else s;
    if s.aborted then counted.(mode := Stopped(Aborted))
    else if w.failure.Some? && w.failure.value.code.Some? && Terminal(w.failure.value.code.value)
    then counted.(mode := Stopped(Failed(w.failure.value.code.value)))
    else if w.failure.Some? && w.failure.value.code.Some? && !Retryable(w.failure.value.code.value)
    then counted.(mode := Stopped(Failed(w.failure.value.code.value)))
    else
      var n := counted.restartNumber + 1;
      counted.(mode := Delaying(RestartDelay(n)), restartNumber := n, ends := counted.ends + [w.ready],
             delays := counted.delays + [RestartDelay(n)])
  }

  /** `finishAfterExit`, once the exit is seen and nothing is pending. */
  function Finish(s: State, w: Worker): State {
    if w.broken then s.(mode := Stopped(Threw))
    else if w.marking then s.(mode := Running(w))
    else if w.ready then s.(mode := Running(w.(ending := true)))
    else Ended(s, w)
  }

  predicate Enabled(s: State, e: Event) {
    match e
    case Abort => !s.mode.Stopped? && !s.aborted
    case MarkedStarting(_) => s.mode.MarkingStart? || (s.mode.Running? && s.mode.worker.ending)
    case ReadyMessage => s.mode.Running?
    case FailureMessage(_) => s.mode.Running?
    case MarkedReady(_, _) => s.mode.Running? && s.mode.worker.marking
    case Exit => s.mode.Running? && !s.mode.worker.exited
    case DelayDone => s.mode.Delaying?
  }

  function Apply(s: State, e: Event): State
    requires Enabled(s, e)
  {
    match e
    case Abort =>
      s.(aborted := true, mode := if s.mode.Running? then Running(s.mode.worker.(told := true)) else s.mode)
    case MarkedStarting(ok) =>
      if !ok then s.(mode := Stopped(Threw))
      else if s.mode.MarkingStart?
      then s.(phase := Starting, spawns := s.spawns + 1,
              mode := Running(Worker(false, false, false, None, false, false, false, s.aborted)))
      else Ended(s.(phase := Starting), s.mode.worker)
    case ReadyMessage =>
      if s.mode.worker.seen then s else s.(mode := Running(s.mode.worker.(seen := true, marking := true)))
    case FailureMessage(failure) => s.(mode := Running(s.mode.worker.(failure := Some(failure))))
    case MarkedReady(ok, browserOk) =>
      var marked := s.mode.worker.(marking := false);
      var after := if !ok then s else s.(phase := Ready, opens := s.opens + if s.browserOpened then 0 else 1);
      var w := if !ok then marked.(broken := true)
               else if !s.browserOpened && !browserOk then marked.(ready := true, broken := true)
               else marked.(ready := true);
      if w.exited then Finish(after, w) else after.(mode := Running(w))
    case Exit => Finish(s, s.mode.worker.(exited := true))
    case DelayDone => Top(s)
  }

  const START := State(MarkingStart, Starting, false, false, 0, 0, 0, [], [])

  /** A run of the supervisor; it may be told to abort before it begins. */
  ghost predicate Run(states: seq<State>, events: seq<Event>) { RunFrom(START, states, events) }

  ghost predicate RunFrom(s: State, states: seq<State>, events: seq<Event>) {
    |states| == |events| + 1 && states[0] == s && forall i: nat :: i < |events| ==> Steps(states[i], events[i], states[i + 1])
  }

  ghost predicate Steps(before: State, e: Event, after: State) { Enabled(before, e) && after == Apply(before, e) }

  // ----- the invariant ----------------------------------------------------------------

  /** How many workers ended since the last ready one did, that one included. */
  function SinceReady(ends: seq<bool>): nat {
    if ends == [] then 0 else if ends[|ends| - 1] then 1 else SinceReady(ends[..|ends| - 1]) + 1
  }

  /** A worker's flags go together: it is ready only after its ready message was
      marked, marks once, and is awaited after its exit only while something is
      pending. */
  predicate Coherent(w: Worker) {
    (w.ready ==> w.seen && !w.marking) && (w.marking ==> w.seen && !w.broken) && (w.broken ==> w.seen) &&
    (w.ending ==> w.ready && w.exited && !w.broken) && (w.exited ==> (w.marking || w.ending) && !w.broken)
  }

  predicate Opened(s: State) {
    var ready := s.mode.Running? && s.mode.worker.ready;
    s.opens <= 1 && (s.opens == 1 ==> s.browserOpened || ready || s.mode == Stopped(Threw)) &&
    (s.browserOpened ==> s.opens == 1) && (ready ==> s.opens == 1)
  }

  /** The recorded phase is `starting` whenever no ready worker is held. */
  predicate Phased(s: State) {
    match s.mode
    case Running(w) => s.phase == Ready <==> w.ready
    case Stopped(Threw) => true
    case _ => s.phase == Starting
  }

  ghost predicate Delayed(s: State) {
    |s.delays| == |s.ends| &&
    (forall k :: 0 <= k < |s.ends| ==> s.delays[k] == RestartDelay(SinceReady(s.ends[..k + 1]))) &&
    (s.mode.MarkingStart? || s.mode.Running? || s.mode.Delaying? ==> s.restartNumber == SinceReady(s.ends))
  }

  ghost predicate Inv(s: State) {
    (s.mode.Running? ==> Coherent(s.mode.worker)) && Opened(s) && Phased(s) && Delayed(s)
  }

  lemma {:induction false} EndedKeeps(s: State, w: Worker)
    requires s.mode == Running(w) || (s.mode.Running? && !w.ready)
    requires Opened(s) && Delayed(s) && s.phase == Starting && s.opens <= 1
    requires w.ready ==> s.mode.worker.ready
    requires !w.ready ==> !s.mode.worker.ready
    ensures Inv(Ended(s, w))
  {
    var after := Ended(s, w);
    var n := |s.ends|;
    if after.mode.Delaying? {
      assert after.ends[..n] == s.ends && after.ends[..n + 1] == after.ends;
      forall k | 0 <= k < |after.ends| ensures after.delays[k] == RestartDelay(SinceReady(after.ends[..k + 1])) {
        if k < n {
          assert after.ends[..k + 1] == s.ends[..k + 1];
        }
      }
    }
  }

  lemma {:induction false} StepKeeps(s: State, e: Event)
    requires Inv(s) && Enabled(s, e)
    ensures Inv(Apply(s, e))
  {
    match e
    case Abort =>
    case MarkedStarting(ok) =>
      if ok && !s.mode.MarkingStart? {
        EndedKeeps(s.(phase := Starting), s.mode.worker);
      }
    case ReadyMessage =>
    case FailureMessage(_) =>
    case MarkedReady(_, _) =>
    case Exit =>
      var w := s.mode.worker.(exited := true);
      if !w.broken && !w.marking && !w.ready {
        EndedKeeps(s, w);
      }
    case DelayDone =>
  }

  lemma {:induction false} RunKeeps(states: seq<State>, events: seq<Event>, i: nat)
    requires Run(states, events) && i < |states|
    ensures Inv(states[i])
  {
    if i > 0 {
      RunKeeps(states, events, i - 1);
      assert Steps(states[i - 1], events[i - 1], states[i]);
      StepKeeps(states[i - 1], events[i - 1]);
    }
  }

  // ----- what every run satisfies -----------------------------------------------------------

  /** The browser is opened at most once in a run. */
  lemma {:induction false} BrowserOpensOnce(states: seq<State>, events: seq<Event>, i: nat)
    requires Run(states, events) && i < |states|
    ensures states[i].opens <= 1
  {
    RunKeeps(states, events, i);
  }

  /** Every normal end of a worker, whether a delay, an abort or a failure
      follows, leaves the recorded phase `starting`. */
  lemma {:induction false} EndsAtStarting(states: seq<State>, events: seq<Event>, i: nat)
    requires Run(states, events) && i < |states|
    requires states[i].mode.Delaying? || (states[i].mode.Stopped? && states[i].mode.reason != Threw)
    ensures states[i].phase == Starting
  {
    RunKeeps(states, events, i);
  }

  lemma {:induction false} PowGrows(a: nat, b: nat)
    requires a <= b
    ensures Pow2(a) <= Pow2(b)
  {
    if a < b {
      PowGrows(a, b - 1);
    }
  }

  /** The cap on the exponent never shows: the delay is 1000 times a power of two,
      cut at 30 seconds. */
  lemma {:induction false} DelayDoubles(j: nat)
    requires j > 0
    ensures RestartDelay(j) == Min(1000 * Pow2(j - 1), MAX_DELAY)
  {
    if j - 1 > 5 {
      PowGrows(5, j - 1);
      assert Pow2(5) == 2 * Pow2(4) == 32;
    }
  }

  lemma {:induction false} SinceReadyPositive(ends: seq<bool>)
    requires ends != []
    ensures SinceReady(ends) > 0
  {
  }

  /** The delay after a worker's end is min(1000 * 2^(j-1), 30000) milliseconds,
      where it is the j-th end since a ready worker's, or since the start. */
  lemma {:induction false} DelayAfterEnd(states: seq<State>, events: seq<Event>, i: nat, k: nat)
    requires Run(states, events) && i < |states| && k < |states[i].ends|
    ensures |states[i].delays| == |states[i].ends|
    ensures var j := SinceReady(states[i].ends[..k + 1]);
            j > 0 && states[i].delays[k] == Min(1000 * Pow2(j - 1), MAX_DELAY)
  {
    RunKeeps(states, events, i);
    SinceReadyPositive(states[i].ends[..k + 1]);
    DelayDoubles(SinceReady(states[i].ends[..k + 1]));
  }

  /** The failure the present worker reported last: a later message replaces an
      earlier one. */
  function Reported(events: seq<Event>): Option<Failure> {
    if events == [] then None
    else
      match events[|events| - 1]
      case FailureMessage(failure) => Some(failure)
      case MarkedStarting(_) => None
      case _ => Reported(events[..|events| - 1])
  }

  /** The callback rejects: a phase could not be marked, or the browser that this
      worker was to open could not be opened. */
  predicate Throws(s: State, e: Event) {
    match e
    case MarkedStarting(ok) => !ok
    case MarkedReady(ok, browserOk) => !ok || (!s.browserOpened && !browserOk)
    case _ => false
  }

  /** One of the first n callbacks rejected, counted from the present worker's
      spawn. */
  ghost predicate Rejected(states: seq<State>, events: seq<Event>, n: nat)
    requires n <= |events| < |states|
  {
    n > 0 && (Throws(states[n - 1], events[n - 1]) || (!events[n - 1].MarkedStarting? && Rejected(states, events, n - 1)))
  }

  /** No failure, one without a code, or one that may pass: the database was not
      there, the backend did not start, or it was not ready in time. */
  predicate Passing(failure: Option<Failure>) {
    failure.None? || failure.value.code.None? ||
    failure.value.code.value == DatabaseUnavailable || failure.value.code.value == BackendStartFailed ||
    failure.value.code.value == ReadinessTimeout
  }

  /** A worker's flags are what its events say: its failure is the last one it
      reported, and it is broken exactly if a callback rejected. */
  lemma {:induction false} WorkerRemembers(states: seq<State>, events: seq<Event>, i: nat)
    requires Run(states, events) && i < |states| && states[i].mode.Running?
    ensures states[i].mode.worker.failure == Reported(events[..i])
    ensures states[i].mode.worker.broken <==> Rejected(states, events, i)
  {
    if i > 0 {
      var before, e := states[i - 1], events[i - 1];
      assert Steps(before, e, states[i]);
      assert events[..i][..i - 1] == events[..i - 1];
      RunKeeps(states, events, i - 1);
      if before.mode.Running? {
        WorkerRemembers(states, events, i - 1);
      }
    }
  }

  /** The state in which a worker ends. */
  ghost predicate WorkerEnds(states: seq<State>, events: seq<Event>, i: nat)
    requires i < |events| < |states|
  {
    states[i].mode.Running? && !states[i + 1].mode.Running?
  }

  ghost predicate SpawnPossible(s: State) {
    exists states: seq<State>, events: seq<Event> :: RunFrom(s, states, events) && states[|events|].spawns > s.spawns
  }

  lemma {:induction false} DelayedCanSpawn(s: State)
    requires s.mode.Delaying? && !s.aborted
    ensures SpawnPossible(s)
  {
    var marking := Apply(s, DelayDone);
    var spawned := Apply(marking, MarkedStarting(true));
    var states, events := [s, marking, spawned], [DelayDone, MarkedStarting(true)];
    assert RunFrom(s, states, events) && states[|events|].spawns > s.spawns;
  }

  lemma {:induction false} StoppedCannotSpawn(s: State)
    requires s.mode.Stopped?
    ensures !SpawnPossible(s)
  {
    forall states: seq<State>, events: seq<Event> | RunFrom(s, states, events) ensures states[|events|].spawns <= s.spawns {
      assert events != [] ==> Steps(states[0], events[0], states[1]);
    }
  }

  /** When a worker ends, a later spawn is possible exactly if the run is not
      aborted, no callback rejected, and the last failure the worker reported, if
      any, has no code or a retryable one. Otherwise nothing is spawned again. */
  lemma {:induction false} ReplacedIff(states: seq<State>, events: seq<Event>, i: nat, k: nat)
    requires Run(states, events) && i < |events| && WorkerEnds(states, events, i) && i < k < |states|
    ensures SpawnPossible(states[i + 1]) <==>
              !states[i].aborted && !Rejected(states, events, i + 1) && Passing(Reported(events[..i]))
    ensures !SpawnPossible(states[i + 1]) ==> states[k].spawns == states[i].spawns
  {
    assert Steps(states[i], events[i], states[i + 1]);
    RunKeeps(states, events, i);
    WorkerRemembers(states, events, i);
    if states[i + 1].mode.Stopped? {
      StoppedCannotSpawn(states[i + 1]);
      StoppedIsFinal(states, events, i + 1);
    } else {
      DelayedCanSpawn(states[i + 1]);
    }
  }

  /** A terminal failure does not by itself end the run: a concrete run, not
      aborted, in which a worker reports one and then a failure without a code,
      and is replaced. */
  lemma {:induction false} OverwrittenTerminal() returns (states: seq<State>, events: seq<Event>)
    ensures Run(states, events) && FailureMessage(Failure(Some(PortUnavailable))) in events && Terminal(PortUnavailable)
    ensures states[|events|].spawns == 2 && !states[|events|].aborted
  {
    var failed := FailureMessage(Failure(Some(PortUnavailable)));
    events := [MarkedStarting(true), failed, FailureMessage(Failure(None)), Exit, DelayDone, MarkedStarting(true)];
    assert events[1] == failed;
    var s1 := Apply(START, events[0]);
    var s2 := Apply(s1, events[1]);
    var s3 := Apply(s2, events[2]);
    var s4 := Apply(s3, events[3]);
    var s5 := Apply(s4, events[4]);
    var s6 := Apply(s5, events[5]);
    states := [START, s1, s2, s3, s4, s5, s6];
  }

  /** Nothing happens after the supervisor stopped. */
  lemma {:induction false} StoppedIsFinal(states: seq<State>, events: seq<Event>, i: nat)
    requires Run(states, events) && i < |states| && states[i].mode.Stopped?
    ensures i == |events|
  {
    assert i < |events| ==> Steps(states[i], events[i], states[i + 1]);
  }

  /** Spawns still to come after an abort: one, if the start was being marked. */
  function LateSpawns(s: State): nat { if s.mode.MarkingStart? then 1 else 0 }

  /** After an abort at most one more worker is spawned, namely when the abort
      falls between marking the start and spawning; it is told to shut down. */
  lemma {:induction false} SpawnsAfterAbort(states: seq<State>, events: seq<Event>, i: nat, k: nat)
    requires Run(states, events) && i <= k < |states| && states[i].aborted
    ensures states[k].aborted && states[k].spawns + LateSpawns(states[k]) <= states[i].spawns + LateSpawns(states[i])
    ensures states[k].spawns > states[i].spawns && states[k].mode.Running? ==> states[k].mode.worker.told
  {
    if i < k {
      SpawnsAfterAbort(states, events, i, k - 1);
      assert Steps(states[k - 1], events[k - 1], states[k]);
    }
  }

  /** In every run a running worker has been told to shut down exactly if the run
      is aborted, whether the abort came before or after its spawn. */
  lemma {:induction false} ToldIffAborted(states: seq<State>, events: seq<Event>, i: nat)
    requires Run(states, events) && i < |states| && states[i].mode.Running?
    ensures states[i].mode.worker.told <==> states[i].aborted
  {
    if i > 0 {
      assert Steps(states[i - 1], events[i - 1], states[i]);
      if states[i - 1].mode.Running? {
        ToldIffAborted(states, events, i - 1);
      }
      StepTells(states[i - 1], events[i - 1], states[i]);
    }
  }

  lemma {:induction false} StepTells(s: State, e: Event, next: State)
    requires Steps(s, e, next) && next.mode.Running?
    requires s.mode.Running? ==> (s.mode.worker.told <==> s.aborted)
    ensures next.mode.worker.told <==> next.aborted
  {
    match e
    case MarkedReady(_, _) => FinishTells(s, s.mode.worker);
    case Exit => FinishTells(s, s.mode.worker.(exited := true));
    case _ =>
  }

  lemma {:induction false} FinishTells(s: State, w: Worker)
    ensures Finish(s, w).aborted == s.aborted && (Finish(s, w).mode.Running? ==> Finish(s, w).mode.worker.told == w.told)
  {
  }

  /** Such a late spawn does happen. */
  lemma {:induction false} LateSpawnHappens() returns (states: seq<State>, events: seq<Event>)
    ensures Run(states, events) && |states| == 3
    ensures states[1].aborted && states[1].spawns == 0 && states[2].spawns == 1
  {
    events := [Abort, MarkedStarting(true)];
    var s1 := Apply(START, events[0]);
    var s2 := Apply(s1, events[1]);
    states := [START, s1, s2];
  }
}
