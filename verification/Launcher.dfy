/** Many owner launchers competing for one identity file. Processes come and go
    and process ids are reused; process inspection tells the truth but may leave
    the start time or the command line out. All launchers of one identity file
    serve the same repository root, which the file lies under. */
module Launcher {
  import opened Wrappers

  /** One process instance; a nonce is drawn once per instance, so it names it. */
  type Process = nat

  datatype Phase = Starting | Ready

  datatype Identity = Identity(phase: Phase, pid: nat, startedAt: string, nonce: Process, build: string)

  /** `launchLocal`: the command line names this repository and launch-local. */
  datatype Info = Info(pid: nat, startedAt: string, launchLocal: bool, recordedStart: string, build: string)

  datatype Inspection = Inspection(alive: bool, launchLocal: Option<bool>, startedAt: Option<string>)

  predicate SameRuntime(a: Identity, b: Identity) { a.pid == b.pid && a.nonce == b.nonce }

  predicate ProveOwnership(rec: Identity, seen: Inspection) {
    && seen.alive
    && seen.launchLocal == Some(true)
    && (seen.startedAt.Some? ==> seen.startedAt.value == rec.startedAt)
  }

  // ----- the identity file ------------------------------------------------------

  datatype File = Absent | Malformed | Present(identity: Identity)

  function Reserved(file: File, mine: Identity): File { if file.Absent? then Present(mine) else file }

  function Removed(file: File, expected: Identity): File {
    if file.Present? && SameRuntime(file.identity, expected) then Absent else file
  }

  function Written(file: File, mine: Identity, phase: Phase): File {
    if file.Present? && SameRuntime(file.identity, mine) then Present(mine.(phase := phase)) else file
  }

  class IdentityFile {
    var content: File

    constructor () ensures content == Absent { content := Absent; }

    /** Create-if-absent: the link call. */
    method ReserveIdentity(mine: Identity) returns (won: bool)
      modifies this
      ensures content == Reserved(old(content), mine)
      ensures won <==> old(content).Absent?
    {
      if !content.Absent? { return false; }
      content := Present(mine);
      return true;
    }

    /** Ok even when another runtime's record is there, which then stays. */
    method RemoveIfCurrent(expected: Identity) returns (ok: bool)
      modifies this
      ensures content == Removed(old(content), expected)
      ensures ok <==> !old(content).Malformed?
    {
      match content {
        case Absent => return true;
        case Malformed => return false;
        case Present(current) =>
          if SameRuntime(current, expected) { content := Absent; }
          return true;
      }
    }

    method WritePhase(mine: Identity, phase: Phase) returns (ok: bool)
      modifies this
      ensures content == Written(old(content), mine, phase)
      ensures ok <==> old(content).Present? && SameRuntime(old(content).identity, mine)
    {
      if content.Present? && SameRuntime(content.identity, mine) {
        content := Present(mine.(phase := phase));
        return true;
      }
      return false;
    }
  }

  // ----- classifying the recorded runtime -------------------------------------------

  datatype Outcome = Stale | Unverified | StillStarting | Reuse | MustStop

  /** `classifyExistingRuntime` after the inspection; `serves` is whether the build,
      host and port match and the runtime answers its readiness request. */
  function Classify(rec: Identity, seen: Inspection, serves: bool): Outcome {
    if !seen.alive then Stale
    else if seen.startedAt.Some? && seen.startedAt.value != "" && seen.startedAt.value != rec.startedAt && seen.launchLocal == Some(false) then Stale
    else if !ProveOwnership(rec, seen) then Unverified
    else if rec.phase.Starting? then StillStarting
    else if serves then Reuse
    else MustStop
  }

  // ----- the machine ----------------------------------------------------------------

  /** `retry` is false before the first reservation attempt, true after it failed. */
  datatype Pc =
    | Other                                   // not a launcher
    | ToRead(retry: bool)
    | HasRead(rec: Identity, retry: bool)
    | Condemned(rec: Identity, retry: bool)   // about to remove a record it found dead
    | Checked(rec: Identity, retry: bool)     // between the read and the unlink
    | ToStop(rec: Identity, seen: Inspection, retry: bool)
    | Waiting(rec: Identity, retry: bool)
    | ToReserve(retry: bool)
    | Holding
    | Ended

  datatype State = State(procs: map<Process, Info>, alive: set<Process>, pcs: map<Process, Pc>, file: File)

  datatype Event =
    | Spawn(p: Process, info: Info, launcher: bool)
    | Die(p: Process)
    | ReadIdentity(p: Process)
    | Inspect(p: Process, seen: Inspection, serves: bool)
    | RemoveStale(p: Process)
    | CheckStale(p: Process)
    | Unlink(p: Process)
    | Terminate(p: Process)
    | SeeExit(p: Process)
    | GiveUp(p: Process)
    | Reserve(p: Process)
    | RecordPhase(p: Process, phase: Phase)
    | Release(p: Process)

  predicate LivePid(s: State, pid: nat) {
    exists q :: q in s.alive && q in s.procs && s.procs[q].pid == pid
  }

  /** What a truthful inspection of a process id may report. */
  predicate Truthful(s: State, pid: nat, seen: Inspection) {
    if seen.alive then
      exists q :: q in s.alive && q in s.procs && s.procs[q].pid == pid
        && (seen.launchLocal.Some? ==> seen.launchLocal.value == s.procs[q].launchLocal)
        && (seen.startedAt.Some? ==> seen.startedAt.value == s.procs[q].startedAt)
    else !LivePid(s, pid)
  }

  function MyIdentity(s: State, p: Process, phase: Phase): Identity
    requires p in s.procs
  {
    Identity(phase, s.procs[p].pid, s.procs[p].recordedStart, p, s.procs[p].build)
  }

  predicate Acts(s: State, p: Process) { p in s.alive && p in s.procs && p in s.pcs }

  function At(s: State, p: Process, pc: Pc): State { s.(pcs := s.pcs[p := pc]) }

  /** One step. `atomic` says whether compare-and-remove is a single step. */
  function Next(atomic: bool, s: State, e: Event): Option<State> {
    if e.Spawn? then
      if e.p !in s.procs && e.p !in s.alive && !LivePid(s, e.info.pid) && (e.launcher ==> e.info.launchLocal) then
        Some(State(s.procs[e.p := e.info], s.alive + {e.p}, s.pcs[e.p := if e.launcher then ToRead(false) else Other], s.file))
      else None
    else if !Acts(s, e.p) then None
    else
      var p, pc := e.p, s.pcs[e.p];
      match e
      case Spawn(_, _, _) => None
      case Die(_) => Some(s.(alive := s.alive - {p}))
      case ReadIdentity(_) =>
        if !pc.ToRead? then None
        else if s.file.Absent? then Some(At(s, p, ToReserve(pc.retry)))
        else if s.file.Malformed? then Some(At(s, p, Ended))
        else Some(At(s, p, HasRead(s.file.identity, pc.retry)))
      case Inspect(_, seen, serves) =>
        if !(pc.HasRead? && Truthful(s, pc.rec.pid, seen)) then None
        else (match Classify(pc.rec, seen, serves)
              case Stale => Some(At(s, p, Condemned(pc.rec, pc.retry)))
              case MustStop => Some(At(s, p, ToStop(pc.rec, seen, pc.retry)))
              case _ => Some(At(s, p, Ended)))
      case RemoveStale(_) =>
        if !(pc.Condemned? && atomic) then None
        else if s.file.Malformed? then Some(At(s, p, Ended))
        else Some(At(s.(file := Removed(s.file, pc.rec)), p, ToReserve(pc.retry)))
      case CheckStale(_) =>
        if !(pc.Condemned? && !atomic) then None
        else if s.file.Malformed? then Some(At(s, p, Ended))
        else if s.file.Present? && SameRuntime(s.file.identity, pc.rec) then Some(At(s, p, Checked(pc.rec, pc.retry)))
        else Some(At(s, p, ToReserve(pc.retry)))
      case Unlink(_) => if pc.Checked? then Some(At(s.(file := Absent), p, ToReserve(pc.retry))) else None
      case Terminate(_) => if pc.ToStop? then Some(At(s, p, Waiting(pc.rec, pc.retry))) else None
      case SeeExit(_) => if pc.Waiting? && !LivePid(s, pc.rec.pid) then Some(At(s, p, Condemned(pc.rec, pc.retry))) else None
      case GiveUp(_) => if pc.Waiting? then Some(At(s, p, Ended)) else None
      case Reserve(_) =>
        if !pc.ToReserve? then None
        else if s.file.Absent? then Some(At(s.(file := Reserved(s.file, MyIdentity(s, p, Starting))), p, Holding))
        else Some(At(s, p, if pc.retry then Ended else ToRead(true)))
      case RecordPhase(_, phase) =>
        if !pc.Holding? then None
        else if s.file.Present? && SameRuntime(s.file.identity, MyIdentity(s, p, phase)) then
          Some(s.(file := Written(s.file, MyIdentity(s, p, phase), phase)))
        else Some(At(s, p, Ended))
      case Release(_) => if pc.Holding? then Some(At(s.(file := Removed(s.file, MyIdentity(s, p, Ready))), p, Ended)) else None
  }

  function Trace(atomic: bool, s: State, events: seq<Event>): Option<State>
    decreases |events|
  {
    if events == [] then Some(s)
    else
      match Next(atomic, s, events[0])
      case None => None
      case Some(s') => Trace(atomic, s', events[1..])
  }

  const EMPTY := State(map[], {}, map[], Absent)

  ghost predicate Holds(s: State, p: Process) { p in s.alive && p in s.pcs && s.pcs[p].Holding? }

  // ----- safety ---------------------------------------------------------------------

  ghost predicate Genuine(s: State, rec: Identity) {
    rec.nonce in s.procs && rec == MyIdentity(s, rec.nonce, rec.phase) && s.procs[rec.nonce].launchLocal
  }

  ghost predicate PcFine(s: State, pc: Pc) {
    match pc
    case HasRead(rec, _) => Genuine(s, rec)
    case Condemned(rec, _) => Genuine(s, rec) && rec.nonce !in s.alive
    case ToStop(rec, seen, _) => Genuine(s, rec) && rec.phase.Ready? && ProveOwnership(rec, seen)
    case Waiting(rec, _) => Genuine(s, rec)
    case Checked(_, _) => false
    case _ => true
  }

  ghost predicate Inv(s: State) {
    && (forall p :: p in s.alive ==> p in s.procs)
    && (forall p, q :: p in s.alive && q in s.alive && s.procs[p].pid == s.procs[q].pid ==> p == q)
    && (forall p :: p in s.pcs ==> p in s.procs && PcFine(s, s.pcs[p]))
    && (forall p :: p in s.pcs && !s.pcs[p].Other? ==> s.procs[p].launchLocal)
    && (s.file.Present? ==> Genuine(s, s.file.identity))
    && (forall p :: Holds(s, p) ==> s.file.Present? && s.file.identity.nonce == p)
  }

  lemma {:induction false} StaleIsDead(s: State, rec: Identity, seen: Inspection, serves: bool)
    requires Inv(s) && Genuine(s, rec) && Truthful(s, rec.pid, seen) && Classify(rec, seen, serves).Stale?
    ensures rec.nonce !in s.alive
  {
    assert rec.nonce in s.alive ==> LivePid(s, rec.pid);
  }

  lemma {:induction false} InvSpawn(s: State, e: Event)
    requires Inv(s) && e.Spawn? && Next(true, s, e).Some?
    ensures Inv(Next(true, s, e).value)
  {
    var s' := Next(true, s, e).value;
    assert forall q :: q in s.alive && s.procs[q].pid == e.info.pid ==> LivePid(s, e.info.pid);
    forall q | q in s'.pcs ensures q in s'.procs && PcFine(s', s'.pcs[q]) {
      assert q != e.p ==> PcFine(s, s.pcs[q]);
    }
    assert forall q :: Holds(s', q) ==> Holds(s, q);
  }

  lemma {:induction false} InvDie(s: State, p: Process)
    requires Inv(s)
    ensures Inv(s.(alive := s.alive - {p}))
  {
    var s' := s.(alive := s.alive - {p});
    assert forall q :: Holds(s', q) ==> Holds(s, q);
    forall q | q in s'.pcs ensures PcFine(s', s'.pcs[q]) { assert PcFine(s, s.pcs[q]); }
  }

  /** A launcher moves to a program counter that is sound, leaving a file that is
      sound for every holder. */
  lemma {:induction false} InvAt(s: State, p: Process, pc: Pc, file: File)
    requires Inv(s) && Acts(s, p) && !s.pcs[p].Other? && PcFine(s, pc)
    requires file.Present? ==> Genuine(s, file.identity)
    requires pc.Holding? ==> file.Present? && file.identity.nonce == p
    requires forall q :: q != p && Holds(s, q) ==> file.Present? && file.identity.nonce == q
    ensures Inv(At(s.(file := file), p, pc))
  {
    var s' := At(s.(file := file), p, pc);
    forall q | q in s'.pcs ensures q in s'.procs && PcFine(s', s'.pcs[q]) {
      assert q != p ==> PcFine(s, s.pcs[q]);
    }
    assert forall q :: Holds(s', q) && q != p ==> Holds(s, q);
  }

  lemma {:induction false} InvKept(s: State, e: Event)
    requires Inv(s) && Next(true, s, e).Some?
    ensures Inv(Next(true, s, e).value)
  {
    var s' := Next(true, s, e).value;
    match e
    case Spawn(_, _, _) => InvSpawn(s, e);
    case Die(p) => InvDie(s, p);
    case _ =>
      var p := e.p;
      assert PcFine(s, s.pcs[p]);
      InvStep(s, e);
  }

  lemma {:induction false} InvStep(s: State, e: Event)
    requires Inv(s) && !e.Spawn? && !e.Die? && Next(true, s, e).Some? && PcFine(s, s.pcs[e.p])
    ensures Inv(Next(true, s, e).value)
  {
    var p, s' := e.p, Next(true, s, e).value;
    var pc := s'.pcs[p];
    var before := s.pcs[p];
    if e.Inspect? && Classify(before.rec, e.seen, e.serves).Stale? { StaleIsDead(s, before.rec, e.seen, e.serves); }
    if e.SeeExit? { assert before.rec.nonce in s.alive ==> LivePid(s, before.rec.pid); }
    if before.Holding? { assert Holds(s, p); }
    assert s.pcs[p := before] == s.pcs;
    assert s' == At(s.(file := s'.file), p, pc);
    InvAt(s, p, pc, s'.file);
  }

  lemma {:induction false} InvAlong(s: State, events: seq<Event>)
    requires Inv(s) && Trace(true, s, events).Some?
    ensures Inv(Trace(true, s, events).value)
    decreases |events|
  {
    if events != [] {
      InvKept(s, events[0]);
      InvAlong(Next(true, s, events[0]).value, events[1..]);
    }
  }

  /** In every run at most one live launcher holds the slot, and while it lives and
      has not released, the identity file names it. */
  lemma {:induction false} OneHolder(events: seq<Event>, p: Process, q: Process)
    requires Trace(true, EMPTY, events).Some?
    requires var s := Trace(true, EMPTY, events).value; Holds(s, p) && Holds(s, q)
    ensures p == q
    ensures var s := Trace(true, EMPTY, events).value;
      s.file.Present? && s.file.identity.nonce == p && p in s.procs && s.file.identity.pid == s.procs[p].pid
  {
    InvAlong(EMPTY, events);
  }

  lemma {:induction false} TraceAppend(atomic: bool, s: State, a: seq<Event>, b: seq<Event>)
    requires Trace(atomic, s, a).Some?
    ensures Trace(atomic, s, a + b) == Trace(atomic, Trace(atomic, s, a).value, b)
    decreases |a|
  {
    if a == [] {
      assert a + b == b;
    } else {
      assert (a + b)[1..] == a[1..] + b;
      TraceAppend(atomic, Next(atomic, s, a[0]).value, a[1..], b);
    }
  }

  /** A run is a shorter run and its last event. */
  lemma {:induction false} TraceLast(atomic: bool, s: State, events: seq<Event>)
    requires events != [] && Trace(atomic, s, events).Some?
    ensures var n := |events| - 1;
      Trace(atomic, s, events[..n]).Some? && Next(atomic, Trace(atomic, s, events[..n]).value, events[n]) == Trace(atomic, s, events)
    decreases |events|
  {
    var n := |events| - 1;
    if n == 0 {
      assert events[..0] == [] && events[1..] == [];
    } else {
      TraceLast(atomic, Next(atomic, s, events[0]).value, events[1..]);
      assert events[..n][1..] == events[1..][..n - 1];
    }
  }

  /** At event k of the run, launcher p inspected the process its record names, was
      told the truth, and found that the runtime does not serve what it would
      start itself. */
  ghost predicate Inspected(events: seq<Event>, k: nat, p: Process, rec: Identity, seen: Inspection) {
    k < |events| && Trace(true, EMPTY, events[..k]).Some? &&
    var s := Trace(true, EMPTY, events[..k]).value;
    p in s.pcs && s.pcs[p].HasRead? && s.pcs[p].rec == rec && Truthful(s, rec.pid, seen) && events[k] == Inspect(p, seen, false)
  }

  /** A launcher about to stop a process inspected it earlier in the run. */
  lemma {:induction false} ToStopInspected(events: seq<Event>, p: Process) returns (k: nat)
    requires Trace(true, EMPTY, events).Some?
    requires var s := Trace(true, EMPTY, events).value; p in s.pcs && s.pcs[p].ToStop?
    ensures var pc := Trace(true, EMPTY, events).value.pcs[p]; Inspected(events, k, p, pc.rec, pc.seen)
    decreases |events|
  {
    var n := |events| - 1;
    TraceLast(true, EMPTY, events);
    var before := Trace(true, EMPTY, events[..n]).value;
    if events[n].Inspect? && events[n].p == p {
      k := n;
    } else {
      k := ToStopInspected(events[..n], p);
      assert events[..n][..k] == events[..k];
    }
  }

  /** No other process that ever had this process id started when the record says:
      a process id and a start time name one process. */
  ghost predicate StartNames(s: State, rec: Identity) {
    forall q :: q in s.procs && s.procs[q].pid == rec.pid && s.procs[q].startedAt == rec.startedAt ==> q == rec.nonce
  }

  /** A stop signal is only ever sent on account of a record that was read as
      ready, to a process id that the same launcher, earlier in the run, inspected
      and truthfully found to be a live process running this launcher that does not
      serve the wanted build; and if the inspection reported a start time, that
      process is the recorded one. */
  lemma {:induction false} StopsOnlyProven(events: seq<Event>, p: Process) returns (k: nat, q: Process)
    requires Trace(true, EMPTY, events).Some? && Next(true, Trace(true, EMPTY, events).value, Terminate(p)).Some?
    ensures var pc := Trace(true, EMPTY, events).value.pcs[p];
      && pc.ToStop? && pc.rec.phase.Ready? && ProveOwnership(pc.rec, pc.seen) && Genuine(Trace(true, EMPTY, events).value, pc.rec)
      && Inspected(events, k, p, pc.rec, pc.seen)
      && var s := Trace(true, EMPTY, events[..k]).value;
         && q in s.alive && q in s.procs && s.procs[q].pid == pc.rec.pid && s.procs[q].launchLocal
         && (pc.seen.startedAt.Some? && StartNames(s, pc.rec) ==> q == pc.rec.nonce)
  {
    InvAlong(EMPTY, events);
    k := ToStopInspected(events, p);
    var pc, s := Trace(true, EMPTY, events).value.pcs[p], Trace(true, EMPTY, events[..k]).value;
    q :| q in s.alive && q in s.procs && s.procs[q].pid == pc.rec.pid
         && (pc.seen.launchLocal.Some? ==> pc.seen.launchLocal.value == s.procs[q].launchLocal)
         && (pc.seen.startedAt.Some? ==> pc.seen.startedAt.value == s.procs[q].startedAt);
  }

  // ----- what an inspection decides ---------------------------------------------------

  /** The process is gone, or its id now belongs to another program that started
      at another time. */
  predicate SeenDead(rec: Identity, seen: Inspection) {
    !seen.alive ||
    (seen.launchLocal == Some(false) && seen.startedAt.Some? && seen.startedAt.value != "" && seen.startedAt.value != rec.startedAt)
  }

  /** A live process running this launcher, with the recorded start time if one was
      reported. */
  predicate SeenOwn(rec: Identity, seen: Inspection) {
    seen.alive && seen.launchLocal == Some(true) && (seen.startedAt.None? || seen.startedAt.value == rec.startedAt)
  }

  /** After an inspection the launcher goes on to remove the record exactly if it
      saw the process dead, to stop the process exactly if it is its own, recorded
      as ready, and does not serve the wanted build, and otherwise it has ended:
      it reuses the runtime, or refuses one that is starting or not its own. No
      inspection changes the identity file. */
  lemma {:induction false} InspectionDecides(s: State, p: Process, seen: Inspection, serves: bool)
    requires Next(true, s, Inspect(p, seen, serves)).Some?
    ensures var (rec, after) := (s.pcs[p].rec, Next(true, s, Inspect(p, seen, serves)).value);
      && (after.pcs[p].Condemned? <==> SeenDead(rec, seen))
      && (after.pcs[p].ToStop? <==> SeenOwn(rec, seen) && rec.phase.Ready? && !serves)
      && (after.pcs[p].Condemned? || after.pcs[p].ToStop? || after.pcs[p].Ended?)
      && after.file == s.file && after.alive == s.alive
  {
  }

  lemma {:induction false} EndedStays(s: State, events: seq<Event>, p: Process)
    requires p in s.procs && p in s.pcs && s.pcs[p].Ended? && Trace(true, s, events).Some?
    ensures forall k :: 0 <= k < |events| && events[k].p == p ==> events[k].Die?
    decreases |events|
  {
    if events != [] {
      EndedStays(Next(true, s, events[0]).value, events[1..], p);
    }
  }

  /** A launcher that inspects a runtime of its own, recorded as ready and serving
      the wanted build, leaves it alone: in no continuation of the run does it take
      a step again, so it neither stops a process nor touches the file. */
  lemma {:induction false} ServingIsReused(events: seq<Event>, p: Process, seen: Inspection, later: seq<Event>)
    requires Trace(true, EMPTY, events).Some?
    requires var s := Trace(true, EMPTY, events).value;
      && Next(true, s, Inspect(p, seen, true)).Some? && s.pcs[p].rec.phase.Ready? && SeenOwn(s.pcs[p].rec, seen)
      && Trace(true, Next(true, s, Inspect(p, seen, true)).value, later).Some?
    ensures var s := Trace(true, EMPTY, events).value; Next(true, s, Inspect(p, seen, true)).value == At(s, p, Ended)
    ensures forall k :: 0 <= k < |later| && later[k].p == p ==> later[k].Die?
  {
    var s := Trace(true, EMPTY, events).value;
    InspectionDecides(s, p, seen, true);
    EndedStays(Next(true, s, Inspect(p, seen, true)).value, later, p);
  }

  /** How a launcher reserves: it takes an empty slot; having lost a first attempt
      it reads the record again, having lost a second it has ended. */
  lemma {:induction false} ReservationDecides(s: State, p: Process)
    requires Acts(s, p) && s.pcs[p].ToReserve?
    ensures Next(true, s, Reserve(p)) == Some(
      if s.file == Absent then At(s.(file := Present(MyIdentity(s, p, Starting))), p, Holding)
      else if !s.pcs[p].retry then At(s, p, ToRead(true))
      else At(s, p, Ended))
  {
  }

  /** Reservations a launcher may still attempt. */
  function AttemptsLeft(pc: Pc): nat {
    match pc
    case Other => 0
    case Holding => 0
    case Ended => 0
    case _ => if pc.retry then 1 else 2
  }

  function Attempts(events: seq<Event>, p: Process): nat {
    if events == [] then 0 else (if events[0] == Reserve(p) then 1 else 0) + Attempts(events[1..], p)
  }

  lemma {:induction false} AttemptsBound(s: State, events: seq<Event>, p: Process)
    requires Trace(true, s, events).Some? && p in s.procs && p in s.pcs
    ensures Attempts(events, p) <= AttemptsLeft(s.pcs[p])
    decreases |events|
  {
    if events != [] {
      AttemptsBound(Next(true, s, events[0]).value, events[1..], p);
    }
  }

  lemma {:induction false} AttemptsBeforeSpawn(s: State, events: seq<Event>, p: Process)
    requires Trace(true, s, events).Some? && p !in s.procs
    ensures Attempts(events, p) <= 2
    decreases |events|
  {
    if events != [] {
      var next := Next(true, s, events[0]).value;
      if events[0].Spawn? && events[0].p == p {
        AttemptsBound(next, events[1..], p);
      } else {
        AttemptsBeforeSpawn(next, events[1..], p);
      }
    }
  }

  /** In every run a launcher attempts at most two reservations. */
  lemma {:induction false} TwoAttempts(events: seq<Event>, p: Process)
    requires Trace(true, EMPTY, events).Some?
    ensures Attempts(events, p) <= 2
  {
    AttemptsBeforeSpawn(EMPTY, events, p);
  }

  /** A launcher that waits for the process it stopped removes its record only once
      the process is gone; otherwise it ends and leaves the record. */
  lemma {:induction false} WaitingDecides(s: State, p: Process)
    requires Acts(s, p) && s.pcs[p].Waiting?
    ensures Next(true, s, SeeExit(p)) == if LivePid(s, s.pcs[p].rec.pid) then None else Some(At(s, p, Condemned(s.pcs[p].rec, s.pcs[p].retry)))
    ensures Next(true, s, GiveUp(p)) == Some(At(s, p, Ended))
  {
  }

  // ----- a dead holder does not block ---------------------------------------------------

  /** A launcher running alone takes the slot over from a process that has died
      without releasing, whatever phase its record shows. */
  lemma {:induction false} TakesOverFromDead(s: State, p: Process)
    requires Acts(s, p) && s.pcs[p] == ToRead(false)
    requires s.file.Present? && !LivePid(s, s.file.identity.pid)
    ensures var gone := Inspection(false, None, None);
      var end := Trace(true, s, [ReadIdentity(p), Inspect(p, gone, false), RemoveStale(p), Reserve(p)]);
      end.Some? && Holds(end.value, p)
  {
    var gone := Inspection(false, None, None);
    var rec := s.file.identity;
    var s1 := At(s, p, HasRead(rec, false));
    var s2 := At(s1, p, Condemned(rec, false));
    var s3 := At(s2.(file := Absent), p, ToReserve(false));
    var s4 := At(s3.(file := Present(MyIdentity(s3, p, Starting))), p, Holding);
    assert Truthful(s1, rec.pid, gone);
    assert Next(true, s, ReadIdentity(p)) == Some(s1);
    assert Next(true, s1, Inspect(p, gone, false)) == Some(s2);
    assert Next(true, s2, RemoveStale(p)) == Some(s3);
    assert Next(true, s3, Reserve(p)) == Some(s4);
    TraceOf(true, [s, s1, s2, s3, s4], [ReadIdentity(p), Inspect(p, gone, false), RemoveStale(p), Reserve(p)]);
  }

  /** Once the stopped process is gone its id is free. */
  lemma {:induction false} StoppedIsGone(s: State, q: Process)
    requires Inv(s) && q in s.alive
    ensures !LivePid(s.(alive := s.alive - {q}), s.procs[q].pid)
  {
  }

  /** Reading a record as ready, the launcher stops its process. */
  lemma {:induction false} Stops(s: State, p: Process, rec: Identity, seen: Inspection)
    requires Acts(s, p) && s.pcs[p] == ToRead(false) && s.file == Present(rec) && rec.phase.Ready?
    requires Truthful(s, rec.pid, seen) && SeenOwn(rec, seen)
    ensures Trace(true, s, [ReadIdentity(p), Inspect(p, seen, false), Terminate(p)]) == Some(At(s, p, Waiting(rec, false)))
  {
    var s1 := At(s, p, HasRead(rec, false));
    var s2 := At(s, p, ToStop(rec, seen, false));
    var s3 := At(s, p, Waiting(rec, false));
    assert Next(true, s, ReadIdentity(p)) == Some(s1);
    assert At(s1, p, ToStop(rec, seen, false)) == s2 && At(s2, p, Waiting(rec, false)) == s3;
    assert Truthful(s1, rec.pid, seen);
    assert Next(true, s1, Inspect(p, seen, false)) == Some(s2);
    TraceOf(true, [s, s1, s2, s3], [ReadIdentity(p), Inspect(p, seen, false), Terminate(p)]);
  }

  /** Seeing the process exit, the launcher removes its record and takes the slot. */
  lemma {:induction false} TakesSlot(s: State, p: Process, rec: Identity)
    requires Acts(s, p) && s.pcs[p] == Waiting(rec, false) && s.file == Present(rec) && !LivePid(s, rec.pid)
    ensures Trace(true, s, [SeeExit(p), RemoveStale(p), Reserve(p)]) == Some(At(s.(file := Present(MyIdentity(s, p, Starting))), p, Holding))
  {
    var s1 := At(s, p, Condemned(rec, false));
    var s2 := At(s.(file := Absent), p, ToReserve(false));
    var s3 := At(s.(file := Present(MyIdentity(s, p, Starting))), p, Holding);
    assert s1.pcs[p := ToReserve(false)] == s2.pcs && s2.pcs[p := Holding] == s3.pcs;
    assert Next(true, s, SeeExit(p)) == Some(s1);
    assert Next(true, s1, RemoveStale(p)) == Some(s2);
    assert Next(true, s2, Reserve(p)) == Some(s3);
    TraceOf(true, [s, s1, s2, s3], [SeeExit(p), RemoveStale(p), Reserve(p)]);
  }

  /** The same from a runtime that it stops: a record read as ready of a live process
      of its own that does not serve the wanted build, once that process is gone. */
  lemma {:induction false} TakesOverFromStopped(s: State, p: Process, q: Process, seen: Inspection)
    requires Inv(s) && Acts(s, p) && s.pcs[p] == ToRead(false) && p != q && Acts(s, q)
    requires s.file.Present? && s.file.identity.nonce == q && s.file.identity.phase.Ready?
    requires Truthful(s, s.procs[q].pid, seen) && SeenOwn(s.file.identity, seen)
    ensures var stopped := Trace(true, s, [ReadIdentity(p), Inspect(p, seen, false), Terminate(p)]);
      stopped.Some? && Next(true, stopped.value, Die(q)).Some? &&
      var end := Trace(true, Next(true, stopped.value, Die(q)).value, [SeeExit(p), RemoveStale(p), Reserve(p)]);
      end.Some? && Holds(end.value, p) && end.value.file == Present(MyIdentity(s, p, Starting))
  {
    var rec := s.file.identity;
    Stops(s, p, rec, seen);
    var waiting := At(s, p, Waiting(rec, false));
    StoppedIsGone(s, q);
    TakesSlot(waiting.(alive := s.alive - {q}), p, rec);
  }

  /** In every run a holder that records a phase leaves exactly its own record with
      that phase. */
  lemma {:induction false} HolderRecords(events: seq<Event>, p: Process, phase: Phase)
    requires Trace(true, EMPTY, events).Some? && Holds(Trace(true, EMPTY, events).value, p)
    ensures var s := Trace(true, EMPTY, events).value;
      p in s.procs && Next(true, s, RecordPhase(p, phase)) == Some(s.(file := Present(MyIdentity(s, p, phase))))
  {
    InvAlong(EMPTY, events);
  }

  /** In every run a holder that releases leaves the slot empty. */
  lemma {:induction false} HolderReleases(events: seq<Event>, p: Process)
    requires Trace(true, EMPTY, events).Some? && Holds(Trace(true, EMPTY, events).value, p)
    ensures var s := Trace(true, EMPTY, events).value; Next(true, s, Release(p)) == Some(At(s.(file := Absent), p, Ended))
  {
    InvAlong(EMPTY, events);
  }

  /** States that step into one another are a run. */
  lemma {:induction false} TraceOf(atomic: bool, states: seq<State>, events: seq<Event>)
    requires |states| == |events| + 1
    requires forall i :: 0 <= i < |events| ==> Next(atomic, states[i], events[i]) == Some(states[i + 1])
    ensures Trace(atomic, states[0], events) == Some(states[|events|])
    decreases |events|
  {
    if events != [] {
      assert Next(atomic, states[0], events[0]) == Some(states[1]);
      TraceOf(atomic, states[1..], events[1..]);
    }
  }

  // ----- without the atomic compare-and-remove --------------------------------------------

  /** The record of process 0, which died; launchers 1 and 2 both read it, both see
      it is dead and both check it is current before either unlinks. */
  function RaceSetup(a: Info, b: Info, c: Info): seq<Event> {
    [Spawn(0, a, true), ReadIdentity(0), Reserve(0), Die(0), Spawn(1, b, true), Spawn(2, c, true)]
  }

  const RACE_READS: seq<Event> :=
    [ReadIdentity(1), ReadIdentity(2), Inspect(1, Inspection(false, None, None), false), Inspect(2, Inspection(false, None, None), false)]

  const RACE_END: seq<Event> := [CheckStale(1), CheckStale(2), Unlink(2), Reserve(2), Unlink(1), Reserve(1)]

  /** With the read and the unlink as two steps, as the code performs them, two live
      launchers can both hold the slot. */
  lemma {:induction false} SplitRemoveBreaksExclusion()
    ensures exists events: seq<Event> ::
      Trace(false, EMPTY, events).Some? && Holds(Trace(false, EMPTY, events).value, 1) && Holds(Trace(false, EMPTY, events).value, 2)
  {
    var a, b, c := Info(10, "t0", true, "t0", "x"), Info(11, "t1", true, "t1", "x"), Info(12, "t2", true, "t2", "x");
    var rec := Identity(Starting, 10, "t0", 0, "x");
    RaceSetupRuns(a, b, c);
    var s := Trace(false, EMPTY, RaceSetup(a, b, c)).value;
    RaceFrom(s, rec);
    TraceAppend(false, EMPTY, RaceSetup(a, b, c), RACE_READS + RACE_END);
  }

  lemma {:induction false} RaceFrom(s: State, rec: Identity)
    requires Acts(s, 1) && Acts(s, 2) && s.file == Present(rec) && !LivePid(s, rec.pid)
    requires s.pcs[1] == ToRead(false) && s.pcs[2] == ToRead(false)
    ensures Trace(false, s, RACE_READS + RACE_END).Some?
    ensures var t := Trace(false, s, RACE_READS + RACE_END).value; Holds(t, 1) && Holds(t, 2)
  {
    RaceReadsRun(s, rec);
    RaceEndRuns(Trace(false, s, RACE_READS).value, rec);
    TraceAppend(false, s, RACE_READS, RACE_END);
  }

  lemma {:induction false} RaceSetupRuns(a: Info, b: Info, c: Info)
    requires a == Info(10, "t0", true, "t0", "x") && b == Info(11, "t1", true, "t1", "x") && c == Info(12, "t2", true, "t2", "x")
    ensures var rec := Identity(Starting, 10, "t0", 0, "x");
      Trace(false, EMPTY, RaceSetup(a, b, c)) ==
        Some(State(map[0 := a, 1 := b, 2 := c], {1, 2}, map[0 := Holding, 1 := ToRead(false), 2 := ToRead(false)], Present(rec)))
  {
    var rec := Identity(Starting, 10, "t0", 0, "x");
    var s1 := State(map[0 := a], {0}, map[0 := ToRead(false)], Absent);
    var s2 := At(s1, 0, ToReserve(false));
    var s3 := State(map[0 := a], {0}, map[0 := Holding], Present(rec));
    var s4 := s3.(alive := {});
    var s5 := State(map[0 := a, 1 := b], {1}, map[0 := Holding, 1 := ToRead(false)], Present(rec));
    var s6 := State(map[0 := a, 1 := b, 2 := c], {1, 2}, map[0 := Holding, 1 := ToRead(false), 2 := ToRead(false)], Present(rec));
    assert EMPTY.procs[0 := a] == map[0 := a] && EMPTY.pcs[0 := ToRead(false)] == map[0 := ToRead(false)];
    assert EMPTY.alive + {0} == {0} && !LivePid(EMPTY, 10);
    assert s2.pcs[0 := Holding] == map[0 := Holding];
    assert s4.procs[1 := b] == map[0 := a, 1 := b] && s4.alive + {1} == {1};
    assert s4.pcs[1 := ToRead(false)] == map[0 := Holding, 1 := ToRead(false)];
    assert s5.procs[2 := c] == map[0 := a, 1 := b, 2 := c] && s5.alive + {2} == {1, 2};
    assert s5.pcs[2 := ToRead(false)] == map[0 := Holding, 1 := ToRead(false), 2 := ToRead(false)];
    TraceOf(false, [EMPTY, s1, s2, s3, s4, s5, s6], RaceSetup(a, b, c));
  }

  lemma {:induction false} RaceReadsRun(s: State, rec: Identity)
    requires Acts(s, 1) && Acts(s, 2) && s.file == Present(rec) && !LivePid(s, rec.pid)
    requires s.pcs[1] == ToRead(false) && s.pcs[2] == ToRead(false)
    ensures Trace(false, s, RACE_READS) == Some(At(At(At(At(s, 1, HasRead(rec, false)), 2, HasRead(rec, false)), 1, Condemned(rec, false)), 2, Condemned(rec, false)))
  {
    var gone := Inspection(false, None, None);
    var s1 := At(s, 1, HasRead(rec, false));
    var s2 := At(s1, 2, HasRead(rec, false));
    var s3 := At(s2, 1, Condemned(rec, false));
    var s4 := At(s3, 2, Condemned(rec, false));
    assert Truthful(s2, rec.pid, gone) && Truthful(s3, rec.pid, gone);
    TraceOf(false, [s, s1, s2, s3, s4], RACE_READS);
  }

  lemma {:induction false} RaceEndRuns(s: State, rec: Identity)
    requires Acts(s, 1) && Acts(s, 2) && s.file == Present(rec)
    requires s.pcs[1] == Condemned(rec, false) && s.pcs[2] == Condemned(rec, false)
    ensures Trace(false, s, RACE_END).Some?
    ensures Holds(Trace(false, s, RACE_END).value, 1) && Holds(Trace(false, s, RACE_END).value, 2)
  {
    var s1 := At(s, 1, Checked(rec, false));
    var s2 := At(s1, 2, Checked(rec, false));
    var s3 := At(s2.(file := Absent), 2, ToReserve(false));
    var s4 := At(s3.(file := Present(MyIdentity(s3, 2, Starting))), 2, Holding);
    var s5 := At(s4.(file := Absent), 1, ToReserve(false));
    var s6 := At(s5.(file := Present(MyIdentity(s5, 1, Starting))), 1, Holding);
    TraceOf(false, [s, s1, s2, s3, s4, s5, s6], RACE_END);
  }
}
