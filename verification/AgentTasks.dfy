/** The agent's own scheduler: tracked tasks per session, a concurrency limit, the
    steps of an execution, and cancellation when a session is dissolved or the
    agent stops. Handlers run concurrently, so every sequence of steps is a run. */
module AgentTasks {
  import opened Options

  datatype Kind = Offering | Executing

  /** How validating the input and running the task ends, unless cancelled. */
  datatype Outcome = Returns | RefusesInput | RefusedScope | Breaks

  datatype Status = Success | InvalidInput | Denied | Error

  /** The handler returned, an exception escaped it, or its cancellation did; in
      that case the complete may already have left. */
  datatype Exit = Finished | Crashed | Escaped(delivered: bool)

  datatype Stage = Queued | Starting | Working | Reporting(status: Status) | Sending(status: Status) | Done(exit: Exit)

  /** `sent` is the completes sent. `reportBroke` says that reporting a success
      raised, and `peerless` that there was no connection to reply on. */
  datatype Task = Task(session: string, kind: Kind, stage: Stage, cancelled: bool, outcome: Option<Outcome>,
                       reportBroke: bool, peerless: bool, sent: seq<Status>)

  /** A dissolve, or a stop of everything (None), and the tasks it awaits; `within` is
      the task in which a dissolve is handled, if there is one. */
  datatype Drain = Drain(session: Option<string>, within: Option<nat>, pending: set<nat>, done: bool)

  /** `attached` is an agent in the coordinator's process; `peer` says there is a
      connection. */
  datatype State = State(attached: bool, peer: bool, tasks: seq<Task>, tracked: map<string, set<nat>>, free: nat,
                         drains: seq<Drain>)

  datatype Event =
    | Spawn(session: string, kind: Kind)
    | Acquire(task: nat)
    | OfferDone(task: nat)
    | Begin(task: nat)
    | Settle(task: nat, outcome: Outcome)
    | ReportBreaks(task: nat)
    | Reply(task: nat)
    | Delivered(task: nat)
    | Crash(task: nat)
    | Escape(task: nat, delivered: bool)
    | Dissolve(session: string, within: Option<nat>)
    | Stop
    | DrainDone(drain: nat)
    | PeerDropped(drain: nat)

  function Start(attached: bool, limit: nat): State {
    State(attached, true, [], map[], limit, [])
  }

  predicate Live(s: State, t: nat) {
    t < |s.tasks| && !s.tasks[t].stage.Done?
  }

  predicate Holds(stage: Stage) {
    !stage.Queued? && !stage.Done?
  }

  /** The task is not handling a dissolve. */
  predicate Unblocked(s: State, t: nat) {
    forall i :: 0 <= i < |s.drains| && s.drains[i].within == Some(t) ==> s.drains[i].done
  }

  /** A task that can move. */
  predicate Ready(s: State, t: nat) {
    Live(s, t) && Unblocked(s, t)
  }

  predicate AllDone(s: State, pending: set<nat>) {
    forall t :: t in pending ==> !Live(s, t)
  }

  /** In the coordinator's process an agent's message is handled, and the dissolve it
      may lead to, before the task that sent it goes on. */
  predicate Enabled(s: State, event: Event) {
    match event
    case Spawn(_, _) | Stop => true
    case Dissolve(session, within) =>
      within.Some? ==>
        s.attached && Ready(s, within.value)
        && Holds(s.tasks[within.value].stage) && s.tasks[within.value].session == session
    case Acquire(t) => Ready(s, t) && s.tasks[t].stage.Queued? && !s.tasks[t].cancelled && s.free > 0
    case OfferDone(t) => Ready(s, t) && s.tasks[t].stage.Starting? && s.tasks[t].kind == Offering
    case Begin(t) => Ready(s, t) && s.tasks[t].stage.Starting? && s.tasks[t].kind == Executing
    case Settle(t, _) => Ready(s, t) && s.tasks[t].stage.Working?
    case ReportBreaks(t) => Ready(s, t) && s.tasks[t].stage == Reporting(Success)
    case Reply(t) => Ready(s, t) && s.tasks[t].stage.Reporting?
    case Delivered(t) => Ready(s, t) && s.tasks[t].stage.Sending?
    // Whatever the task itself raises is caught; what surrounds it is not.
    case Crash(t) =>
      Ready(s, t) && (s.tasks[t].stage.Starting? || s.tasks[t].stage.Reporting? || s.tasks[t].stage.Sending?)
    case Escape(t, delivered) =>
      Ready(s, t) && s.tasks[t].cancelled && (delivered ==> s.tasks[t].stage.Sending?)
    case DrainDone(i) => i < |s.drains| && !s.drains[i].done && AllDone(s, s.drains[i].pending)
    case PeerDropped(i) => s.attached && i < |s.drains| && s.drains[i].done && s.drains[i].session.None?
  }

  function TrackedOf(s: State, session: string): set<nat> {
    if session in s.tracked then s.tracked[session] else {}
  }

  /** The done callback: forget the task, if its session is still tracked. */
  function Untrack(tracked: map<string, set<nat>>, session: string, t: nat): map<string, set<nat>> {
    if session in tracked then tracked[session := tracked[session] - {t}] else tracked
  }

  function Move(s: State, t: nat, stage: Stage): State
    requires t < |s.tasks|
  {
    s.(tasks := s.tasks[t := s.tasks[t].(stage := stage)])
  }

  /** The task ends as `task`: it gives its permit back and is forgotten. */
  function End(s: State, t: nat, task: Task): State
    requires t < |s.tasks|
  {
    s.(tasks := s.tasks[t := task],
       tracked := Untrack(s.tracked, s.tasks[t].session, t),
       free := if Holds(s.tasks[t].stage) then s.free + 1 else s.free)
  }

  function StatusOf(outcome: Outcome): Status {
    match outcome
    case Returns => Success
    case RefusesInput => InvalidInput
    case RefusedScope => Denied
    case Breaks => Error
  }

  function Cancelled(task: Task): Task {
    if task.stage.Done? then task else task.(cancelled := true)
  }

  /** Cancels the unfinished ones of `ids`. */
  function CancelAll(tasks: seq<Task>, ids: set<nat>): (r: seq<Task>)
    ensures |r| == |tasks|
    ensures forall t :: 0 <= t < |tasks| ==> r[t] == if t in ids then Cancelled(tasks[t]) else tasks[t]
  {
    if tasks == [] then []
    else
      var k := |tasks| - 1;
      CancelAll(tasks[..k], ids) + [if k in ids then Cancelled(tasks[k]) else tasks[k]]
  }

  lemma CancelOneMore(tasks: seq<Task>, ids: set<nat>, t: nat)
    ensures var r := CancelAll(tasks, ids);
      CancelAll(tasks, ids + {t}) == if t < |r| && !r[t].stage.Done? then r[t := r[t].(cancelled := true)] else r
    ensures t < |tasks| ==> CancelAll(tasks, ids)[t].stage == tasks[t].stage
  {
  }

  function Unfinished(tasks: seq<Task>, ids: set<nat>): set<nat> {
    set t | t in ids && t < |tasks| && !tasks[t].stage.Done?
  }

  lemma UnfinishedOneMore(tasks: seq<Task>, ids: set<nat>, t: nat)
    ensures Unfinished(tasks, ids + {t}) ==
      if t < |tasks| && !tasks[t].stage.Done? then Unfinished(tasks, ids) + {t} else Unfinished(tasks, ids)
  {
  }

  /** One step of cancelling `ids` when `todo` is still to be done. */
  lemma CancelNext(tasks: seq<Task>, ids: set<nat>, todo: set<nat>, t: nat)
    requires t in todo && todo <= ids
    ensures var r, left := CancelAll(tasks, ids - todo), ids - (todo - {t});
      && CancelAll(tasks, left) == (if t < |r| && !r[t].stage.Done? then r[t := r[t].(cancelled := true)] else r)
      && Unfinished(tasks, left) ==
         Unfinished(tasks, ids - todo) + (if t < |r| && !r[t].stage.Done? then {t} else {})
  {
    CancelOneMore(tasks, ids - todo, t);
    UnfinishedOneMore(tasks, ids - todo, t);
    assert ids - (todo - {t}) == ids - todo + {t};
  }

  function AllTracked(tracked: map<string, set<nat>>): set<nat> {
    set session, t | session in tracked && t in tracked[session] :: t
  }

  function Cancelling(s: State, ids: set<nat>, tracked: map<string, set<nat>>, session: Option<string>,
                      within: Option<nat>): State
  {
    s.(tasks := CancelAll(s.tasks, ids), tracked := tracked,
       drains := s.drains + [Drain(session, within, Unfinished(s.tasks, ids), false)])
  }

  function Apply(s: State, event: Event): State
    requires Enabled(s, event)
  {
    match event
    case Spawn(session, kind) =>
      s.(tasks := s.tasks + [Task(session, kind, Queued, false, None, false, false, [])],
         tracked := s.tracked[session := TrackedOf(s, session) + {|s.tasks|}])
    case Acquire(t) => Move(s, t, Starting).(free := s.free - 1)
    case OfferDone(t) => End(s, t, s.tasks[t].(stage := Done(Finished)))
    case Begin(t) => Move(s, t, Working)
    case Settle(t, outcome) =>
      s.(tasks := s.tasks[t := s.tasks[t].(stage := Reporting(StatusOf(outcome)), outcome := Some(outcome))])
    case ReportBreaks(t) => s.(tasks := s.tasks[t := s.tasks[t].(stage := Reporting(Error), reportBroke := true)])
    case Reply(t) =>
      if s.peer then Move(s, t, Sending(s.tasks[t].stage.status))
      else End(s, t, s.tasks[t].(stage := Done(Finished), peerless := true))
    case Delivered(t) =>
      End(s, t, s.tasks[t].(stage := Done(Finished), sent := s.tasks[t].sent + [s.tasks[t].stage.status]))
    case Crash(t) => End(s, t, s.tasks[t].(stage := Done(Crashed)))
    case Escape(t, delivered) =>
      var sent := if delivered then s.tasks[t].sent + [s.tasks[t].stage.status] else s.tasks[t].sent;
      End(s, t, s.tasks[t].(stage := Done(Escaped(delivered)), sent := sent))
    case Dissolve(session, within) =>
      Cancelling(s, TrackedOf(s, session), s.tracked - {session}, Some(session), within)
    case Stop => Cancelling(s, AllTracked(s.tracked), map[], None, None)
    case DrainDone(i) => s.(drains := s.drains[i := s.drains[i].(done := true)])
    case PeerDropped(_) => s.(peer := false)
  }

  /** An event that cannot happen changes nothing, so every sequence is a run. */
  function Step(s: State, event: Event): State {
    if Enabled(s, event) then Apply(s, event) else s
  }

  function Run(s: State, events: seq<Event>): State {
    if events == [] then s else Step(Run(s, events[..|events| - 1]), events[|events| - 1])
  }

  lemma RunSnoc(s: State, events: seq<Event>, event: Event)
    ensures Run(s, events + [event]) == Step(Run(s, events), event)
  {
    assert (events + [event])[..|events|] == events;
  }

  // ------------------------------------------------------------------
  // The object
  // ------------------------------------------------------------------

  class BaseAgent {
    const attached: bool
    var peer: bool
    var tasks: seq<Task>
    var tracked: map<string, set<nat>>
    var free: nat
    var drains: seq<Drain>

    constructor (attached: bool, maxConcurrentTasks: nat)
      ensures Current() == Start(attached, maxConcurrentTasks)
    {
      this.attached, peer := attached, true;
      tasks, tracked, free, drains := [], map[], maxConcurrentTasks, [];
    }

    ghost function Current(): State
      reads this
    {
      State(attached, peer, tasks, tracked, free, drains)
    }

    method SpawnTask(session: string, kind: Kind) returns (t: nat)
      modifies this`tasks, this`tracked
      ensures Current() == Step(old(Current()), Spawn(session, kind)) && t == |old(tasks)|
    {
      t := |tasks|;
      tasks := tasks + [Task(session, kind, Queued, false, None, false, false, [])];
      var known := if session in tracked then tracked[session] else {};
      tracked := tracked[session := known + {t}];
    }

    method EnterSemaphore(t: nat)
      requires Enabled(Current(), Acquire(t))
      modifies this`tasks, this`free
      ensures Current() == Step(old(Current()), Acquire(t))
    {
      tasks := tasks[t := tasks[t].(stage := Starting)];
      free := free - 1;
    }

    /** The end of a tracked task: the permit goes back if it was held, and the
        done callback forgets the task. */
    method TaskDone(t: nat, ended: Task)
      requires Live(Current(), t)
      modifies this`tasks, this`free, this`tracked
      ensures Current() == End(old(Current()), t, ended)
    {
      var task := tasks[t];
      if Holds(task.stage) {
        free := free + 1;
      }
      tasks := tasks[t := ended];
      if task.session in tracked {
        tracked := tracked[task.session := tracked[task.session] - {t}];
      }
    }

    /** Validation and the task itself, and the arm that catches what they raise. */
    method SettleTask(t: nat, outcome: Outcome)
      requires Enabled(Current(), Settle(t, outcome))
      modifies this`tasks
      ensures Current() == Step(old(Current()), Settle(t, outcome))
    {
      var status := Success;
      if outcome.RefusesInput? {
        status := InvalidInput;
      } else if outcome.RefusedScope? {
        status := Denied;
      } else if outcome.Breaks? {
        status := Error;
      }
      tasks := tasks[t := tasks[t].(stage := Reporting(status), outcome := Some(outcome))];
    }

    /** The complete is sent only on a connection. */
    method ReplyTask(t: nat)
      requires Enabled(Current(), Reply(t))
      modifies this`tasks, this`free, this`tracked
      ensures Current() == Step(old(Current()), Reply(t))
    {
      var task := tasks[t];
      if peer {
        tasks := tasks[t := task.(stage := Sending(task.stage.status))];
      } else {
        TaskDone(t, task.(stage := Done(Finished), peerless := true));
      }
    }

    /** Cancels what is unfinished among `ids`, one task at a time, and returns what
        has to be awaited. */
    method CancelTasks(ids: set<nat>) returns (pending: set<nat>)
      modifies this`tasks
      ensures tasks == CancelAll(old(tasks), ids)
      ensures pending == Unfinished(old(tasks), ids)
    {
      pending := {};
      ghost var was := tasks;
      var todo := ids;
      while todo != {}
        invariant todo <= ids
        invariant tasks == CancelAll(was, ids - todo)
        invariant pending == Unfinished(was, ids - todo)
        decreases |todo|
      {
        var t :| t in todo;
        CancelNext(was, ids, todo, t);
        todo := todo - {t};
        if t < |tasks| && !tasks[t].stage.Done? {
          tasks := tasks[t := tasks[t].(cancelled := true)];
          pending := pending + {t};
        }
      }
      assert ids - todo == ids;
    }

    /** What dissolving and stopping have in common: the tasks left tracked, and the
        drain that awaits the others. */
    method CancelAndAwait(ids: set<nat>, left: map<string, set<nat>>, session: Option<string>, within: Option<nat>)
      modifies this
      ensures Current() == Cancelling(old(Current()), ids, left, session, within)
    {
      var pending := CancelTasks(ids);
      tracked := left;
      drains := drains + [Drain(session, within, pending, false)];
    }

    /** A dissolve: drop the session's set, cancel what was in it. */
    method CancelSession(session: string, within: Option<nat>)
      requires Enabled(Current(), Dissolve(session, within))
      modifies this
      ensures Current() == Step(old(Current()), Dissolve(session, within))
    {
      var ids := if session in tracked then tracked[session] else {};
      CancelAndAwait(ids, tracked - {session}, Some(session), within);
    }

    /** A stop: session by session, the same for everything tracked. */
    method CancelEverything()
      modifies this
      ensures Current() == Step(old(Current()), Stop)
    {
      CancelAndAwait(AllTracked(tracked), map[], None, None);
    }
  }

  // ------------------------------------------------------------------
  // What every run keeps
  // ------------------------------------------------------------------

  /** Permits held. */
  function Held(tasks: seq<Task>): nat {
    if tasks == [] then 0
    else Held(tasks[..|tasks| - 1]) + (if Holds(tasks[|tasks| - 1].stage) then 1 else 0)
  }

  lemma {:induction false} HeldUpdate(tasks: seq<Task>, t: nat, task: Task)
    requires t < |tasks|
    ensures Held(tasks[t := task]) ==
      Held(tasks) - (if Holds(tasks[t].stage) then 1 else 0) + (if Holds(task.stage) then 1 else 0)
  {
    var k := |tasks| - 1;
    if t == k {
      assert tasks[t := task][..k] == tasks[..k];
    } else {
      assert tasks[t := task][..k] == tasks[..k][t := task];
      HeldUpdate(tasks[..k], t, task);
    }
  }

  lemma {:induction false} HeldSameStages(a: seq<Task>, b: seq<Task>)
    requires |a| == |b| && forall t :: 0 <= t < |a| ==> a[t].stage == b[t].stage
    ensures Held(a) == Held(b)
  {
    if a != [] {
      HeldSameStages(a[..|a| - 1], b[..|b| - 1]);
    }
  }

  ghost predicate Permits(s: State, limit: nat) {
    s.free + Held(s.tasks) == limit
  }

  /** A live, uncancelled task of the session. */
  ghost predicate Owned(s: State, session: string, t: nat) {
    Live(s, t) && !s.tasks[t].cancelled && s.tasks[t].session == session
  }

  ghost predicate Awaited(s: State, t: nat) {
    exists i :: 0 <= i < |s.drains| && !s.drains[i].done && t in s.drains[i].pending
  }

  /** If live, the task is tracked under its session, or cancelled and awaited. */
  ghost predicate Accounted(s: State, t: nat) {
    Live(s, t) ==> if s.tasks[t].cancelled then Awaited(s, t) else t in TrackedOf(s, s.tasks[t].session)
  }

  ghost predicate Tracking(s: State) {
    && (forall session, t: nat :: session in s.tracked && t in s.tracked[session] ==> Owned(s, session, t))
    && (forall t: nat :: Accounted(s, t))
  }

  /** The status an execution settles on. */
  function FinalStatus(task: Task): Status
    requires task.outcome.Some?
  {
    if task.reportBroke then Error else StatusOf(task.outcome.value)
  }

  /** The handler came to the end with a connection, or its cancellation hit it
      when the message had left. */
  predicate Replied(task: Task) {
    task.kind == Executing
    && ((task.stage == Done(Finished) && !task.peerless) || task.stage == Done(Escaped(true)))
  }

  /** What its stage says of an execution. */
  ghost predicate Progress(task: Task) {
    && (task.reportBroke ==> task.outcome == Some(Returns))
    && (task.peerless ==> task.stage == Done(Finished))
    && match task.stage
       case Queued | Starting => task.sent == [] && task.outcome.None?
       case Working => task.sent == [] && task.outcome.None? && task.kind == Executing
       case Reporting(_) | Sending(_) =>
         task.sent == [] && task.outcome.Some? && task.kind == Executing
         && task.stage.status == FinalStatus(task)
       case Done(_) =>
         if Replied(task) then task.outcome.Some? && task.sent == [FinalStatus(task)] else task.sent == []
  }

  /** The connection is there unless a stop dropped it, which only attached agents
      do; and a task that found none proves it is gone. */
  ghost predicate Connection(s: State) {
    && (!s.peer ==> s.attached && exists i :: 0 <= i < |s.drains| && s.drains[i].done && s.drains[i].session.None?)
    && (s.peer ==> forall t :: 0 <= t < |s.tasks| ==> !s.tasks[t].peerless)
  }

  ghost predicate Marked(s: State, t: nat) {
    t < |s.tasks| && s.tasks[t].cancelled
  }

  /** A drain's tasks are cancelled, and so is the one that handles it, which does not
      end before the drain does. */
  ghost predicate Sound(s: State, drain: Drain) {
    && (forall t :: t in drain.pending ==> Marked(s, t))
    && (drain.within.Some? ==> Marked(s, drain.within.value) && (drain.done || Live(s, drain.within.value)))
  }

  /** What an earlier drain awaits, and what handles it, no later one awaits. */
  predicate Apart(earlier: Drain, later: Drain) {
    earlier.pending !! later.pending && (earlier.within.Some? ==> earlier.within.value !in later.pending)
  }

  ghost predicate Nesting(s: State) {
    && (forall i :: 0 <= i < |s.drains| ==> Sound(s, s.drains[i]))
    && (forall i, j :: 0 <= i < j < |s.drains| ==> Apart(s.drains[i], s.drains[j]))
  }

  ghost predicate Inv(s: State, limit: nat) {
    && Permits(s, limit)
    && Tracking(s)
    && Nesting(s)
    && (forall t :: 0 <= t < |s.tasks| ==> Progress(s.tasks[t]))
    && Connection(s)
  }

  lemma SpawnKeepsInv(s: State, event: Event, limit: nat)
    requires Inv(s, limit) && event.Spawn?
    ensures Inv(Apply(s, event), limit)
  {
    var r := Apply(s, event);
    assert r.tasks[..|s.tasks|] == s.tasks;
    NestingKept(s, r);
    SpawnKeepsTracking(s, event);
  }

  lemma SpawnKeepsTracking(s: State, event: Event)
    requires Tracking(s) && event.Spawn?
    ensures Tracking(Apply(s, event))
  {
    var r := Apply(s, event);
    forall session, t: nat | session in r.tracked && t in r.tracked[session] ensures Owned(r, session, t) {
      if t < |s.tasks| { assert Owned(s, session, t); }
    }
    forall t: nat ensures Accounted(r, t) {
      assert Accounted(s, t);
    }
  }

  /** A step of one task, or a new one, leaves the drains as they were. */
  lemma NestingKept(s: State, r: State)
    requires Nesting(s) && r.drains == s.drains && |s.tasks| <= |r.tasks|
    requires forall t :: 0 <= t < |s.tasks| ==> r.tasks[t].cancelled == s.tasks[t].cancelled
    requires forall t :: 0 <= t < |s.tasks| && !Unblocked(s, t) ==> r.tasks[t] == s.tasks[t]
    ensures Nesting(r)
  {
    forall i | 0 <= i < |r.drains| ensures Sound(r, r.drains[i]) {
      var d := s.drains[i];
      assert Sound(s, d);
      forall t | t in d.pending ensures Marked(r, t) { assert Marked(s, t); }
    }
  }

  /** Changing one live task otherwise than in its session, cancellation or life. */
  lemma MoveKeepsTracking(s: State, t: nat, task: Task, free: nat)
    requires Tracking(s) && Live(s, t)
    requires !task.stage.Done? && task.session == s.tasks[t].session && task.cancelled == s.tasks[t].cancelled
    ensures Tracking(s.(tasks := s.tasks[t := task], free := free))
  {
    var r := s.(tasks := s.tasks[t := task], free := free);
    forall session, i: nat | session in r.tracked && i in r.tracked[session] ensures Owned(r, session, i) {
      assert Owned(s, session, i);
    }
    forall i: nat ensures Accounted(r, i) {
      assert Accounted(s, i);
    }
  }

  /** The steps of a task that do not end it. */
  predicate Moves(s: State, event: Event) {
    event.Acquire? || event.Begin? || event.Settle? || event.ReportBreaks? || (event.Reply? && s.peer)
  }

  lemma MoveKeepsPermits(s: State, event: Event, limit: nat)
    requires Permits(s, limit) && Enabled(s, event) && Moves(s, event)
    ensures Permits(Apply(s, event), limit)
  {
    var t, r := event.task, Apply(s, event);
    HeldUpdate(s.tasks, t, r.tasks[t]);
    assert r.tasks == s.tasks[t := r.tasks[t]];
  }

  lemma MoveProgresses(s: State, event: Event)
    requires Enabled(s, event) && Moves(s, event) && Progress(s.tasks[event.task])
    ensures Progress(Apply(s, event).tasks[event.task])
    ensures Apply(s, event).tasks[event.task].peerless == s.tasks[event.task].peerless
  {
  }

  lemma MoveKeepsInv(s: State, event: Event, limit: nat)
    requires Inv(s, limit) && Enabled(s, event) && Moves(s, event)
    ensures Inv(Apply(s, event), limit)
  {
    var t, r := event.task, Apply(s, event);
    assert r == s.(tasks := s.tasks[t := r.tasks[t]], free := r.free);
    MoveKeepsPermits(s, event, limit);
    MoveKeepsTracking(s, t, r.tasks[t], r.free);
    NestingKept(s, r);
    MoveProgresses(s, event);
    ConnectionKept(s, r);
  }

  lemma EndKeepsTracking(s: State, t: nat, task: Task)
    requires Tracking(s) && Live(s, t) && task.stage.Done?
    ensures Tracking(End(s, t, task))
  {
    var r := End(s, t, task);
    assert r.tracked.Keys == s.tracked.Keys;
    forall session, i: nat | session in r.tracked && i in r.tracked[session] ensures Owned(r, session, i) {
      assert Owned(s, session, i);
    }
    forall i: nat ensures Accounted(r, i) {
      assert Accounted(s, i);
    }
  }

  lemma EndKeepsInv(s: State, t: nat, task: Task, limit: nat)
    requires Inv(s, limit) && Ready(s, t) && task.stage.Done? && task.cancelled == s.tasks[t].cancelled
    requires Progress(task) && (s.peer ==> !task.peerless)
    ensures Inv(End(s, t, task), limit)
  {
    HeldUpdate(s.tasks, t, task);
    EndKeepsTracking(s, t, task);
    NestingKept(s, End(s, t, task));
  }

  lemma EndingKeepsInv(s: State, event: Event, limit: nat)
    requires Inv(s, limit) && Enabled(s, event)
    requires event.OfferDone? || event.Delivered? || event.Crash? || event.Escape? || (event.Reply? && !s.peer)
    ensures Inv(Apply(s, event), limit)
  {
    var t := event.task;
    var ended := Apply(s, event).tasks[t];
    assert Progress(s.tasks[t]);
    assert Apply(s, event) == End(s, t, ended);
    EndKeepsInv(s, t, ended, limit);
  }

  /** What cancelling does to every task. */
  lemma CancelKeeps(s: State, ids: set<nat>)
    requires forall t :: 0 <= t < |s.tasks| ==> Progress(s.tasks[t])
    ensures Held(CancelAll(s.tasks, ids)) == Held(s.tasks)
    ensures forall t :: 0 <= t < |s.tasks| ==> Progress(CancelAll(s.tasks, ids)[t])
    ensures forall t :: 0 <= t < |s.tasks| ==> CancelAll(s.tasks, ids)[t].peerless == s.tasks[t].peerless
  {
    HeldSameStages(s.tasks, CancelAll(s.tasks, ids));
    forall t | 0 <= t < |s.tasks| ensures Progress(CancelAll(s.tasks, ids)[t]) {
      CancelledProgresses(s.tasks[t]);
    }
  }

  lemma CancelledProgresses(task: Task)
    requires Progress(task)
    ensures Progress(Cancelled(task)) && Cancelled(task).peerless == task.peerless
  {
  }

  lemma StillAwaited(s: State, r: State, t: nat)
    requires s.drains <= r.drains && Awaited(s, t)
    ensures Awaited(r, t)
  {
    var i :| 0 <= i < |s.drains| && !s.drains[i].done && t in s.drains[i].pending;
    assert r.drains[i] == s.drains[i];
  }

  lemma NewlyAwaited(r: State, t: nat)
    requires r.drains != [] && !r.drains[|r.drains| - 1].done && t in r.drains[|r.drains| - 1].pending
    ensures Awaited(r, t)
  {
  }

  lemma ConnectionKept(s: State, r: State)
    requires Connection(s) && r.peer == s.peer && r.attached == s.attached
    requires |s.drains| <= |r.drains|
    requires forall i :: 0 <= i < |s.drains| && s.drains[i].done ==> r.drains[i] == s.drains[i]
    requires |r.tasks| == |s.tasks| && forall t :: 0 <= t < |s.tasks| ==> r.tasks[t].peerless == s.tasks[t].peerless
    ensures Connection(r)
  {
    if !s.peer {
      var i :| 0 <= i < |s.drains| && s.drains[i].done && s.drains[i].session.None?;
      assert r.drains[i] == s.drains[i];
    }
  }

  /** What is still tracked is untouched, and what no longer is gets cancelled; it was
      not before. */
  ghost predicate Splits(s: State, ids: set<nat>, tracked: map<string, set<nat>>) {
    && (forall t :: t in ids ==> !Marked(s, t))
    && (forall x :: x in tracked ==> x in s.tracked && tracked[x] == s.tracked[x])
    && (forall x, t: nat :: x in tracked && t in tracked[x] ==> t !in ids)
    && (forall x, t: nat :: x in s.tracked && x !in tracked && t in s.tracked[x] ==> t in ids)
  }

  lemma CancellingKeepsTracking(s: State, ids: set<nat>, tracked: map<string, set<nat>>, session: Option<string>,
                                within: Option<nat>)
    requires Tracking(s) && Splits(s, ids, tracked)
    ensures Tracking(Cancelling(s, ids, tracked, session, within))
  {
    var r := Cancelling(s, ids, tracked, session, within);
    forall x, i: nat | x in r.tracked && i in r.tracked[x] ensures Owned(r, x, i) {
      assert Owned(s, x, i);
    }
    forall i: nat ensures Accounted(r, i) {
      assert Accounted(s, i);
      if Live(s, i) {
        if s.tasks[i].cancelled {
          StillAwaited(s, r, i);
        } else if i in ids {
          NewlyAwaited(r, i);
        }
      }
    }
  }

  lemma CancellingKeepsInv(s: State, ids: set<nat>, tracked: map<string, set<nat>>, session: Option<string>,
                           within: Option<nat>, limit: nat)
    requires Inv(s, limit) && Splits(s, ids, tracked)
    requires within.Some? ==>
      Live(s, within.value) && (s.tasks[within.value].cancelled || within.value in ids)
    ensures Inv(Cancelling(s, ids, tracked, session, within), limit)
  {
    CancelKeeps(s, ids);
    ConnectionKept(s, Cancelling(s, ids, tracked, session, within));
    CancellingKeepsTracking(s, ids, tracked, session, within);
    CancellingKeepsNesting(s, ids, tracked, session, within);
  }

  lemma CancellingKeepsNesting(s: State, ids: set<nat>, tracked: map<string, set<nat>>, session: Option<string>,
                               within: Option<nat>)
    requires Tracking(s) && Nesting(s) && Splits(s, ids, tracked)
    requires within.Some? ==> Live(s, within.value) && (s.tasks[within.value].cancelled || within.value in ids)
    ensures Nesting(Cancelling(s, ids, tracked, session, within))
  {
    var r := Cancelling(s, ids, tracked, session, within);
    forall i | 0 <= i < |s.drains| ensures Sound(r, r.drains[i]) && Apart(r.drains[i], r.drains[|s.drains|]) {
      assert r.drains[i] == s.drains[i] && Sound(s, s.drains[i]);
      forall t | t in s.drains[i].pending ensures Marked(r, t) { assert Marked(s, t); }
    }
  }

  lemma DissolveSplits(s: State, session: string)
    requires Tracking(s)
    ensures Splits(s, TrackedOf(s, session), s.tracked - {session})
  {
    forall t | t in TrackedOf(s, session) ensures !Marked(s, t) { assert Owned(s, session, t); }
    forall x, t: nat | x in s.tracked && x != session && t in s.tracked[x] ensures t !in TrackedOf(s, session) {
      assert Owned(s, x, t);
    }
  }

  lemma StopSplits(s: State)
    requires Tracking(s)
    ensures Splits(s, AllTracked(s.tracked), map[])
  {
    forall t | t in AllTracked(s.tracked) ensures !Marked(s, t) {
      var x :| x in s.tracked && t in s.tracked[x];
      assert Owned(s, x, t);
    }
  }

  lemma DrainKeepsNesting(s: State, event: Event)
    requires Nesting(s) && Enabled(s, event) && event.DrainDone?
    ensures Nesting(Apply(s, event))
  {
    var r := Apply(s, event);
    forall i | 0 <= i < |r.drains| ensures Sound(r, r.drains[i]) {
      assert Sound(s, s.drains[i]);
      forall t | t in r.drains[i].pending ensures Marked(r, t) { assert Marked(s, t); }
    }
    forall i, j | 0 <= i < j < |r.drains| ensures Apart(r.drains[i], r.drains[j]) {
      assert Apart(s.drains[i], s.drains[j]);
    }
  }

  lemma DrainKeepsInv(s: State, event: Event, limit: nat)
    requires Inv(s, limit) && Enabled(s, event) && event.DrainDone?
    ensures Inv(Apply(s, event), limit)
  {
    var r := Apply(s, event);
    ConnectionKept(s, r);
    DrainKeepsNesting(s, event);
    forall session, i: nat | session in r.tracked && i in r.tracked[session] ensures Owned(r, session, i) {
      assert Owned(s, session, i);
    }
    forall i: nat ensures Accounted(r, i) {
      assert Accounted(s, i);
      if Live(s, i) && s.tasks[i].cancelled {
        var j :| 0 <= j < |s.drains| && !s.drains[j].done && i in s.drains[j].pending;
        assert j != event.drain && r.drains[j] == s.drains[j];
      }
    }
  }

  lemma PeerKeepsInv(s: State, event: Event, limit: nat)
    requires Inv(s, limit) && Enabled(s, event) && event.PeerDropped?
    ensures Inv(Apply(s, event), limit)
  {
    var r := Apply(s, event);
    NestingKept(s, r);
    forall session, i: nat | session in r.tracked && i in r.tracked[session] ensures Owned(r, session, i) {
      assert Owned(s, session, i);
    }
    forall i: nat ensures Accounted(r, i) {
      assert Accounted(s, i);
      if Live(s, i) && s.tasks[i].cancelled { StillAwaited(s, r, i); }
    }
  }

  lemma StepKeepsInv(s: State, event: Event, limit: nat)
    requires Inv(s, limit)
    ensures Inv(Step(s, event), limit)
  {
    if Enabled(s, event) {
      if event.Spawn? {
        SpawnKeepsInv(s, event, limit);
      } else if event.Dissolve? {
        DissolveSplits(s, event.session);
        if event.within.Some? { assert Accounted(s, event.within.value); }
        CancellingKeepsInv(s, TrackedOf(s, event.session), s.tracked - {event.session}, Some(event.session),
                           event.within, limit);
      } else if event.Stop? {
        StopSplits(s);
        CancellingKeepsInv(s, AllTracked(s.tracked), map[], None, None, limit);
      } else if event.DrainDone? {
        DrainKeepsInv(s, event, limit);
      } else if event.PeerDropped? {
        PeerKeepsInv(s, event, limit);
      } else if Moves(s, event) {
        MoveKeepsInv(s, event, limit);
      } else {
        EndingKeepsInv(s, event, limit);
      }
    }
  }

  lemma {:induction false} EventsKeepInv(s: State, events: seq<Event>, limit: nat)
    requires Inv(s, limit)
    ensures Inv(Run(s, events), limit)
  {
    if events != [] {
      EventsKeepInv(s, events[..|events| - 1], limit);
      StepKeepsInv(Run(s, events[..|events| - 1]), events[|events| - 1], limit);
    }
  }

  lemma {:induction false} RunKeepsInv(attached: bool, limit: nat, events: seq<Event>)
    ensures Inv(Run(Start(attached, limit), events), limit)
  {
    EventsKeepInv(Start(attached, limit), events, limit);
  }

  // ------------------------------------------------------------------
  // What no step undoes
  // ------------------------------------------------------------------

  ghost predicate TaskLater(a: Task, b: Task) {
    && b.session == a.session
    && (a.stage.Done? ==> b == a)
    && (a.cancelled ==> b.cancelled)
  }

  /** Tasks and drains are only added; sessions, ends, cancellations, and what a
      drain awaits stay. */
  ghost predicate Later(s: State, r: State) {
    && r.attached == s.attached
    && |s.tasks| <= |r.tasks| && |s.drains| <= |r.drains|
    && (forall t :: 0 <= t < |s.tasks| ==> TaskLater(s.tasks[t], r.tasks[t]))
    && (forall i :: 0 <= i < |s.drains| ==>
         && r.drains[i].pending == s.drains[i].pending && r.drains[i].within == s.drains[i].within
         && r.drains[i].session == s.drains[i].session && (s.drains[i].done ==> r.drains[i].done))
  }

  lemma CancellingIsLater(s: State, ids: set<nat>, tracked: map<string, set<nat>>, session: Option<string>,
                          within: Option<nat>)
    ensures Later(s, Cancelling(s, ids, tracked, session, within))
  {
  }

  lemma UpdateIsLater(s: State, r: State, t: nat)
    requires Live(s, t) && |r.tasks| == |s.tasks| && r.attached == s.attached && r.drains == s.drains
    requires forall i :: 0 <= i < |s.tasks| && i != t ==> r.tasks[i] == s.tasks[i]
    requires r.tasks[t].session == s.tasks[t].session && r.tasks[t].cancelled == s.tasks[t].cancelled
    ensures Later(s, r)
  {
  }

  lemma StepIsLater(s: State, event: Event)
    ensures Later(s, Step(s, event))
  {
    if !Enabled(s, event) {
    } else if event.Dissolve? {
      CancellingIsLater(s, TrackedOf(s, event.session), s.tracked - {event.session}, Some(event.session), event.within);
    } else if event.Stop? {
      CancellingIsLater(s, AllTracked(s.tracked), map[], None, None);
    } else if !event.Spawn? && !event.DrainDone? && !event.PeerDropped? {
      UpdateIsLater(s, Step(s, event), event.task);
    }
  }

  lemma {:induction false} RunIsLater(s: State, events: seq<Event>)
    ensures Later(s, Run(s, events))
  {
    if events != [] {
      RunIsLater(s, events[..|events| - 1]);
      StepIsLater(Run(s, events[..|events| - 1]), events[|events| - 1]);
    }
  }

  predicate NoSpawnOf(events: seq<Event>, session: string) {
    forall i :: 0 <= i < |events| ==> events[i].Spawn? ==> events[i].session != session
  }

  lemma NewTaskElsewhere(s: State, event: Event, session: string)
    requires event.Spawn? ==> event.session != session
    ensures |s.tasks| <= |Step(s, event).tasks|
    ensures forall t :: 0 <= t < |s.tasks| ==> Step(s, event).tasks[t].session == s.tasks[t].session
    ensures forall t :: |s.tasks| <= t < |Step(s, event).tasks| ==> Step(s, event).tasks[t].session != session
  {
    StepIsLater(s, event);
  }

  lemma {:induction false} NewTasksElsewhere(s: State, events: seq<Event>, session: string)
    requires NoSpawnOf(events, session)
    ensures forall t :: |s.tasks| <= t < |Run(s, events).tasks| ==> Run(s, events).tasks[t].session != session
  {
    if events != [] {
      NewTasksElsewhere(s, events[..|events| - 1], session);
      RunIsLater(s, events[..|events| - 1]);
      NewTaskElsewhere(Run(s, events[..|events| - 1]), events[|events| - 1], session);
    }
  }

  /** Cancelled before it got a permit: still queued, or ended there. */
  predicate NeverStarted(task: Task) {
    task.cancelled && (task.stage == Queued || task.stage == Done(Escaped(false))) && task.sent == []
  }

  lemma StepNeverStarts(s: State, event: Event, t: nat)
    requires t < |s.tasks| && NeverStarted(s.tasks[t])
    ensures t < |Step(s, event).tasks| && NeverStarted(Step(s, event).tasks[t])
  {
  }

  /** A task cancelled while it waits for a permit never runs and sends nothing. */
  lemma {:induction false} CancelledInQueueNeverStarts(s: State, events: seq<Event>, t: nat)
    requires t < |s.tasks| && s.tasks[t].cancelled && s.tasks[t].stage == Queued && s.tasks[t].sent == []
    ensures t < |Run(s, events).tasks| && NeverStarted(Run(s, events).tasks[t])
  {
    if events != [] {
      CancelledInQueueNeverStarts(s, events[..|events| - 1], t);
      StepNeverStarts(Run(s, events[..|events| - 1]), events[|events| - 1], t);
    }
  }

  // ------------------------------------------------------------------
  // What an agent promises
  // ------------------------------------------------------------------

  /** Permits held and free always make up the limit. */
  lemma {:induction false} PermitsAreConserved(attached: bool, limit: nat, events: seq<Event>)
    ensures var s := Run(Start(attached, limit), events); s.free + Held(s.tasks) == limit
  {
    RunKeepsInv(attached, limit, events);
  }

  /** Every live task is tracked under its own session, or is being cancelled. */
  lemma {:induction false} LiveTasksAreTracked(attached: bool, limit: nat, events: seq<Event>, t: nat)
    requires Live(Run(Start(attached, limit), events), t)
    ensures var s := Run(Start(attached, limit), events);
      t in TrackedOf(s, s.tasks[t].session) || (s.tasks[t].cancelled && Awaited(s, t))
  {
    RunKeepsInv(attached, limit, events);
    assert Accounted(Run(Start(attached, limit), events), t);
  }

  ghost predicate NoLive(s: State, session: string) {
    forall t: nat :: Live(s, t) ==> s.tasks[t].session != session
  }

  /** When the given drain ends after these events, among which nothing is spawned
      for the session, none of its tasks is alive. */
  ghost predicate EndsWithNone(s: State, events: seq<Event>, drain: nat, session: string) {
    NoSpawnOf(events, session) && Enabled(Run(s, events), DrainDone(drain)) ==> NoLive(Run(s, events), session)
  }

  ghost predicate NoneCancelled(s: State, session: string) {
    forall t: nat :: Live(s, t) && s.tasks[t].session == session ==> !s.tasks[t].cancelled
  }

  /** The dissolve is handled in a task that it cancels. */
  predicate SelfAwaiting(s: State, session: string, within: Option<nat>) {
    within.Some? && within.value in TrackedOf(s, session)
  }

  /** However a dissolve is handled, when it ends no task of its session is alive,
      whatever happens meanwhile short of spawning one, exactly when no earlier
      dissolve or stop is still cancelling a task of that session, or it never ends. */
  lemma {:induction false} DissolveLeavesNoTask(attached: bool, limit: nat, before: seq<Event>, session: string,
                                                within: Option<nat>)
    requires Enabled(Run(Start(attached, limit), before), Dissolve(session, within))
    ensures var s := Run(Start(attached, limit), before);
      (forall events :: EndsWithNone(Step(s, Dissolve(session, within)), events, |s.drains|, session))
      <==> NoneCancelled(s, session) || SelfAwaiting(s, session, within)
  {
    var s := Run(Start(attached, limit), before);
    var s1 := Step(s, Dissolve(session, within));
    RunKeepsInv(attached, limit, before);
    StepKeepsInv(s, Dissolve(session, within), limit);
    if SelfAwaiting(s, session, within) {
      DissolveAwaits(s, session, within, within.value, limit);
      forall events ensures EndsWithNone(s1, events, |s.drains|, session) {
        SelfAwaitingStays(s1, |s.drains|, events, limit);
      }
    } else if NoneCancelled(s, session) {
      forall events ensures EndsWithNone(s1, events, |s.drains|, session) {
        DissolveDrains(s, session, within, events, limit);
      }
    } else {
      var t: nat :| Live(s, t) && s.tasks[t].session == session && s.tasks[t].cancelled;
      var events := DrainLeaving(s, session, within, t, limit);
    }
  }

  predicate CanEnd(s: State, events: seq<Event>, drain: nat) {
    Enabled(Run(s, events), DrainDone(drain))
  }

  /** The dissolve can end exactly when it is not handled in a task that it cancels. */
  lemma {:induction false} DissolveCanEndExactly(attached: bool, limit: nat, before: seq<Event>, session: string,
                                                 within: Option<nat>)
    requires Enabled(Run(Start(attached, limit), before), Dissolve(session, within))
    ensures var s := Run(Start(attached, limit), before);
      (exists events :: CanEnd(Step(s, Dissolve(session, within)), events, |s.drains|))
      <==> !SelfAwaiting(s, session, within)
  {
    var s := Run(Start(attached, limit), before);
    var s1 := Step(s, Dissolve(session, within));
    RunKeepsInv(attached, limit, before);
    StepKeepsInv(s, Dissolve(session, within), limit);
    if SelfAwaiting(s, session, within) {
      DissolveAwaits(s, session, within, within.value, limit);
      forall events ensures !CanEnd(s1, events, |s.drains|) {
        SelfAwaitingStays(s1, |s.drains|, events, limit);
      }
    } else {
      var events := EndDrain(s1, |s.drains|, limit);
      assert CanEnd(s1, events, |s.drains|);
    }
  }

  ghost predicate Stuck(s: State, i: nat) {
    i < |s.drains| && !s.drains[i].done
    && s.drains[i].within.Some? && s.drains[i].within.value in s.drains[i].pending
  }

  /** Every open drain that does not await the task it is handled in can end, also
      when dissolves are handled in tasks that other drains await. */
  lemma {:induction false} DrainCanEndExactly(attached: bool, limit: nat, before: seq<Event>, drain: nat)
    requires var s := Run(Start(attached, limit), before); drain < |s.drains| && !s.drains[drain].done
    ensures var s := Run(Start(attached, limit), before);
      (exists events :: CanEnd(s, events, drain)) <==> !Stuck(s, drain)
  {
    var s := Run(Start(attached, limit), before);
    RunKeepsInv(attached, limit, before);
    if Stuck(s, drain) {
      forall events ensures !CanEnd(s, events, drain) {
        SelfAwaitingStays(s, drain, events, limit);
      }
    } else {
      var events := EndDrain(s, drain, limit);
      assert CanEnd(s, events, drain);
    }
  }

  /** A drain that awaits the task it is handled in stays open. */
  lemma {:induction false} SelfAwaitingStays(s: State, drain: nat, events: seq<Event>, limit: nat)
    requires Inv(s, limit) && Stuck(s, drain)
    ensures Stuck(Run(s, events), drain) && Inv(Run(s, events), limit)
    ensures !Enabled(Run(s, events), DrainDone(drain))
  {
    if events != [] {
      var r, event := Run(s, events[..|events| - 1]), events[|events| - 1];
      SelfAwaitingStays(s, drain, events[..|events| - 1], limit);
      StepKeepsInv(r, event, limit);
      StepIsLater(r, event);
      StuckStaysOpen(r, drain, event);
    }
    StuckTaskLives(Run(s, events), drain, limit);
  }

  lemma StuckTaskLives(s: State, drain: nat, limit: nat)
    requires Inv(s, limit) && Stuck(s, drain)
    ensures !Enabled(s, DrainDone(drain))
  {
    assert Sound(s, s.drains[drain]);
  }

  lemma StuckStaysOpen(s: State, drain: nat, event: Event)
    requires Stuck(s, drain) && !Enabled(s, DrainDone(drain))
    ensures !Step(s, event).drains[drain].done
  {
  }

  lemma DissolveAwaits(s: State, session: string, within: Option<nat>, t: nat, limit: nat)
    requires Inv(s, limit) && Enabled(s, Dissolve(session, within))
    ensures Owned(s, session, t) <==> t in Step(s, Dissolve(session, within)).drains[|s.drains|].pending
    ensures t in TrackedOf(s, session) <==> Owned(s, session, t)
  {
    assert Accounted(s, t);
  }

  lemma StopAwaits(s: State, t: nat, limit: nat)
    requires Inv(s, limit)
    ensures Live(s, t) && !s.tasks[t].cancelled ==> t in Step(s, Stop).drains[|s.drains|].pending
  {
    assert Accounted(s, t);
    if Live(s, t) && !s.tasks[t].cancelled {
      assert t in s.tracked[s.tasks[t].session] && t in AllTracked(s.tracked);
    }
  }

  lemma {:induction false} DissolveDrains(s: State, session: string, within: Option<nat>, events: seq<Event>,
                                          limit: nat)
    requires Inv(s, limit) && NoneCancelled(s, session) && Enabled(s, Dissolve(session, within))
    ensures EndsWithNone(Step(s, Dissolve(session, within)), events, |s.drains|, session)
  {
    var s1 := Step(s, Dissolve(session, within));
    var r := Run(s1, events);
    if NoSpawnOf(events, session) && Enabled(r, DrainDone(|s.drains|)) {
      forall t: nat | Live(r, t) ensures r.tasks[t].session != session {
        RunIsLater(s1, events);
        NewTasksElsewhere(s1, events, session);
        DissolveAwaits(s, session, within, t, limit);
      }
    }
  }

  // ------------------------------------------------------------------
  // Drains can end
  // ------------------------------------------------------------------

  /** Nothing but the given tasks moves, and nothing is cancelled. */
  ghost predicate OnlyMoves(s: State, r: State, ids: set<nat>) {
    && |r.tasks| == |s.tasks|
    && (forall t :: 0 <= t < |s.tasks| && t !in ids ==> r.tasks[t] == s.tasks[t])
    && (forall t :: 0 <= t < |s.tasks| ==> r.tasks[t].cancelled == s.tasks[t].cancelled)
  }

  lemma EscapeEndsOne(s: State, t: nat)
    requires Ready(s, t) && s.tasks[t].cancelled
    ensures var r := Step(s, Escape(t, false));
      r.drains == s.drains && !Live(r, t) && OnlyMoves(s, r, {t})
  {
  }

  /** The tasks of a set, all of them cancelled and free to move, can end while
      nothing else moves. */
  lemma {:induction false} EndThem(s: State, ids: set<nat>) returns (events: seq<Event>)
    requires forall t :: t in ids && Live(s, t) ==> s.tasks[t].cancelled && Unblocked(s, t)
    ensures forall i :: 0 <= i < |events| ==> events[i].Escape?
    ensures var r := Run(s, events);
      r.drains == s.drains && AllDone(r, ids) && OnlyMoves(s, r, ids)
    decreases |ids|
  {
    events := [];
    if ids != {} {
      var t :| t in ids;
      events := EndThem(s, ids - {t});
      if Live(Run(s, events), t) {
        RunSnoc(s, events, Escape(t, false));
        EndsOneMore(s, Run(s, events), ids, t);
        events := events + [Escape(t, false)];
      }
    }
  }

  lemma EndsOneMore(s: State, mid: State, ids: set<nat>, t: nat)
    requires t in ids && Live(mid, t) && mid.drains == s.drains
    requires AllDone(mid, ids - {t}) && OnlyMoves(s, mid, ids - {t})
    requires Live(s, t) ==> s.tasks[t].cancelled && Unblocked(s, t)
    ensures var r := Step(mid, Escape(t, false));
      r.drains == s.drains && AllDone(r, ids) && OnlyMoves(s, r, ids)
  {
    assert mid.tasks[t] == s.tasks[t];
    assert Unblocked(mid, t);
    EscapeEndsOne(mid, t);
  }

  /** From the given drain on, every drain is over or waits for itself; the earlier
      ones are as they were. */
  ghost predicate Settled(s: State, r: State, from: nat) {
    && |r.drains| == |s.drains|
    && (forall i :: 0 <= i < |s.drains| && i < from ==> r.drains[i] == s.drains[i])
    && (forall i :: 0 <= i < |s.drains| && i >= from ==> r.drains[i].done || Stuck(r, i))
  }

  /** When the later drains are out of the way, what a drain awaits is free to move. */
  lemma AwaitedAreUnblocked(s: State, r: State, drain: nat, t: nat)
    requires Nesting(r) && Settled(s, r, drain + 1)
    requires drain < |s.drains| && !Stuck(r, drain) && !r.drains[drain].done && t in r.drains[drain].pending
    ensures Unblocked(r, t)
  {
    assert forall i :: 0 <= i < drain ==> Apart(r.drains[i], r.drains[drain]);
    assert forall i :: drain < i < |r.drains| ==> Apart(r.drains[drain], r.drains[i]);
  }

  /** The later drains end first, the last of them before the others. */
  lemma {:induction false} SettleDrains(s: State, from: nat, limit: nat) returns (events: seq<Event>)
    requires Inv(s, limit) && from <= |s.drains|
    ensures Settled(s, Run(s, events), from)
    decreases |s.drains| - from, 0
  {
    if from == |s.drains| {
      events := [];
    } else if s.drains[from].done || Stuck(s, from) {
      events := SettleDrains(s, from + 1, limit);
    } else {
      var ending := EndDrain(s, from, limit);
      events := ending + [DrainDone(from)];
      RunSnoc(s, ending, DrainDone(from));
    }
  }

  lemma {:induction false} EndDrain(s: State, drain: nat, limit: nat) returns (events: seq<Event>)
    requires Inv(s, limit) && drain < |s.drains| && !s.drains[drain].done && !Stuck(s, drain)
    ensures Enabled(Run(s, events), DrainDone(drain)) && Settled(s, Run(s, events), drain + 1)
    decreases |s.drains| - drain - 1, 1
  {
    var later := SettleDrains(s, drain + 1, limit);
    var r := Run(s, later);
    EventsKeepInv(s, later, limit);
    assert Sound(r, r.drains[drain]);
    forall t | t in r.drains[drain].pending ensures Marked(r, t) && Unblocked(r, t) {
      AwaitedAreUnblocked(s, r, drain, t);
    }
    var ending := EndThem(r, r.drains[drain].pending);
    events := later + ending;
    RunConcat(s, later, ending);
  }

  lemma {:induction false} RunConcat(s: State, first: seq<Event>, second: seq<Event>)
    ensures Run(s, first + second) == Run(Run(s, first), second)
  {
    if second == [] {
      assert first + second == first;
    } else {
      var k := |second| - 1;
      RunConcat(s, first, second[..k]);
      RunSnoc(s, first + second[..k], second[k]);
      assert first + second[..k] + [second[k]] == first + second;
      assert Run(Run(s, first), second) == Step(Run(Run(s, first), second[..k]), second[k]);
    }
  }

  /** Where an earlier cancellation is still awaited, the dissolve can end first. */
  lemma {:induction false} DrainLeaving(s: State, session: string, within: Option<nat>, t: nat, limit: nat)
    returns (events: seq<Event>)
    requires Inv(s, limit) && Enabled(s, Dissolve(session, within)) && !SelfAwaiting(s, session, within)
    requires Live(s, t) && s.tasks[t].session == session && s.tasks[t].cancelled
    ensures !EndsWithNone(Step(s, Dissolve(session, within)), events, |s.drains|, session)
  {
    var s1 := Step(s, Dissolve(session, within));
    var pending := s1.drains[|s.drains|].pending;
    forall i | i in pending ensures Owned(s, session, i) && Unblocked(s1, i) {
      DissolveAwaits(s, session, within, i, limit);
      UncancelledIsUnblocked(s, i);
    }
    events := EndThem(s1, pending);
    assert Live(Run(s1, events), t);
  }

  lemma UncancelledIsUnblocked(s: State, t: nat)
    requires Nesting(s) && !Marked(s, t)
    ensures forall i :: 0 <= i < |s.drains| ==> s.drains[i].within != Some(t)
  {
    forall i | 0 <= i < |s.drains| ensures s.drains[i].within != Some(t) {
      assert Sound(s, s.drains[i]);
    }
  }

  /** A task spawned for the session during the drain outlives it. */
  lemma {:induction false} SpawnOutlivesDissolve(attached: bool, limit: nat) returns (events: seq<Event>)
    ensures var s := Run(Start(attached, limit), events);
      Enabled(s, DrainDone(0)) && s.drains[0].session == Some("x") && !NoLive(s, "x")
  {
    var s := Start(attached, limit);
    events := [];
    RunSnoc(s, events, Dissolve("x", None));
    events := events + [Dissolve("x", None)];
    RunSnoc(s, events, Spawn("x", Offering));
    events := events + [Spawn("x", Offering)];
    assert Live(Run(s, events), 0);
  }

  /** A dissolve changes no task, and no tracking, of another session. */
  lemma {:induction false} DissolveSparesOthers(attached: bool, limit: nat, events: seq<Event>, session: string,
                                                within: Option<nat>, t: nat)
    requires var s := Run(Start(attached, limit), events); t < |s.tasks| && s.tasks[t].session != session
    ensures var s := Run(Start(attached, limit), events);
      var r := Step(s, Dissolve(session, within));
      && |r.tasks| == |s.tasks| && r.tasks[t] == s.tasks[t]
      && TrackedOf(r, s.tasks[t].session) == TrackedOf(s, s.tasks[t].session)
      && r.free == s.free
  {
    RunKeepsInv(attached, limit, events);
    var s := Run(Start(attached, limit), events);
  }

  /** When a stop has drained, everything alive was spawned after it began, or was
      already being cancelled then. */
  lemma {:induction false} StopDrainsWhatItCancelled(attached: bool, limit: nat, before: seq<Event>, after: seq<Event>,
                                                     t: nat)
    requires var s := Run(Start(attached, limit), before);
      var r := Run(Step(s, Stop), after);
      Enabled(r, DrainDone(|s.drains|)) && Live(r, t)
    ensures var s := Run(Start(attached, limit), before);
      t >= |s.tasks| || s.tasks[t].cancelled
  {
    var s := Run(Start(attached, limit), before);
    var s1 := Step(s, Stop);
    RunKeepsInv(attached, limit, before);
    RunIsLater(s1, after);
    StopAwaits(s, t, limit);
  }

  // ------------------------------------------------------------------
  // Completes
  // ------------------------------------------------------------------

  /** A task that has ended sent one complete, with the status it settled on, if and
      only if it is an execution that came to its end with a connection, or whose
      cancellation came when the message had left; it never sends two. */
  lemma {:induction false} OneCompletePerExecution(attached: bool, limit: nat, events: seq<Event>, t: nat)
    requires t < |Run(Start(attached, limit), events).tasks|
    ensures var task := Run(Start(attached, limit), events).tasks[t];
      if Replied(task) then task.outcome.Some? && task.sent == [FinalStatus(task)] else task.sent == []
  {
    RunKeepsInv(attached, limit, events);
  }

  /** A complete has the status of the outcome it reports. */
  lemma {:induction false} SentSaysOutcome(task: Task)
    requires Progress(task) && task.sent != []
    ensures && (task.sent == [Success] <==> task.outcome == Some(Returns) && !task.reportBroke)
            && (task.sent == [InvalidInput] <==> task.outcome == Some(RefusesInput))
            && (task.sent == [Denied] <==> task.outcome == Some(RefusedScope))
            && (task.sent == [Error] <==>
                task.outcome == Some(Breaks) || (task.outcome == Some(Returns) && task.reportBroke))
  {
    assert task.sent == [task.sent[0]];
  }

  /** What a complete says, on every run: success for a task that returned and could be
      reported, invalid input for one that was refused, denied for a scope that was, and
      an error for everything else. */
  lemma {:induction false} CompleteSaysWhatHappened(attached: bool, limit: nat, events: seq<Event>, t: nat)
    requires t < |Run(Start(attached, limit), events).tasks|
    requires Run(Start(attached, limit), events).tasks[t].sent != []
    ensures var task := Run(Start(attached, limit), events).tasks[t];
      && (task.sent == [Success] <==> task.outcome == Some(Returns) && !task.reportBroke)
      && (task.sent == [InvalidInput] <==> task.outcome == Some(RefusesInput))
      && (task.sent == [Denied] <==> task.outcome == Some(RefusedScope))
      && (task.sent == [Error] <==> task.outcome == Some(Breaks) || (task.outcome == Some(Returns) && task.reportBroke))
  {
    RunKeepsInv(attached, limit, events);
    SentSaysOutcome(Run(Start(attached, limit), events).tasks[t]);
  }

  /** An agent on a socket never lacks a connection, so its executions send exactly
      one complete each, unless cancelled or unable to send. */
  lemma {:induction false} SocketAgentsReply(limit: nat, events: seq<Event>, t: nat)
    requires var s := Run(Start(false, limit), events);
      t < |s.tasks| && s.tasks[t].kind == Executing && s.tasks[t].stage == Done(Finished)
    ensures |Run(Start(false, limit), events).tasks[t].sent| == 1
  {
    RunKeepsInv(false, limit, events);
    RunIsLater(Start(false, limit), events);
    assert Progress(Run(Start(false, limit), events).tasks[t]);
  }

  /** Until a stop has ended, every agent's executions send exactly one complete each,
      unless cancelled or unable to send; an attached agent's too. */
  lemma {:induction false} AgentsReplyUntilStopped(attached: bool, limit: nat, events: seq<Event>, t: nat)
    requires var s := Run(Start(attached, limit), events);
      && t < |s.tasks| && s.tasks[t].kind == Executing && s.tasks[t].stage == Done(Finished)
      && forall i :: 0 <= i < |s.drains| && s.drains[i].session.None? ==> !s.drains[i].done
    ensures |Run(Start(attached, limit), events).tasks[t].sent| == 1
  {
    RunKeepsInv(attached, limit, events);
    assert Progress(Run(Start(attached, limit), events).tasks[t]);
  }

  /** An attached agent that is stopped can end an execution that reached it during
      the stop, neither cancelled nor broken, without a word. */
  lemma {:induction false} StoppedAgentFallsSilent(limit: nat) returns (events: seq<Event>)
    requires limit >= 1
    ensures var task := Run(Start(true, limit), events).tasks;
      |task| == 1 && task[0].stage == Done(Finished) && !task[0].cancelled
      && task[0].outcome == Some(Returns) && task[0].sent == []
  {
    events := StoppedWhileReporting(limit);
    RunSnoc(Start(true, limit), events, Reply(0));
    events := events + [Reply(0)];
  }

  ghost predicate DroppedWith(s: State, task: Task) {
    !s.peer && s.tasks == [task] && s.drains == [Drain(None, None, {}, true)]
  }

  lemma {:induction false} StoppedWhileReporting(limit: nat) returns (events: seq<Event>)
    requires limit >= 1
    ensures DroppedWith(Run(Start(true, limit), events),
                        Task("x", Executing, Reporting(Success), false, Some(Returns), false, false, []))
  {
    events := StoppedWithWork(limit);
    var s := Start(true, limit);
    RunSnoc(s, events, Acquire(0));
    events := events + [Acquire(0)];
    RunSnoc(s, events, Begin(0));
    events := events + [Begin(0)];
    RunSnoc(s, events, Settle(0, Returns));
    events := events + [Settle(0, Returns)];
  }

  lemma {:induction false} StoppedWithWork(limit: nat) returns (events: seq<Event>)
    ensures var s := Run(Start(true, limit), events);
      s.free == limit && DroppedWith(s, Task("x", Executing, Queued, false, None, false, false, []))
  {
    var s := Start(true, limit);
    RunSnoc(s, [], Stop);
    events := [] + [Stop];
    StopOfNothing(s);
    RunSnoc(s, events, Spawn("x", Executing));
    events := events + [Spawn("x", Executing)];
    RunSnoc(s, events, DrainDone(0));
    events := events + [DrainDone(0)];
    RunSnoc(s, events, PeerDropped(0));
    events := events + [PeerDropped(0)];
  }

  lemma StopOfNothing(s: State)
    requires s.tasks == [] && s.drains == []
    ensures Step(s, Stop) == s.(tracked := map[], drains := [Drain(None, None, {}, false)])
  {
    assert Unfinished(s.tasks, AllTracked(s.tracked)) == {};
  }
}
