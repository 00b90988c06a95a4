/** The table of pending completions: dispatches, completes and timeouts of many
    sessions in any interleaving. A plan runs as a chain, so a session dispatches
    only when it awaits nothing. */
module Completions {

  datatype Key = Key(session: string, agent: string)

  /** A complete carries its session and agent. Which dispatch it replies to is
      not on the wire; `answers` is the sender's own knowledge. */
  datatype Message = Message(key: Key, answers: nat)

  datatype Future = Waiting | Answered(message: Message) | TimedOut

  /** `keys[i]` and `futures[i]` belong to the i-th dispatch; `awaiting` says which
      one each session's chain is blocked on. `replied` is what the senders know:
      the dispatches whose complete has arrived. */
  datatype State = State(table: map<Key, nat>, keys: seq<Key>, futures: seq<Future>, awaiting: map<string, nat>,
                         replied: set<nat>)

  datatype Event =
    | Dispatch(key: Key)          // register a future and send the execute
    | SendFailed(session: string) // the send raised: the chain goes on, the entry stays
    | Complete(message: Message)
    | Resume(session: string)     // the chain picks up its answer
    | Timeout(session: string)

  const EMPTY := State(map[], [], [], map[], {})

  predicate Enabled(s: State, event: Event) {
    match event
    case Dispatch(key) => key.session !in s.awaiting
    case Complete(_) => true
    case SendFailed(session) => session in s.awaiting
    case Timeout(session) => Blocked(s, session)
    case Resume(session) =>
      session in s.awaiting && s.awaiting[session] < |s.futures| && s.futures[s.awaiting[session]].Answered?
  }

  predicate Blocked(s: State, session: string) {
    session in s.awaiting && s.awaiting[session] < |s.futures| == |s.keys| && s.futures[s.awaiting[session]].Waiting?
  }

  /** The sender replies to a dispatch it was sent, and has not replied to yet. */
  predicate Honest(s: State, m: Message) {
    m.answers < |s.keys| && s.keys[m.answers] == m.key && m.answers !in s.replied
  }

  function Without(table: map<Key, nat>, key: Key): map<Key, nat> {
    table - {key}
  }

  function Step(s: State, event: Event): State
    requires Enabled(s, event)
  {
    match event
    case Dispatch(key) =>
      State(s.table[key := |s.futures|], s.keys + [key], s.futures + [Waiting],
            s.awaiting[key.session := |s.futures|], s.replied)
    case SendFailed(session) => s.(awaiting := s.awaiting - {session})
    case Complete(message) =>
      var s1 := s.(replied := if Honest(s, message) then s.replied + {message.answers} else s.replied);
      if message.key !in s.table then s1
      else
        var id := s.table[message.key];
        s1.(table := Without(s.table, message.key),
            futures := if id < |s.futures| && s.futures[id].Waiting? then s.futures[id := Answered(message)]
                       else s.futures)
    case Resume(session) => s.(awaiting := s.awaiting - {session})
    case Timeout(session) =>
      var id := s.awaiting[session];
      s.(table := Without(s.table, s.keys[id]), futures := s.futures[id := TimedOut],
         awaiting := s.awaiting - {session})
  }

  /** The last event takes `before` to `s`. */
  ghost predicate Precedes(events: seq<Event>, before: State, s: State)
    requires events != []
  {
    Enabled(before, events[|events| - 1]) && s == Step(before, events[|events| - 1])
  }

  /** A run from the empty table: every event enabled when it happens. */
  ghost predicate Reaches(events: seq<Event>, s: State)
    decreases |events|
  {
    if events == [] then s == EMPTY
    else exists before :: Precedes(events, before, s) && Reaches(events[..|events| - 1], before)
  }

  // ------------------------------------------------------------------
  // The object
  // ------------------------------------------------------------------

  class CompletionTable {
    var table: map<Key, nat>
    var keys: seq<Key>
    var futures: seq<Future>
    var awaiting: map<string, nat>
    ghost var replied: set<nat>

    constructor ()
      ensures Current() == EMPTY
    {
      table, keys, futures, awaiting, replied := map[], [], [], map[], {};
    }

    ghost function Current(): State
      reads this
    {
      State(table, keys, futures, awaiting, replied)
    }

    method Register(key: Key) returns (id: nat)
      requires Enabled(Current(), Dispatch(key))
      modifies this
      ensures Current() == Step(old(Current()), Dispatch(key)) && id == |old(futures)|
    {
      id := |futures|;
      keys, futures := keys + [key], futures + [Waiting];
      table := table[key := id];
      awaiting := awaiting[key.session := id];
    }

    method HandleComplete(message: Message)
      modifies this`table, this`futures, this`replied
      ensures Current() == Step(old(Current()), Complete(message))
    {
      if Honest(Current(), message) {
        replied := replied + {message.answers};
      }
      if message.key in table {
        var id := table[message.key];
        table := table - {message.key};
        if id < |futures| && futures[id].Waiting? {
          futures := futures[id := Answered(message)];
        }
      }
    }

    /** The wait ran out: the dispatch withdraws its entry. */
    method HandleTimeout(session: string)
      requires Inv(Current()) && Enabled(Current(), Timeout(session))
      modifies this
      ensures Current() == Step(old(Current()), Timeout(session))
    {
      var id := awaiting[session];
      futures := futures[id := TimedOut];
      table := table - {keys[id]};
      awaiting := awaiting - {session};
    }

    /** The chain moves on, with an answer or because the send raised; the table is
        not touched. */
    method LeaveWait(session: string)
      requires session in awaiting
      modifies this`awaiting
      ensures Current() == Step(old(Current()), SendFailed(session))
      ensures old(Enabled(Current(), Resume(session))) ==> Current() == Step(old(Current()), Resume(session))
    {
      awaiting := awaiting - {session};
    }
  }

  // ------------------------------------------------------------------
  // What every run keeps
  // ------------------------------------------------------------------

  /** Every entry points at its own unanswered dispatch, and every blocked chain
      has its entry. */
  ghost predicate Inv(s: State) {
    && |s.keys| == |s.futures|
    && (forall key :: key in s.table ==>
         s.table[key] < |s.keys| && s.keys[s.table[key]] == key && s.futures[s.table[key]].Waiting?)
    && (forall session :: session in s.awaiting ==>
         s.awaiting[session] < |s.keys| && s.keys[s.awaiting[session]].session == session)
    && (forall session :: Blocked(s, session) ==>
         s.keys[s.awaiting[session]] in s.table && s.table[s.keys[s.awaiting[session]]] == s.awaiting[session])
    && (forall i :: 0 <= i < |s.futures| && s.futures[i].Answered? ==> s.futures[i].message.key == s.keys[i])
    && (forall i :: i in s.replied ==> i < |s.keys|)
  }

  lemma DispatchKeepsInv(s: State, event: Event)
    requires Inv(s) && Enabled(s, event) && event.Dispatch?
    ensures Inv(Step(s, event))
  {
    var t := Step(s, event);
    forall session | Blocked(t, session)
      ensures t.keys[t.awaiting[session]] in t.table && t.table[t.keys[t.awaiting[session]]] == t.awaiting[session]
    {
      if session != event.key.session { assert Blocked(s, session); }
    }
  }

  lemma CompleteKeepsInv(s: State, event: Event)
    requires Inv(s) && event.Complete?
    ensures Inv(Step(s, event))
  {
    var t := Step(s, event);
    if event.message.key in s.table {
      assert t.table == s.table - {event.message.key};
      forall session | Blocked(t, session)
        ensures t.keys[t.awaiting[session]] in t.table && t.table[t.keys[t.awaiting[session]]] == t.awaiting[session]
      {
        assert Blocked(s, session);
      }
    } else {
      SameFutures(s, t);
    }
  }

  lemma TimeoutKeepsInv(s: State, event: Event)
    requires Inv(s) && Enabled(s, event) && event.Timeout?
    ensures Inv(Step(s, event))
  {
    var t := Step(s, event);
    assert t.table == s.table - {s.keys[s.awaiting[event.session]]};
    forall session | Blocked(t, session)
      ensures t.keys[t.awaiting[session]] in t.table && t.table[t.keys[t.awaiting[session]]] == t.awaiting[session]
    {
      assert Blocked(s, session);
    }
  }

  lemma {:induction false} StepKeepsInv(s: State, event: Event)
    requires Inv(s) && Enabled(s, event)
    ensures Inv(Step(s, event))
  {
    match event
    case Dispatch(_) => DispatchKeepsInv(s, event);
    case Complete(_) => CompleteKeepsInv(s, event);
    case Timeout(_) => TimeoutKeepsInv(s, event);
    case SendFailed(_) => SameFutures(s, Step(s, event));
    case Resume(_) => SameFutures(s, Step(s, event));
  }

  lemma SameFutures(s: State, t: State)
    requires Inv(s) && t.table == s.table && t.keys == s.keys && t.futures == s.futures
    requires forall i :: i in t.replied ==> i < |t.keys|
    requires t.awaiting.Keys <= s.awaiting.Keys
    requires forall x :: x in t.awaiting ==> t.awaiting[x] == s.awaiting[x]
    ensures Inv(t)
  {
  }

  lemma {:induction false} EveryRunKeepsInv(events: seq<Event>, s: State)
    requires Reaches(events, s)
    ensures Inv(s)
    decreases |events|
  {
    if events != [] {
      var before :| Precedes(events, before, s) && Reaches(events[..|events| - 1], before);
      EveryRunKeepsInv(events[..|events| - 1], before);
      StepKeepsInv(before, events[|events| - 1]);
    }
  }

  /** A future settles at most once: once answered or timed out it stays as it is. */
  lemma SettledStaysSettled(s: State, event: Event, i: nat)
    requires Inv(s) && Enabled(s, event) && i < |s.futures|
    ensures i < |Step(s, event).futures| && Step(s, event).keys[i] == s.keys[i]
    ensures !s.futures[i].Waiting? ==> Step(s, event).futures[i] == s.futures[i]
  {
  }

  /** Only a complete settles a future with an answer, only the one its session and
      agent have in the table, and that entry goes with it. */
  lemma AnsweredOnlyByItsKey(s: State, event: Event, i: nat)
    requires Inv(s) && Enabled(s, event) && i < |s.futures|
    ensures s.futures[i].Waiting? && Step(s, event).futures[i].Answered? ==>
      event.Complete? && event.message.key == s.keys[i] && Step(s, event).futures[i].message == event.message
      && event.message.key in s.table && s.table[event.message.key] == i
      && event.message.key !in Step(s, event).table
  {
  }

  /** A timeout withdraws its own entry and no other. */
  lemma TimeoutRemovesOwnEntry(s: State, session: string)
    requires Inv(s) && Enabled(s, Timeout(session))
    ensures var id, t := s.awaiting[session], Step(s, Timeout(session));
      && s.keys[id] in s.table && s.table[s.keys[id]] == id
      && t.table.Keys == s.table.Keys - {s.keys[id]}
      && forall key :: key in t.table ==> t.table[key] == s.table[key]
  {
  }

  // ------------------------------------------------------------------
  // One entry per session
  // ------------------------------------------------------------------

  predicate NoFailedSend(events: seq<Event>) {
    forall i :: 0 <= i < |events| ==> !events[i].SendFailed?
  }

  /** The entries are exactly those of the blocked chains. */
  ghost predicate OnlyBlocked(s: State) {
    forall key :: key in s.table ==> Blocked(s, key.session) && s.table[key] == s.awaiting[key.session]
  }

  lemma StepKeepsOnlyBlocked(s: State, event: Event)
    requires Inv(s) && OnlyBlocked(s) && Enabled(s, event) && !event.SendFailed?
    ensures OnlyBlocked(Step(s, event))
  {
    StepKeepsInv(s, event);
    var t := Step(s, event);
    forall key | key in t.table ensures Blocked(t, key.session) && t.table[key] == t.awaiting[key.session] {
      if event.Dispatch? && key == event.key {
      } else {
        assert key in s.table && Blocked(s, key.session);
      }
    }
  }

  lemma {:induction false} RunKeepsOnlyBlocked(events: seq<Event>, s: State)
    requires Reaches(events, s) && NoFailedSend(events)
    ensures OnlyBlocked(s)
    decreases |events|
  {
    if events != [] {
      var before :| Precedes(events, before, s) && Reaches(events[..|events| - 1], before);
      EveryRunKeepsInv(events[..|events| - 1], before);
      RunKeepsOnlyBlocked(events[..|events| - 1], before);
      StepKeepsOnlyBlocked(before, events[|events| - 1]);
    }
  }

  /** When no send fails, a session has at most one entry, and has one exactly while
      its chain is blocked on an unanswered dispatch. */
  lemma OneEntryPerSession(events: seq<Event>, s: State, session: string)
    requires Reaches(events, s) && NoFailedSend(events)
    ensures forall a, b :: Key(session, a) in s.table && Key(session, b) in s.table ==> a == b
    ensures (exists a :: Key(session, a) in s.table) <==> Blocked(s, session)
  {
    EveryRunKeepsInv(events, s);
    RunKeepsOnlyBlocked(events, s);
    if Blocked(s, session) {
      assert Key(session, s.keys[s.awaiting[session]].agent) in s.table;
    }
  }

  /** A failed send leaves its entry behind, so the next step of the chain gives the
      session two. */
  lemma FailedSendLeavesEntry()
    ensures exists events, s :: Reaches(events, s) && Key("s", "a") in s.table && Key("s", "b") in s.table
  {
    var events := [Dispatch(Key("s", "a")), SendFailed("s"), Dispatch(Key("s", "b"))];
    var s0 := EMPTY;
    var s1 := Step(s0, events[0]);
    var s2 := Step(s1, events[1]);
    var s3 := Step(s2, events[2]);
    assert events[..2][..1][..0] == [] && events[..2][..1] == [events[0]] && events[..2] == [events[0], events[1]];
    assert Reaches([], s0);
    assert Precedes(events[..2][..1], s0, s1) && Precedes(events[..2], s1, s2) && Precedes(events, s2, s3);
    assert Reaches(events[..2][..1], s1);
    assert Reaches(events[..2], s2);
    assert Reaches(events, s3);
  }

  /** A session waits from its dispatch on, until it picks up the answer, gives up, or the
      send has failed; no other event begins or ends a wait. */
  lemma WaitsExactly(s: State, event: Event, session: string)
    requires Enabled(s, event)
    ensures var begins := event.Dispatch? && event.key.session == session;
      var ends := (event.SendFailed? || event.Resume? || event.Timeout?) && event.session == session;
      && (session in Step(s, event).awaiting <==> begins || (session in s.awaiting && !ends))
      && (begins ==> Step(s, event).awaiting[session] == |s.futures|)
      && (session in s.awaiting && !begins && !ends ==> Step(s, event).awaiting[session] == s.awaiting[session])
  {
  }

  // ------------------------------------------------------------------
  // Whose answer
  // ------------------------------------------------------------------

  /** A pending dispatch gets only its own reply, from agents that reply once to what
      they were sent, if and only if every other dispatch of its session and agent
      has been replied to: a complete names no dispatch, so the late reply to one
      that timed out, or whose send failed, settles the next. */
  lemma OwnReplyExactly(s: State, i: nat)
    requires Inv(s) && i < |s.keys| && s.keys[i] in s.table && s.table[s.keys[i]] == i
    ensures (forall m: Message | Honest(s, m) ::
              Step(s, Complete(m)).futures[i] == Answered(m) ==> m.answers == i)
            <==> (forall j :: 0 <= j < |s.keys| && j != i && s.keys[j] == s.keys[i] ==> j in s.replied)
  {
    if j :| 0 <= j < |s.keys| && j != i && s.keys[j] == s.keys[i] && j !in s.replied {
      var m := Message(s.keys[i], j);
      assert Honest(s, m);
      assert Step(s, Complete(m)).futures[i] == Answered(m);
    } else {
      forall m: Message | Honest(s, m) && Step(s, Complete(m)).futures[i] == Answered(m) ensures m.answers == i {
        AnsweredOnlyByItsKey(s, Complete(m), i);
      }
    }
  }

  /** Nothing times out, no send fails, and only honest completes arrive. */
  predicate Smooth(s: State, event: Event) {
    && !event.Timeout? && !event.SendFailed?
    && (event.Complete? ==> Honest(s, event.message))
  }

  ghost predicate SmoothlyReaches(events: seq<Event>, s: State)
    decreases |events|
  {
    if events == [] then s == EMPTY
    else exists before ::
      && Precedes(events, before, s) && Smooth(before, events[|events| - 1])
      && SmoothlyReaches(events[..|events| - 1], before)
  }

  /** The dispatch is still waited for and not replied to, or has its own reply. */
  ghost predicate OwnReply(s: State, i: nat)
    requires i < |s.futures| == |s.keys|
  {
    if s.futures[i].Waiting?
    then i !in s.replied && s.keys[i] in s.table && s.table[s.keys[i]] == i
         && s.keys[i].session in s.awaiting && s.awaiting[s.keys[i].session] == i
    else s.futures[i].Answered? && s.futures[i].message.answers == i && i in s.replied
  }

  ghost predicate OwnReplies(s: State) {
    && |s.keys| == |s.futures|
    && forall i :: 0 <= i < |s.futures| ==> OwnReply(s, i)
  }

  lemma StepKeepsOwnReplies(s: State, event: Event)
    requires Inv(s) && OwnReplies(s) && Enabled(s, event) && Smooth(s, event)
    ensures OwnReplies(Step(s, event))
  {
    if event.Complete? {
      CompleteKeepsOwnReplies(s, event.message);
    } else {
      forall i | 0 <= i < |s.futures| ensures OwnReply(Step(s, event), i) { assert OwnReply(s, i); }
    }
  }

  /** The only dispatch of a key not replied to is the one waiting under it. */
  lemma CompleteKeepsOwnReplies(s: State, m: Message)
    requires Inv(s) && OwnReplies(s) && Honest(s, m)
    ensures OwnReplies(Step(s, Complete(m)))
  {
    assert OwnReply(s, m.answers);
    forall i | 0 <= i < |s.futures| ensures OwnReply(Step(s, Complete(m)), i) {
      assert OwnReply(s, i);
    }
  }

  /** As long as nothing times out and no send fails, every answer a chain picks up
      is its own dispatch's, however often the plan uses the same agent. */
  lemma {:induction false} SmoothRunsGetOwnReplies(events: seq<Event>, s: State)
    requires SmoothlyReaches(events, s)
    ensures Inv(s) && OwnReplies(s)
    decreases |events|
  {
    if events != [] {
      var before :| Precedes(events, before, s) && Smooth(before, events[|events| - 1])
        && SmoothlyReaches(events[..|events| - 1], before);
      SmoothRunsGetOwnReplies(events[..|events| - 1], before);
      StepKeepsInv(before, events[|events| - 1]);
      StepKeepsOwnReplies(before, events[|events| - 1]);
    }
  }
}
