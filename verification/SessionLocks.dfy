/**
  The session table at lock granularity: one listener goroutine and any number of trigger goroutines,
  where one step is one critical section of the UE mutex or of a session mutex, or one send.
 */
module SessionLocks {
  import opened Bytes
  import opened Sessions

  /** A session object; its place in the heap, in order of creation, is its identity. */
  datatype Obj = Obj(id: nat, state: SessionState)

  /** Where a trigger goroutine stands. Releasing and its successors work on the first of the sessions to do. */
  datatype Task =
    | WantCreate
    | Created(o: nat)
    | SendEstablish(o: nat)
    | WantRelease(id: nat)
    | WantReleaseAll
    | Scanning(next: nat, found: seq<nat>)
    | Releasing(todo: seq<nat>)
    | Checked(todo: seq<nat>)
    | SendRelease(todo: seq<nat>)
    | Done

  /** Where the listener stands: what it was told to do, then with the session it looked up. */
  datatype Listener =
    | Idle
    | GotAccept(id: nat)
    | GotReject(id: nat)
    | GotCommand(id: nat)
    | AcceptHeld(id: nat, o: nat)
    | RejectHeld(id: nat, o: nat)
    | CommandHeld(id: nat, o: nat)
    | CommandSend(id: nat, o: nat)
    | CommandMark(id: nat, o: nat)
    | Clearing(id: nat, o: nat)

  /** A message sent for a session object. */
  datatype Sent = Sent(o: nat, m: SmOut)

  /** One clearing of a slot: the session the listener had looked up, and the one the slot held. */
  datatype Cleared = Cleared(id: nat, lookedUp: nat, held: Option<nat>)

  /**
    holder: the goroutine inside the scan of getActivePduSessions, which keeps the UE mutex.
    marked: sessions the listener has set inactive.
   */
  datatype Sys = Sys(
    heap: seq<Obj>, slots: seq<Option<nat>>, holder: Option<nat>, listener: Listener, tasks: seq<Task>,
    cleared: seq<Cleared>, marked: set<nat>, sent: seq<Sent>)

  datatype Action = Spawn(task: Task) | StepTask(tid: nat) | Deliver(m: Listener) | StepListener

  const START: Sys := Sys([], seq(SLOTS, i => None), None, Idle, [], [], {}, [])

  function SlotOf(slots: seq<Option<nat>>, id: nat): Option<nat>
    requires |slots| == SLOTS
  {
    if id == 0 || id > 15 then None else slots[id]
  }

  function Goto(s: Sys, tid: nat, t: Task): Sys
    requires tid < |s.tasks|
  {
    s.(tasks := s.tasks[tid := t])
  }

  /** A trigger's write to a session's state. */
  function Write(s: Sys, o: nat, st: SessionState): Sys
    requires o < |s.heap|
  {
    s.(heap := s.heap[o := s.heap[o].(state := st)])
  }

  /** The listener setting a session inactive. */
  function MarkInactive(s: Sys, o: nat): Sys
    requires o < |s.heap|
  {
    s.(heap := s.heap[o := s.heap[o].(state := Inactive)], marked := s.marked + {o})
  }

  /** A new session object in slot k. */
  function Create(s: Sys, k: nat): Sys
    requires |s.slots| == SLOTS && k < SLOTS
  {
    s.(heap := s.heap + [Obj(k, Inactive)], slots := s.slots[k := Some(|s.heap|)])
  }

  predicate Started(t: Task) {
    t.WantCreate? || t.WantRelease? || t.WantReleaseAll?
  }

  predicate Message(m: Listener) {
    m.GotAccept? || m.GotReject? || m.GotCommand?
  }

  /** One step of a trigger; a goroutine waiting for the UE mutex, or done, stays where it is. */
  function TaskStep(s: Sys, tid: nat): Sys
    requires Ordered(s) && tid < |s.tasks|
  {
    match s.tasks[tid]
    case WantCreate =>
      if s.holder.Some? then s
      else
        var k := FirstFree(s.slots, 1);
        if k == SLOTS then Goto(s, tid, Done)
        else Goto(Create(s, k), tid, Created(|s.heap|))
    case Created(o) => Goto(Write(s, o, ActivePending), tid, SendEstablish(o))
    case SendEstablish(o) => Goto(s.(sent := s.sent + [Sent(o, EstablishmentRequest(s.heap[o].id))]), tid, Done)
    case WantRelease(id) =>
      if s.holder.Some? then s
      else Goto(s, tid, if SlotOf(s.slots, id).Some? then Releasing([s.slots[id].value]) else Done)
    case WantReleaseAll => if s.holder.Some? then s else Goto(s.(holder := Some(tid)), tid, Scanning(1, []))
    case Scanning(next, found) =>
      if next >= SLOTS then Goto(s.(holder := None), tid, Releasing(found))
      else
        var h := s.slots[next];
        var more := if h.Some? && s.heap[h.value].state == Active then found + [h.value] else found;
        Goto(s, tid, Scanning(next + 1, more))
    case Releasing(todo) =>
      if todo == [] then Goto(s, tid, Done)
      else Goto(s, tid, if s.heap[todo[0]].state == Active then Checked(todo) else Releasing(todo[1..]))
    case Checked(todo) => Goto(Write(s, todo[0], InactivePending), tid, SendRelease(todo))
    case SendRelease(todo) =>
      Goto(s.(sent := s.sent + [Sent(todo[0], ReleaseRequest(s.heap[todo[0]].id))]), tid, Releasing(todo[1..]))
    case Done => s
  }

  function Look(s: Sys, id: nat, found: nat -> Listener): Sys
    requires |s.slots| == SLOTS
  {
    if s.holder.Some? then s
    else s.(listener := if SlotOf(s.slots, id).Some? then found(s.slots[id].value) else Idle)
  }

  function ListenerStep(s: Sys): Sys
    requires Ordered(s)
  {
    match s.listener
    case Idle => s
    case GotAccept(id) => Look(s, id, (o: nat) => AcceptHeld(id, o))
    case GotReject(id) => Look(s, id, (o: nat) => RejectHeld(id, o))
    case GotCommand(id) => Look(s, id, (o: nat) => CommandHeld(id, o))
    case AcceptHeld(_, o) => s.(heap := s.heap[o := s.heap[o].(state := Active)], listener := Idle)
    case RejectHeld(id, o) => MarkInactive(s, o).(listener := Clearing(id, o))
    case CommandHeld(id, o) => s.(listener := if s.heap[o].state == Inactive then Idle else CommandSend(id, o))
    case CommandSend(id, o) => s.(sent := s.sent + [Sent(o, ReleaseComplete(id))], listener := CommandMark(id, o))
    case CommandMark(id, o) => MarkInactive(s, o).(listener := Clearing(id, o))
    case Clearing(id, o) =>
      if s.holder.Some? then s
      else if SlotOf(s.slots, id).None? then s.(listener := Idle)
      else s.(slots := s.slots[id := None], listener := Idle, cleared := s.cleared + [Cleared(id, o, s.slots[id])])
  }

  function Do(s: Sys, a: Action): Sys
    requires Ordered(s)
  {
    match a
    case Spawn(t) => if Started(t) then s.(tasks := s.tasks + [t]) else s
    case StepTask(tid) => if tid < |s.tasks| then TaskStep(s, tid) else s
    case Deliver(m) => if s.listener.Idle? && Message(m) then s.(listener := m) else s
    case StepListener => ListenerStep(s)
  }

  predicate TaskKnows(t: Task, n: nat) {
    match t
    case Created(o) => o < n
    case SendEstablish(o) => o < n
    case Scanning(_, found) => forall k :: 0 <= k < |found| ==> found[k] < n
    case Releasing(todo) => forall k :: 0 <= k < |todo| ==> todo[k] < n
    case Checked(todo) => todo != [] && forall k :: 0 <= k < |todo| ==> todo[k] < n
    case SendRelease(todo) => todo != [] && forall k :: 0 <= k < |todo| ==> todo[k] < n
    case _ => true
  }

  /** The listener works on a session it has looked up. */
  predicate Holds(l: Listener) {
    l.AcceptHeld? || l.RejectHeld? || l.CommandHeld? || l.CommandSend? || l.CommandMark? || l.Clearing?
  }

  predicate ListenerKnows(l: Listener, n: nat) {
    Holds(l) ==> l.o < n && 1 <= l.id <= 15
  }

  /** Slot 0 stays nil, slot i holds only a session with id i, and goroutines refer to existing sessions. */
  predicate Ordered(s: Sys) {
    && |s.slots| == SLOTS && s.slots[0] == None
    && (forall i :: 0 <= i < SLOTS && s.slots[i].Some? ==>
                    s.slots[i].value < |s.heap| && s.heap[s.slots[i].value].id == i)
    && (forall t :: 0 <= t < |s.tasks| ==> TaskKnows(s.tasks[t], |s.heap|))
    && ListenerKnows(s.listener, |s.heap|)
  }

  /** What the listener looked up is still in its slot while it works on it. */
  predicate Held(s: Sys)
    requires Ordered(s)
  {
    Holds(s.listener) ==> s.slots[s.listener.id] == Some(s.listener.o)
  }

  lemma GotoOrdered(s: Sys, tid: nat, t: Task)
    requires Ordered(s) && tid < |s.tasks| && TaskKnows(t, |s.heap|)
    ensures Ordered(Goto(s, tid, t))
  {
  }

  lemma SameTable(s: Sys, r: Sys, tid: nat)
    requires Ordered(s) && r.heap == s.heap && r.slots == s.slots && r.listener == s.listener
    requires tid < |s.tasks| && |r.tasks| == |s.tasks| && r.tasks == s.tasks[tid := r.tasks[tid]]
    requires TaskKnows(r.tasks[tid], |s.heap|)
    ensures Ordered(r)
  {
  }

  lemma WriteOrdered(s: Sys, o: nat, st: SessionState)
    requires Ordered(s) && o < |s.heap|
    ensures Ordered(Write(s, o, st))
  {
  }

  lemma CreateOrdered(s: Sys, k: nat)
    requires Ordered(s) && 1 <= k < SLOTS
    ensures Ordered(Create(s, k))
  {
    forall t | 0 <= t < |s.tasks| ensures TaskKnows(s.tasks[t], |s.heap| + 1) {
      assert TaskKnows(s.tasks[t], |s.heap|);
    }
  }

  lemma TaskOrdered(s: Sys, tid: nat)
    requires Ordered(s) && tid < |s.tasks|
    ensures Ordered(TaskStep(s, tid))
  {
    assert TaskKnows(s.tasks[tid], |s.heap|);
    match s.tasks[tid] {
      case WantCreate =>
        var k := FirstFree(s.slots, 1);
        if k < SLOTS {
          CreateOrdered(s, k);
          GotoOrdered(Create(s, k), tid, Created(|s.heap|));
        }
      case Created(o) =>
        WriteOrdered(s, o, ActivePending);
        GotoOrdered(Write(s, o, ActivePending), tid, SendEstablish(o));
      case Checked(todo) =>
        WriteOrdered(s, todo[0], InactivePending);
        GotoOrdered(Write(s, todo[0], InactivePending), tid, SendRelease(todo));
      case _ =>
        QuietTask(s, tid);
        SameTable(s, TaskStep(s, tid), tid);
    }
  }

  /** No trigger touches what the listener does or has done. */
  lemma TaskKeepsListener(s: Sys, tid: nat)
    requires Ordered(s) && tid < |s.tasks|
    ensures var r := TaskStep(s, tid); r.listener == s.listener && r.cleared == s.cleared && r.marked == s.marked
  {
  }

  /** The other steps leave the heap, the slots and the listener alone. */
  lemma QuietTask(s: Sys, tid: nat)
    requires Ordered(s) && tid < |s.tasks|
    requires !s.tasks[tid].WantCreate? && !s.tasks[tid].Created? && !s.tasks[tid].Checked?
    ensures var r := TaskStep(s, tid);
            r.heap == s.heap && r.slots == s.slots && r.listener == s.listener &&
            r.tasks == s.tasks[tid := r.tasks[tid]] && TaskKnows(r.tasks[tid], |s.heap|)
  {
    assert TaskKnows(s.tasks[tid], |s.heap|);
  }

  lemma ListenerShape(s: Sys)
    requires Ordered(s)
    ensures var r := ListenerStep(s);
            r.tasks == s.tasks && |r.heap| == |s.heap| && |r.slots| == SLOTS &&
            (forall o :: 0 <= o < |s.heap| ==> r.heap[o].id == s.heap[o].id) &&
            (forall i :: 0 <= i < SLOTS ==> r.slots[i] == None || r.slots[i] == s.slots[i]) &&
            ListenerKnows(r.listener, |r.heap|)
  {
  }

  lemma ListenerOrdered(s: Sys)
    requires Ordered(s)
    ensures Ordered(ListenerStep(s))
  {
    ListenerShape(s);
  }

  lemma ListenerHeld(s: Sys)
    requires Ordered(s) && Held(s)
    ensures Ordered(ListenerStep(s)) && Held(ListenerStep(s))
  {
    ListenerOrdered(s);
  }

  lemma StepOrdered(s: Sys, a: Action)
    requires Ordered(s)
    ensures Ordered(Do(s, a))
  {
    match a
    case StepTask(tid) =>
      if tid < |s.tasks| {
        TaskOrdered(s, tid);
      }
    case StepListener =>
      ListenerOrdered(s);
    case _ =>
  }

  /** Triggers fill empty slots only, so they leave the session the listener works on where it is. */
  lemma TaskHeld(s: Sys, tid: nat)
    requires Ordered(s) && Held(s) && tid < |s.tasks|
    ensures Ordered(TaskStep(s, tid)) && Held(TaskStep(s, tid))
  {
    TaskOrdered(s, tid);
    assert TaskStep(s, tid).listener == s.listener;
    assert forall i :: 0 <= i < SLOTS && s.slots[i].Some? ==> TaskStep(s, tid).slots[i] == s.slots[i];
  }

  lemma StepHeld(s: Sys, a: Action)
    requires Ordered(s) && Held(s)
    ensures Ordered(Do(s, a)) && Held(Do(s, a))
  {
    StepOrdered(s, a);
    if a.StepTask? && a.tid < |s.tasks| {
      TaskHeld(s, a.tid);
    } else if a.StepListener? {
      ListenerHeld(s);
    }
  }

  function RunAll(s: Sys, acts: seq<Action>): (r: Sys)
    requires Ordered(s)
    ensures Ordered(r)
  {
    if acts == [] then s
    else
      var before := RunAll(s, acts[..|acts| - 1]);
      StepOrdered(before, acts[|acts| - 1]);
      Do(before, acts[|acts| - 1])
  }

  // Ownership of slots.

  function CreatedWith(heap: seq<Obj>, id: nat): nat {
    if heap == [] then 0 else CreatedWith(heap[..|heap| - 1], id) + if heap[|heap| - 1].id == id then 1 else 0
  }

  function ClearedWith(c: seq<Cleared>, id: nat): nat {
    if c == [] then 0 else ClearedWith(c[..|c| - 1], id) + if c[|c| - 1].id == id then 1 else 0
  }

  lemma {:induction false} CreatedWithState(heap: seq<Obj>, o: nat, st: SessionState, id: nat)
    requires o < |heap|
    ensures CreatedWith(heap[o := heap[o].(state := st)], id) == CreatedWith(heap, id)
  {
    var n := |heap| - 1;
    var h := heap[o := heap[o].(state := st)];
    if o < n {
      CreatedWithState(heap[..n], o, st, id);
      assert h[..n] == heap[..n][o := heap[o].(state := st)];
    } else {
      assert h[..n] == heap[..n];
    }
  }

  /** Every creation of an id is matched by a clearing of it, but for the session now in the slot. */
  ghost predicate Balanced(s: Sys, id: nat)
    requires Ordered(s)
  {
    id < SLOTS ==>
      CreatedWith(s.heap, id) == ClearedWith(s.cleared, id) + (if s.slots[id].Some? then 1 else 0)
  }

  lemma WriteBalanced(s: Sys, o: nat, st: SessionState, id: nat)
    requires Ordered(s) && o < |s.heap| && Balanced(s, id)
    ensures Ordered(Write(s, o, st)) && Balanced(Write(s, o, st), id)
  {
    CreatedWithState(s.heap, o, st, id);
  }

  lemma CreateBalanced(s: Sys, k: nat, id: nat)
    requires Ordered(s) && Balanced(s, id) && 1 <= k < SLOTS && s.slots[k].None?
    ensures Ordered(Create(s, k)) && Balanced(Create(s, k), id)
  {
    CreateOrdered(s, k);
    assert Create(s, k).heap[..|s.heap|] == s.heap;
  }

  lemma TaskBalanced(s: Sys, tid: nat, id: nat)
    requires Ordered(s) && Balanced(s, id) && tid < |s.tasks|
    ensures Ordered(TaskStep(s, tid)) && Balanced(TaskStep(s, tid), id)
  {
    TaskOrdered(s, tid);
    match s.tasks[tid] {
      case WantCreate =>
        if FirstFree(s.slots, 1) < SLOTS {
          CreateBalanced(s, FirstFree(s.slots, 1), id);
        }
      case Created(o) =>
        WriteBalanced(s, o, ActivePending, id);
      case Checked(todo) =>
        WriteBalanced(s, todo[0], InactivePending, id);
      case _ =>
        QuietTask(s, tid);
    }
  }

  /** A change of state keeps ids; a clearing is logged when the slot is emptied. */
  lemma ListenerBalanced(s: Sys, id: nat)
    requires Ordered(s) && Held(s) && Balanced(s, id)
    ensures Ordered(ListenerStep(s)) && Balanced(ListenerStep(s), id)
  {
    ListenerOrdered(s);
    match s.listener {
      case AcceptHeld(_, o) =>
        CreatedWithState(s.heap, o, Active, id);
      case RejectHeld(_, o) =>
        CreatedWithState(s.heap, o, Inactive, id);
      case CommandMark(_, o) =>
        CreatedWithState(s.heap, o, Inactive, id);
      case Clearing(i, o) =>
        assert (s.cleared + [Cleared(i, o, s.slots[i])])[..|s.cleared|] == s.cleared;
      case _ =>
        var r := ListenerStep(s);
        assert r.heap == s.heap && r.cleared == s.cleared && r.slots == s.slots;
    }
  }

  lemma StepBalanced(s: Sys, a: Action, id: nat)
    requires Ordered(s) && Held(s) && Balanced(s, id)
    ensures Ordered(Do(s, a)) && Balanced(Do(s, a), id)
  {
    match a
    case StepTask(tid) =>
      if tid < |s.tasks| {
        TaskBalanced(s, tid, id);
      }
    case StepListener =>
      ListenerBalanced(s, id);
    case _ =>
  }

  /** What was cleared is what the listener had looked up. */
  ghost predicate ClearedRight(s: Sys) {
    forall k :: 0 <= k < |s.cleared| ==> s.cleared[k].held == Some(s.cleared[k].lookedUp)
  }

  lemma StepCleared(s: Sys, a: Action)
    requires Ordered(s) && Held(s) && ClearedRight(s)
    ensures ClearedRight(Do(s, a))
  {
  }

  /**
    Under every interleaving: slot 0 stays nil and slot i holds only a session with id i (the run is
    Ordered), what the listener works on stays in its slot, and it clears exactly what it looked up.
   */
  lemma {:induction false} SlotOwnership(acts: seq<Action>)
    ensures Ordered(START)
    ensures Ordered(RunAll(START, acts)) && Held(RunAll(START, acts)) && ClearedRight(RunAll(START, acts))
  {
    if acts != [] {
      var n := |acts| - 1;
      SlotOwnership(acts[..n]);
      StepHeld(RunAll(START, acts[..n]), acts[n]);
      StepCleared(RunAll(START, acts[..n]), acts[n]);
    }
  }

  /** Creations of an id are its clearings, plus one while the slot is taken. */
  lemma {:induction false} CreationsBalanced(acts: seq<Action>, id: nat)
    requires Ordered(START)
    ensures Balanced(RunAll(START, acts), id)
  {
    if acts != [] {
      var n := |acts| - 1;
      CreationsBalanced(acts[..n], id);
      SlotOwnership(acts[..n]);
      StepBalanced(RunAll(START, acts[..n]), acts[n], id);
    }
  }

  /** No session is in two slots, and two sessions in the table at once have different ids. */
  lemma {:induction false} SessionsDistinct(acts: seq<Action>, i: nat, j: nat)
    requires i < j < SLOTS && Ordered(START)
    ensures var s := RunAll(START, acts);
            s.slots[i].Some? && s.slots[j].Some? ==>
              s.slots[i] != s.slots[j] && s.heap[s.slots[i].value].id != s.heap[s.slots[j].value].id
  {
  }

  /** Two creations of one id have a clearing of that id between them. */
  lemma CreationsSeparated(acts: seq<Action>, m: nat, id: nat)
    requires m <= |acts| && 1 <= id < SLOTS && Ordered(START)
    requires var s, t := RunAll(START, acts[..m]), RunAll(START, acts);
             s.slots[id].Some? && CreatedWith(t.heap, id) > CreatedWith(s.heap, id)
    ensures ClearedWith(RunAll(START, acts).cleared, id) > ClearedWith(RunAll(START, acts[..m]).cleared, id)
  {
    CreationsBalanced(acts, id);
    CreationsBalanced(acts[..m], id);
  }

  // States of removed sessions.

  /** Marked sessions exist, and they are out of the table but for the one being cleared. */
  ghost predicate MarkedGone(s: Sys)
    requires Ordered(s)
  {
    (forall o :: o in s.marked ==> o < |s.heap|) &&
    forall i :: 0 <= i < SLOTS && s.slots[i].Some? && s.slots[i].value in s.marked ==>
                s.listener.Clearing? && s.listener.id == i
  }

  lemma TaskMarks(s: Sys, tid: nat)
    requires Ordered(s) && MarkedGone(s) && tid < |s.tasks|
    ensures Ordered(TaskStep(s, tid)) && MarkedGone(TaskStep(s, tid))
  {
    TaskOrdered(s, tid);
    TaskKeepsListener(s, tid);
    match s.tasks[tid] {
      case WantCreate =>
        assert |s.heap| !in s.marked;
      case Created(o) =>
      case Checked(todo) =>
      case _ =>
        QuietTask(s, tid);
    }
  }

  lemma ListenerMarks(s: Sys)
    requires Ordered(s) && Held(s) && MarkedGone(s)
    ensures Ordered(ListenerStep(s)) && MarkedGone(ListenerStep(s))
  {
    ListenerOrdered(s);
  }

  lemma StepMarks(s: Sys, a: Action)
    requires Ordered(s) && Held(s) && MarkedGone(s)
    ensures Ordered(Do(s, a)) && MarkedGone(Do(s, a))
  {
    if a.StepTask? && a.tid < |s.tasks| {
      TaskMarks(s, a.tid);
    } else if a.StepListener? {
      ListenerMarks(s);
    }
  }

  /** Every cleared session was marked. */
  ghost predicate ClearedMarked(s: Sys) {
    (s.listener.Clearing? ==> s.listener.o in s.marked) &&
    forall k :: 0 <= k < |s.cleared| ==> s.cleared[k].lookedUp in s.marked
  }

  lemma StepClearedMarked(s: Sys, a: Action)
    requires Ordered(s) && ClearedMarked(s)
    ensures ClearedMarked(Do(s, a))
  {
    if a.StepTask? && a.tid < |s.tasks| {
      TaskKeepsListener(s, a.tid);
    }
  }

  /** What every reachable state keeps. */
  ghost predicate Sound(s: Sys) {
    Ordered(s) && Held(s) && MarkedGone(s) && ClearedMarked(s)
  }

  lemma {:induction false} SoundRun(s: Sys, acts: seq<Action>)
    requires Sound(s)
    ensures Sound(RunAll(s, acts))
  {
    if acts != [] {
      var n := |acts| - 1;
      SoundRun(s, acts[..n]);
      StepHeld(RunAll(s, acts[..n]), acts[n]);
      StepMarks(RunAll(s, acts[..n]), acts[n]);
      StepClearedMarked(RunAll(s, acts[..n]), acts[n]);
    }
  }

  /** Under every interleaving a session set inactive by the listener has left the table or is being cleared. */
  lemma MarksOverRun(acts: seq<Action>)
    ensures Ordered(START) && Sound(RunAll(START, acts))
  {
    SoundRun(START, acts);
  }

  /** A trigger between creating, or checking, the session and writing its state. */
  predicate WillWrite(t: Task, o: nat) {
    t == Created(o) || (t.Checked? && t.todo != [] && t.todo[0] == o)
  }

  ghost predicate Armed(s: Sys, o: nat) {
    exists tid :: 0 <= tid < |s.tasks| && WillWrite(s.tasks[tid], o)
  }

  /** An inactive session that no trigger is about to write. */
  ghost predicate AtRest(s: Sys, o: nat) {
    o < |s.heap| && s.heap[o].state == Inactive && !Armed(s, o)
  }

  /** A step of one trigger: who else is about to write is unchanged. */
  lemma ArmedByOthers(s: Sys, tid: nat, o: nat)
    requires Ordered(s) && tid < |s.tasks|
    ensures var r := TaskStep(s, tid);
            |r.tasks| == |s.tasks| && forall k :: 0 <= k < |s.tasks| && k != tid ==> r.tasks[k] == s.tasks[k]
  {
  }

  /** A trigger arms itself for an existing session only by finding it active. */
  lemma TaskAtRest(s: Sys, tid: nat, o: nat)
    requires Sound(s) && tid < |s.tasks| && o in s.marked
    ensures AtRest(TaskStep(s, tid), o) <==> AtRest(s, o)
  {
    var r := TaskStep(s, tid);
    ArmedByOthers(s, tid, o);
    if WillWrite(s.tasks[tid], o) {
      assert r.heap[o].state != Inactive;
    } else {
      assert r.heap[o].state == s.heap[o].state;
      assert WillWrite(r.tasks[tid], o) ==> s.heap[o].state == Active;
      if Armed(s, o) {
        var k :| 0 <= k < |s.tasks| && WillWrite(s.tasks[k], o);
        assert WillWrite(r.tasks[k], o);
      }
    }
  }

  /** The listener never writes a session it has set inactive again. */
  lemma ListenerAtRest(s: Sys, o: nat)
    requires Sound(s) && o in s.marked
    ensures AtRest(ListenerStep(s), o) <==> AtRest(s, o)
  {
    var r := ListenerStep(s);
    assert Holds(s.listener) && !s.listener.Clearing? ==> s.listener.o != o;
    assert r.tasks == s.tasks && r.heap[o] == s.heap[o];
  }

  lemma SpawnAtRest(s: Sys, t: Task, o: nat)
    requires Sound(s) && o in s.marked && Started(t)
    ensures AtRest(s.(tasks := s.tasks + [t]), o) <==> AtRest(s, o)
  {
    var r := s.(tasks := s.tasks + [t]);
    if Armed(s, o) {
      var k :| 0 <= k < |s.tasks| && WillWrite(s.tasks[k], o);
      assert WillWrite(r.tasks[k], o);
    }
  }

  lemma StepAtRest(s: Sys, a: Action, o: nat)
    requires Sound(s) && o in s.marked
    ensures Ordered(Do(s, a)) && o in Do(s, a).marked && (AtRest(Do(s, a), o) <==> AtRest(s, o))
  {
    StepOrdered(s, a);
    match a
    case StepTask(tid) =>
      if tid < |s.tasks| {
        TaskKeepsListener(s, tid);
        TaskAtRest(s, tid, o);
      }
    case StepListener => ListenerAtRest(s, o);
    case Spawn(t) =>
      if Started(t) {
        SpawnAtRest(s, t, o);
      }
    case Deliver(m) =>
      assert Do(s, a).tasks == s.tasks;
  }

  /**
    Whether a session ends inactive is decided when the listener marks it: it is at rest after any
    continuation exactly when it is at rest already.
   */
  lemma {:induction false} MarkDecides(s: Sys, more: seq<Action>, o: nat)
    requires Sound(s) && o in s.marked
    ensures o in RunAll(s, more).marked && (AtRest(RunAll(s, more), o) <==> AtRest(s, o))
  {
    if more != [] {
      var n := |more| - 1;
      MarkDecides(s, more[..n], o);
      SoundRun(s, more[..n]);
      StepAtRest(RunAll(s, more[..n]), more[n], o);
    }
  }

  /** The next step of a trigger that is about to write makes the session pending. */
  lemma ArmedWrites(s: Sys, tid: nat, o: nat)
    requires Ordered(s) && tid < |s.tasks| && WillWrite(s.tasks[tid], o)
    ensures var r := RunAll(s, [StepTask(tid)]);
            o < |r.heap| && r.heap[o].state in {ActivePending, InactivePending}
  {
    assert TaskKnows(s.tasks[tid], |s.heap|);
    assert [StepTask(tid)][..0] == [];
    assert RunAll(s, [StepTask(tid)]) == Do(s, StepTask(tid));
  }

  /** A marked session stays inactive whatever follows. */
  ghost predicate StaysInactive(s: Sys, o: nat)
    requires Ordered(s)
  {
    forall more: seq<Action> :: o < |RunAll(s, more).heap| && RunAll(s, more).heap[o].state == Inactive
  }

  /**
    A removed session is inactive for good exactly when it is inactive and no trigger stands between
    creating or checking it and writing its state.
   */
  lemma RemovedExactly(acts: seq<Action>, k: nat)
    requires Ordered(START) && k < |RunAll(START, acts).cleared|
    ensures var s := RunAll(START, acts); StaysInactive(s, s.cleared[k].lookedUp) <==> AtRest(s, s.cleared[k].lookedUp)
  {
    MarksOverRun(acts);
    StaysExactly(RunAll(START, acts), RunAll(START, acts).cleared[k].lookedUp);
  }

  /** The same from the moment the listener has marked the session, before its slot is cleared. */
  lemma StaysExactly(s: Sys, o: nat)
    requires Sound(s) && o in s.marked
    ensures StaysInactive(s, o) <==> AtRest(s, o)
  {
    if AtRest(s, o) {
      forall more: seq<Action> ensures AtRest(RunAll(s, more), o) {
        MarkDecides(s, more, o);
      }
    } else {
      var none: seq<Action> := [];
      assert RunAll(s, none) == s;
      if Armed(s, o) {
        var tid :| 0 <= tid < |s.tasks| && WillWrite(s.tasks[tid], o);
        ArmedWrites(s, tid, o);
      }
    }
  }

  /** A reject that overtakes the creating trigger: the session is removed, and then set pending. */
  const RACE: seq<Action> := [
    Spawn(WantCreate), StepTask(0),
    Deliver(GotReject(1)), StepListener, StepListener, StepListener,
    StepTask(0)]

  lemma RunNext(s: Sys, acts: seq<Action>, a: Action)
    requires Ordered(s)
    ensures RunAll(s, acts + [a]) == Do(RunAll(s, acts), a)
  {
    assert (acts + [a])[..|acts|] == acts;
  }

  lemma {:induction false} RunConcat(s: Sys, acts: seq<Action>, more: seq<Action>)
    requires Ordered(s)
    ensures RunAll(s, acts + more) == RunAll(RunAll(s, acts), more)
  {
    if more == [] {
      assert acts + more == acts;
    } else {
      var front, last := more[..|more| - 1], more[|more| - 1];
      RunConcat(s, acts, front);
      RunNext(s, acts + front, last);
      RunNext(RunAll(s, acts), front, last);
      assert more == front + [last] && acts + more == acts + front + [last];
    }
  }

  lemma OneStep(s: Sys, a: Action)
    requires Ordered(s)
    ensures RunAll(s, [a]) == Do(s, a)
  {
    assert [a][..0] == [];
  }

  /** The trigger has created session 1 and not yet set its state. */
  lemma RaceBegins(acts: seq<Action>)
    requires Ordered(START) && acts == RACE[..2]
    ensures RunAll(START, acts) ==
              Sys([Obj(1, Inactive)], START.slots[1 := Some(0)], None, Idle, [Created(0)], [], {}, [])
  {
    assert acts == [] + [RACE[0]] + [RACE[1]];
    RunNext(START, [], RACE[0]);
    RunNext(START, [RACE[0]], RACE[1]);
    assert FirstFree(START.slots, 1) == 1;
  }

  /** The listener rejects the session: delivery and lookup, then marking and clearing. */
  lemma RaceLooksUp(acts: seq<Action>, s: Sys)
    requires Ordered(START) && acts == RACE[..4] && RunAll(START, RACE[..2]) == s
    requires s == Sys([Obj(1, Inactive)], START.slots[1 := Some(0)], None, Idle, [Created(0)], [], {}, [])
    ensures RunAll(START, acts) == s.(listener := RejectHeld(1, 0))
  {
    assert RACE[..3] == RACE[..2] + [RACE[2]] && RACE[..4] == RACE[..3] + [RACE[3]];
    RunNext(START, RACE[..2], RACE[2]);
    RunNext(START, RACE[..3], RACE[3]);
  }

  lemma RaceMarks(acts: seq<Action>, s: Sys)
    requires Ordered(START) && acts == RACE[..5] && RunAll(START, RACE[..4]) == s.(listener := RejectHeld(1, 0))
    requires s == Sys([Obj(1, Inactive)], START.slots[1 := Some(0)], None, Idle, [Created(0)], [], {}, [])
    ensures RunAll(START, acts) == s.(listener := Clearing(1, 0), marked := {0})
  {
    assert RACE[..5] == RACE[..4] + [RACE[4]];
    RunNext(START, RACE[..4], RACE[4]);
    assert s.heap[0 := Obj(1, Inactive)] == s.heap;
  }

  lemma RaceOvertakes(acts: seq<Action>, s: Sys)
    requires Ordered(START) && acts == RACE[..6] && RunAll(START, RACE[..4]) == s.(listener := RejectHeld(1, 0))
    requires s == Sys([Obj(1, Inactive)], START.slots[1 := Some(0)], None, Idle, [Created(0)], [], {}, [])
    ensures RunAll(START, acts) == s.(slots := s.slots[1 := None], cleared := [Cleared(1, 0, Some(0))], marked := {0})
  {
    RaceMarks(RACE[..5], s);
    assert RACE[..6] == RACE[..5] + [RACE[5]];
    RunNext(START, RACE[..5], RACE[5]);
  }

  /** Removed sessions need not be inactive under interleaving, unlike under whole handlers. */
  lemma OvertakenCreate()
    ensures Ordered(START)
    ensures var s := RunAll(START, RACE);
            s.cleared == [Cleared(1, 0, Some(0))] && s.slots[1] == None &&
            s.heap == [Obj(1, ActivePending)]
    ensures var s := RunAll(START, RACE[..6]); s.heap == [Obj(1, Inactive)] && 0 in s.marked && Armed(s, 0)
  {
    RaceBegins(RACE[..2]);
    RaceLooksUp(RACE[..4], RunAll(START, RACE[..2]));
    RaceOvertakes(RACE[..6], RunAll(START, RACE[..2]));
    assert RACE == RACE[..6] + [RACE[6]];
    assert WillWrite(RunAll(START, RACE[..6]).tasks[0], 0);
    RunNext(START, RACE[..6], RACE[6]);
  }
}
