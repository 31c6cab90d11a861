/**
  The lock-granular steps against the whole handlers: a goroutine that runs without interruption has
  exactly the effect of its handler or trigger on the session table.
 */
module SessionAtomic {
  import opened Bytes
  import opened Sessions
  import opened SessionLocks

  /** The table that the slots and the heap show; addresses are not part of the lock-granular state. */
  function Slots(s: Sys): seq<Option<Sess>>
    requires Ordered(s)
  {
    seq(SLOTS, i requires 0 <= i < SLOTS && Ordered(s) =>
          if s.slots[i].None? then None else Some(Sess(i, s.heap[s.slots[i].value].state, [])))
  }

  function Messages(sent: seq<Sent>): seq<SmOut> {
    seq(|sent|, i requires 0 <= i < |sent| => sent[i].m)
  }

  function Shown(s: Sys): Table
    requires Ordered(s)
  {
    Table(Slots(s), [], Messages(s.sent))
  }

  /** Slots and messages of r are those of t. */
  ghost predicate Shows(r: Sys, t: Table) {
    Ordered(r) && Slots(r) == t.slots && Messages(r.sent) == t.sent
  }

  /** The same action, n times. */
  function Repeat(s: Sys, a: Action, n: nat): (r: Sys)
    requires Ordered(s)
    ensures Ordered(r)
  {
    if n == 0 then s
    else
      var before := Repeat(s, a, n - 1);
      StepOrdered(before, a);
      Do(before, a)
  }

  lemma MessagesAppend(sent: seq<Sent>, m: Sent)
    ensures Messages(sent + [m]) == Messages(sent) + [m.m]
  {
  }

  lemma FreeAgrees(s: Sys, i: nat)
    requires Ordered(s) && i <= SLOTS
    ensures FirstFree(Slots(s), i) == FirstFree(s.slots, i)
    decreases SLOTS - i
  {
    if i < SLOTS {
      FreeAgrees(s, i + 1);
    }
  }

  /** Two slots never hold one session, so a write to it shows in its own slot only. */
  lemma WriteShows(s: Sys, id: nat, st: SessionState)
    requires Ordered(s) && 1 <= id < SLOTS && s.slots[id].Some?
    ensures var r := s.(heap := s.heap[s.slots[id].value := s.heap[s.slots[id].value].(state := st)]);
            Ordered(r) && Slots(r) == Slots(s)[id := Some(Sess(id, st, []))]
  {
    WriteOrdered(s, s.slots[id].value, st);
  }

  // The listener.

  /** A handled accept with the expected PTI and session type. */
  lemma AcceptAlone(s: Sys, id: nat)
    requires Ordered(s) && s.holder.None? && s.listener == GotAccept(id)
    ensures var r := Repeat(s, StepListener, 2);
            r.listener == Idle && Shows(r, OnAccept(Shown(s), EstablishmentAccept(1, 1, id, None)))
  {
    var s1 := Do(s, StepListener);
    assert Repeat(s, StepListener, 1) == Do(Repeat(s, StepListener, 0), StepListener);
    if SlotOf(s.slots, id).Some? {
      WriteShows(s, id, Active);
    }
  }

  lemma RejectAlone(s: Sys, id: nat)
    requires Ordered(s) && s.holder.None? && s.listener == GotReject(id)
    ensures var r := Repeat(s, StepListener, if SlotOf(s.slots, id).Some? then 3 else 1);
            r.listener == Idle && Shows(r, OnReject(Shown(s), id))
  {
    LookupShows(s, id);
    if SlotOf(s.slots, id).Some? {
      RejectRemoves(s, id);
    } else {
      RepeatNext(s, StepListener, 0);
    }
  }

  lemma RejectLooksUp(s: Sys, id: nat)
    requires Ordered(s) && s.holder.None? && s.listener == GotReject(id) && SlotOf(s.slots, id).Some?
    ensures Do(s, StepListener) == s.(listener := RejectHeld(id, s.slots[id].value))
  {
  }

  lemma RejectMarks(s: Sys, id: nat, o: nat)
    requires Ordered(s) && s.listener == RejectHeld(id, o)
    ensures o < |s.heap| && Do(s, StepListener) == MarkInactive(s, o).(listener := Clearing(id, o))
  {
  }

  lemma ClearStep(s: Sys, id: nat, o: nat)
    requires Ordered(s) && s.holder.None? && s.listener == Clearing(id, o) && SlotOf(s.slots, id).Some?
    ensures Do(s, StepListener) ==
              s.(slots := s.slots[id := None], listener := Idle, cleared := s.cleared + [Cleared(id, o, s.slots[id])])
  {
  }

  lemma RejectRemoves(s: Sys, id: nat)
    requires Ordered(s) && s.holder.None? && s.listener == GotReject(id) && SlotOf(s.slots, id).Some?
    ensures var r := Repeat(s, StepListener, 3);
            r.listener == Idle && Slots(r) == Slots(s)[id := None] && r.sent == s.sent
  {
    var o := s.slots[id].value;
    RepeatNext(s, StepListener, 0);
    RejectLooksUp(s, id);
    RepeatNext(s, StepListener, 1);
    RejectMarks(Repeat(s, StepListener, 1), id, o);
    RepeatNext(s, StepListener, 2);
    ClearStep(Repeat(s, StepListener, 2), id, o);
    SlotsWithout(s, Repeat(s, StepListener, 3), id);
  }

  /** Lookup and check of a release command, then the answer. */
  lemma CommandAnswers(s: Sys, id: nat)
    requires Ordered(s) && s.holder.None? && s.listener == GotCommand(id)
    requires SlotOf(s.slots, id).Some? && s.heap[s.slots[id].value].state != Inactive
    ensures var o := s.slots[id].value;
            Repeat(s, StepListener, 3) ==
              s.(listener := CommandMark(id, o), sent := s.sent + [Sent(o, ReleaseComplete(id))])
  {
    assert Repeat(s, StepListener, 1) == Do(Repeat(s, StepListener, 0), StepListener);
    assert Repeat(s, StepListener, 2) == Do(Repeat(s, StepListener, 1), StepListener);
  }

  lemma CommandAlone(s: Sys, id: nat)
    requires Ordered(s) && s.holder.None? && s.listener == GotCommand(id)
    requires SlotOf(s.slots, id).Some? && s.heap[s.slots[id].value].state != Inactive
    ensures var r := Repeat(s, StepListener, 5);
            r.listener == Idle && Shows(r, OnReleaseCommand(Shown(s), id))
  {
    CommandAnswers(s, id);
    MessagesAppend(s.sent, Sent(s.slots[id].value, ReleaseComplete(id)));
    var s3 := Repeat(s, StepListener, 3);
    CommandEnds(s3, id);
    RepeatTwice(s, StepListener, 3);
    assert Slots(s3) == Slots(s);
  }

  lemma RepeatTwice(s: Sys, a: Action, n: nat)
    requires Ordered(s)
    ensures Repeat(s, a, n + 2) == Repeat(Repeat(s, a, n), a, 2)
  {
    var r := Repeat(s, a, n);
    assert Repeat(r, a, 0) == r && Repeat(r, a, 1) == Do(r, a);
    assert Repeat(s, a, n + 1) == Do(r, a);
  }

  /** After its answer the session is marked and removed. */
  lemma CommandEnds(s: Sys, id: nat)
    requires Ordered(s) && s.holder.None? && 1 <= id <= 15 && s.slots[id].Some?
    requires s.listener == CommandMark(id, s.slots[id].value)
    ensures var r := Repeat(s, StepListener, 2);
            r.listener == Idle && Slots(r) == Slots(s)[id := None] && r.sent == s.sent
  {
    StepOrdered(s, StepListener);
    RepeatTwo(s, StepListener);
    CommandClears(s, Do(s, StepListener), id);
    SlotsWithout(s, Do(Do(s, StepListener), StepListener), id);
  }

  lemma RepeatTwo(s: Sys, a: Action)
    requires Ordered(s)
    ensures Ordered(Do(s, a)) && Ordered(Do(Do(s, a), a)) && Repeat(s, a, 2) == Do(Do(s, a), a)
  {
    StepOrdered(s, a);
    StepOrdered(Do(s, a), a);
    RepeatNext(s, a, 0);
    RepeatNext(s, a, 1);
  }

  lemma RepeatNext(s: Sys, a: Action, n: nat)
    requires Ordered(s)
    ensures Repeat(s, a, 0) == s && Repeat(s, a, n + 1) == Do(Repeat(s, a, n), a)
  {
  }

  lemma CommandClears(s: Sys, s1: Sys, id: nat)
    requires Ordered(s) && s.holder.None? && 1 <= id <= 15 && s.slots[id].Some?
    requires s.listener == CommandMark(id, s.slots[id].value) && Ordered(s1) && s1 == Do(s, StepListener)
    ensures var o := s.slots[id].value;
            Do(s1, StepListener) ==
              MarkInactive(s, o).(listener := Idle, slots := s.slots[id := None],
                                  cleared := s.cleared + [Cleared(id, o, s.slots[id])])
  {
    assert s1 == MarkInactive(s, s.slots[id].value).(listener := Clearing(id, s.slots[id].value));
  }

  /** A slot emptied, and its session written: the other slots show what they showed. */
  lemma SlotsWithout(s: Sys, r: Sys, id: nat)
    requires Ordered(s) && Ordered(r) && 1 <= id < SLOTS && s.slots[id].Some? && r.slots == s.slots[id := None]
    requires |r.heap| == |s.heap| && forall o :: 0 <= o < |s.heap| && o != s.slots[id].value ==> r.heap[o] == s.heap[o]
    ensures Slots(r) == Slots(s)[id := None]
  {
  }

  lemma LookupShows(s: Sys, id: nat)
    requires Ordered(s)
    ensures Lookup(Shown(s), id) ==
              if SlotOf(s.slots, id).None? then None else Some(Sess(id, s.heap[s.slots[id].value].state, []))
  {
  }

  /** A command for an unknown or inactive session has no effect. */
  lemma CommandIgnored(s: Sys, id: nat)
    requires Ordered(s) && s.holder.None? && s.listener == GotCommand(id)
    requires SlotOf(s.slots, id).Some? ==> s.heap[s.slots[id].value].state == Inactive
    ensures Repeat(s, StepListener, 2) == s.(listener := Idle)
    ensures OnReleaseCommand(Shown(s), id) == Shown(s)
  {
    CommandReturns(s, id);
    LookupShows(s, id);
  }

  lemma CommandReturns(s: Sys, id: nat)
    requires Ordered(s) && s.holder.None? && s.listener == GotCommand(id)
    requires SlotOf(s.slots, id).Some? ==> s.heap[s.slots[id].value].state == Inactive
    ensures Repeat(s, StepListener, 2) == s.(listener := Idle)
  {
    assert Repeat(s, StepListener, 0) == s;
    var s1 := Do(s, StepListener);
    assert s1 == s.(listener := if SlotOf(s.slots, id).Some? then CommandHeld(id, s.slots[id].value) else Idle);
    assert Repeat(s, StepListener, 1) == s1;
    StepOrdered(s, StepListener);
    assert Do(s1, StepListener) == s.(listener := Idle);
  }

  // Triggers.

  /** With a free id the session exists, is pending, and its request is sent; without one nothing happens. */
  lemma CreateAlone(s: Sys, tid: nat)
    requires Ordered(s) && s.holder.None? && tid < |s.tasks| && s.tasks[tid] == WantCreate
    ensures var r := Repeat(s, StepTask(tid), if FirstFree(s.slots, 1) < SLOTS then 3 else 1);
            |r.tasks| == |s.tasks| && r.tasks[tid] == Done && Shows(r, Establish(Shown(s), true))
  {
    FreeAgrees(s, 1);
    if FirstFree(s.slots, 1) < SLOTS {
      CreatedAlone(s, tid, FirstFree(s.slots, 1));
      MessagesAppend(s.sent, Sent(|s.heap|, EstablishmentRequest(FirstFree(s.slots, 1))));
    } else {
      assert Repeat(s, StepTask(tid), 0) == s;
    }
  }

  lemma CreateStep(s: Sys, tid: nat, k: nat)
    requires Ordered(s) && s.holder.None? && tid < |s.tasks| && s.tasks[tid] == WantCreate
    requires k == FirstFree(s.slots, 1) < SLOTS
    ensures Do(s, StepTask(tid)) == Goto(Create(s, k), tid, Created(|s.heap|))
  {
  }

  lemma PendingStep(s: Sys, tid: nat, o: nat)
    requires Ordered(s) && tid < |s.tasks| && s.tasks[tid] == Created(o) && o < |s.heap|
    ensures Do(s, StepTask(tid)) == Goto(Write(s, o, ActivePending), tid, SendEstablish(o))
  {
  }

  lemma EstablishStep(s: Sys, tid: nat, o: nat)
    requires Ordered(s) && tid < |s.tasks| && s.tasks[tid] == SendEstablish(o) && o < |s.heap|
    ensures Do(s, StepTask(tid)) == Goto(s.(sent := s.sent + [Sent(o, EstablishmentRequest(s.heap[o].id))]), tid, Done)
  {
  }

  /** The three steps with a free id, on the objects. */
  lemma CreatedSteps(s: Sys, tid: nat, k: nat)
    requires Ordered(s) && s.holder.None? && tid < |s.tasks| && s.tasks[tid] == WantCreate
    requires k == FirstFree(s.slots, 1) < SLOTS
    ensures Repeat(s, StepTask(tid), 3) ==
              s.(heap := s.heap + [Obj(k, ActivePending)], slots := s.slots[k := Some(|s.heap|)],
                 tasks := s.tasks[tid := Done], sent := s.sent + [Sent(|s.heap|, EstablishmentRequest(k))])
  {
    var a, o := StepTask(tid), |s.heap|;
    RepeatNext(s, a, 0);
    CreateStep(s, tid, k);
    RepeatNext(s, a, 1);
    PendingStep(Repeat(s, a, 1), tid, o);
    assert Repeat(s, a, 2).heap == s.heap + [Obj(k, ActivePending)];
    RepeatNext(s, a, 2);
    EstablishStep(Repeat(s, a, 2), tid, o);
  }

  lemma CreatedAlone(s: Sys, tid: nat, k: nat)
    requires Ordered(s) && s.holder.None? && tid < |s.tasks| && s.tasks[tid] == WantCreate
    requires k == FirstFree(s.slots, 1) < SLOTS
    ensures var r := Repeat(s, StepTask(tid), 3);
            r.tasks == s.tasks[tid := Done] && Slots(r) == Slots(s)[k := Some(Sess(k, ActivePending, []))] &&
            r.sent == s.sent + [Sent(|s.heap|, EstablishmentRequest(k))]
  {
    CreatedSteps(s, tid, k);
    SlotsWith(s, Repeat(s, StepTask(tid), 3), k, ActivePending);
  }

  lemma SlotsWith(s: Sys, r: Sys, k: nat, st: SessionState)
    requires Ordered(s) && Ordered(r) && 1 <= k < SLOTS
    requires r.slots == s.slots[k := Some(|s.heap|)] && r.heap == s.heap + [Obj(k, st)]
    ensures Slots(r) == Slots(s)[k := Some(Sess(k, st, []))]
  {
  }

  /** Lookup of the session to release. */
  lemma ReleaseLooksUp(s: Sys, tid: nat, id: nat)
    requires Ordered(s) && s.holder.None? && tid < |s.tasks| && s.tasks[tid] == WantRelease(id)
    ensures Do(s, StepTask(tid)) ==
              Goto(s, tid, if SlotOf(s.slots, id).Some? then Releasing([s.slots[id].value]) else Done)
  {
  }

  /** One round of a release: check, write, and send, for a session in the table. */
  lemma ReleaseRound(s: Sys, tid: nat, id: nat, rest: seq<nat>)
    requires Ordered(s) && tid < |s.tasks| && 1 <= id < SLOTS && s.slots[id].Some?
    requires s.tasks[tid] == Releasing([s.slots[id].value] + rest)
    ensures var active := s.heap[s.slots[id].value].state == Active;
            var r := Repeat(s, StepTask(tid), if active then 3 else 1);
            |r.tasks| == |s.tasks| && r.tasks[tid] == Releasing(rest) && r.slots == s.slots &&
            r.holder == s.holder && Shows(r, Release(Shown(s), id))
  {
    var a, o := StepTask(tid), s.slots[id].value;
    var todo := [o] + rest;
    assert todo[0] == o && todo[1..] == rest;
    assert Repeat(s, a, 0) == s;
    var s1 := Do(s, a);
    assert Repeat(s, a, 1) == s1;
    if s.heap[o].state == Active {
      assert s1 == Goto(s, tid, Checked(todo));
      StepOrdered(s, a);
      var s2 := Do(s1, a);
      assert Repeat(s, a, 2) == s2;
      assert s2 == Goto(Write(s, o, InactivePending), tid, SendRelease(todo));
      WriteShows(s, id, InactivePending);
      assert Slots(s2) == Slots(s)[id := Some(Sess(id, InactivePending, []))];
      assert Repeat(s, a, 3) == Do(s2, a);
      MessagesAppend(s.sent, Sent(o, ReleaseRequest(id)));
    }
  }

  /** The active sessions below n, as objects. */
  function Found(s: Sys, n: nat): seq<nat>
    requires Ordered(s) && n <= SLOTS
  {
    if n <= 1 then []
    else
      var h := s.slots[n - 1];
      Found(s, n - 1) + if h.Some? && s.heap[h.value].state == Active then [h.value] else []
  }

  /** They are the sessions with the ids that the scan of the whole handler lists, in the same order. */
  lemma {:induction false} FoundAgrees(s: Sys, n: nat)
    requires Ordered(s) && n <= SLOTS
    ensures var ids := ActiveIds(Slots(s), n);
            |Found(s, n)| == |ids| && forall k :: 0 <= k < |ids| ==> s.slots[ids[k]] == Some(Found(s, n)[k])
  {
    if n > 1 {
      FoundAgrees(s, n - 1);
    }
  }

  /** Where the scan stands before slot n. */
  function ScanningAt(s: Sys, tid: nat, n: nat): Sys
    requires Ordered(s) && tid < |s.tasks| && n <= SLOTS
  {
    Goto(s.(holder := Some(tid)), tid, Scanning(n, Found(s, n)))
  }

  lemma ScanStep(s: Sys, r: Sys, tid: nat, n: nat)
    requires Ordered(s) && tid < |s.tasks| && 1 <= n < SLOTS && Ordered(r) && r == ScanningAt(s, tid, n)
    ensures Do(r, StepTask(tid)) == ScanningAt(s, tid, n + 1)
  {
    var h := s.slots[n];
    var more := if h.Some? && s.heap[h.value].state == Active then Found(s, n) + [h.value] else Found(s, n);
    assert Found(s, n + 1) == more;
    assert Do(r, StepTask(tid)) == Goto(r, tid, Scanning(n + 1, more));
    assert r.tasks[tid := Scanning(n + 1, more)] == s.tasks[tid := Scanning(n + 1, more)];
  }

  lemma ScanBegins(s: Sys, tid: nat)
    requires Ordered(s) && s.holder.None? && tid < |s.tasks| && s.tasks[tid] == WantReleaseAll
    ensures Do(s, StepTask(tid)) == ScanningAt(s, tid, 1)
  {
  }

  /** The scan of release-all, which keeps the UE mutex, collects exactly these. */
  lemma {:induction false} ScanAlone(s: Sys, tid: nat, n: nat)
    requires Ordered(s) && s.holder.None? && tid < |s.tasks| && s.tasks[tid] == WantReleaseAll && 1 <= n <= SLOTS
    ensures Repeat(s, StepTask(tid), n) == ScanningAt(s, tid, n)
  {
    RepeatNext(s, StepTask(tid), n - 1);
    if n == 1 {
      ScanBegins(s, tid);
    } else {
      ScanAlone(s, tid, n - 1);
      ScanStep(s, Repeat(s, StepTask(tid), n - 1), tid, n - 1);
    }
  }

  /** The scan ends with the mutex free and a release round to do for each session found. */
  lemma ScanEnds(s: Sys, tid: nat)
    requires Ordered(s) && s.holder.None? && tid < |s.tasks| && s.tasks[tid] == WantReleaseAll
    ensures Repeat(s, StepTask(tid), SLOTS + 1) == Goto(s, tid, Releasing(Found(s, SLOTS)))
  {
    ScanAlone(s, tid, SLOTS);
    var scanned := Repeat(s, StepTask(tid), SLOTS);
    assert scanned.tasks[tid := Releasing(Found(s, SLOTS))] == s.tasks[tid := Releasing(Found(s, SLOTS))];
    assert Repeat(s, StepTask(tid), SLOTS + 1) == Do(scanned, StepTask(tid));
  }

  // The mutex.

  /** While a scan keeps the UE mutex, whoever needs it waits, and the slots stay. */
  lemma ScanExcludes(s: Sys, tid: nat, a: Action)
    requires Ordered(s) && s.holder.Some?
    ensures tid < |s.tasks| && Started(s.tasks[tid]) ==> Do(s, StepTask(tid)) == s
    ensures s.listener.Clearing? || Message(s.listener) ==> Do(s, StepListener) == s
    ensures Do(s, a).slots == s.slots
  {
  }
}
