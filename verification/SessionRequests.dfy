/** How many release requests the triggers send for one activation of a session. */
module SessionRequests {
  import opened Bytes
  import opened Sessions
  import opened SessionLocks

  function One(b: bool): nat {
    if b then 1 else 0
  }

  /** The trigger finds the session active, and so will send a release request for it. */
  predicate Passes(s: Sys, a: Action, o: nat)
    requires Ordered(s)
  {
    a.StepTask? && a.tid < |s.tasks| && s.tasks[a.tid].Releasing? && s.tasks[a.tid].todo != [] &&
    s.tasks[a.tid].todo[0] == o && o < |s.heap| && s.heap[o].state == Active
  }

  /** Some trigger has checked the session and not yet written its state. */
  ghost predicate AtCheck(s: Sys, o: nat) {
    exists tid :: 0 <= tid < |s.tasks| && Checking(s.tasks[tid], o)
  }

  predicate Checking(t: Task, o: nat) {
    t.Checked? && t.todo != [] && t.todo[0] == o
  }

  predicate Activates(s: Sys, a: Action, o: nat) {
    a.StepListener? && s.listener.AcceptHeld? && s.listener.o == o
  }

  ghost function Activations(s: Sys, acts: seq<Action>, o: nat): nat
    requires Ordered(s)
  {
    if acts == [] then 0
    else
      var n := |acts| - 1;
      Activations(s, acts[..n], o) + One(Activates(RunAll(s, acts[..n]), acts[n], o))
  }

  /** How often a trigger passes the check while another stands between check and write. */
  ghost function Overlaps(s: Sys, acts: seq<Action>, o: nat): nat
    requires Ordered(s)
  {
    if acts == [] then 0
    else
      var n := |acts| - 1;
      var before := RunAll(s, acts[..n]);
      Overlaps(s, acts[..n], o) + One(Passes(before, acts[n], o) && AtCheck(before, o))
  }

  function Requests(sent: seq<Sent>, o: nat): nat {
    if sent == [] then 0
    else
      var last := sent[|sent| - 1];
      Requests(sent[..|sent| - 1], o) + if last.o == o && last.m.ReleaseRequest? then 1 else 0
  }

  lemma RequestsAppend(sent: seq<Sent>, m: Sent, o: nat)
    ensures Requests(sent + [m], o) == Requests(sent, o) + if m.o == o && m.m.ReleaseRequest? then 1 else 0
  {
    assert (sent + [m])[..|sent|] == sent;
  }

  /** The trigger has passed the check and not yet sent. */
  predicate Owes(t: Task, o: nat) {
    (t.Checked? || t.SendRelease?) && t.todo != [] && t.todo[0] == o
  }

  function Owed(tasks: seq<Task>, o: nat): nat {
    if tasks == [] then 0 else Owed(tasks[..|tasks| - 1], o) + if Owes(tasks[|tasks| - 1], o) then 1 else 0
  }

  lemma {:induction false} OwedUpdate(tasks: seq<Task>, tid: nat, t: Task, o: nat)
    requires tid < |tasks|
    ensures Owed(tasks[tid := t], o) + (if Owes(tasks[tid], o) then 1 else 0) ==
              Owed(tasks, o) + (if Owes(t, o) then 1 else 0)
  {
    var n := |tasks| - 1;
    if tid < n {
      OwedUpdate(tasks[..n], tid, t, o);
      assert tasks[tid := t][..n] == tasks[..n][tid := t];
    } else {
      assert tasks[tid := t][..n] == tasks[..n];
    }
  }

  /** The requests sent or owed for a session. */
  function Issued(s: Sys, o: nat): nat {
    Requests(s.sent, o) + Owed(s.tasks, o)
  }

  /** Requests sent or owed: a trigger's step adds one exactly when it passes the check. */
  lemma TaskRequests(s: Sys, tid: nat, o: nat)
    requires Ordered(s) && tid < |s.tasks|
    ensures var r := TaskStep(s, tid);
            Issued(r, o) == Issued(s, o) + One(Passes(s, StepTask(tid), o))
  {
    var t, t' := s.tasks[tid], TaskStep(s, tid).tasks[tid];
    assert TaskKnows(t, |s.heap|);
    TaskTasks(s, tid);
    OwedUpdate(s.tasks, tid, t', o);
    match t {
      case SendEstablish(p) =>
        RequestsAppend(s.sent, Sent(p, EstablishmentRequest(s.heap[p].id)), o);
      case SendRelease(todo) =>
        RequestsAppend(s.sent, Sent(todo[0], ReleaseRequest(s.heap[todo[0]].id)), o);
      case _ =>
        assert TaskStep(s, tid).sent == s.sent;
    }
  }

  lemma TaskTasks(s: Sys, tid: nat)
    requires Ordered(s) && tid < |s.tasks|
    ensures var r := TaskStep(s, tid); |r.tasks| == |s.tasks| && r.tasks == s.tasks[tid := r.tasks[tid]]
  {
  }

  /** The session is active and no trigger has claimed this activation. */
  ghost predicate Unclaimed(s: Sys, o: nat) {
    IsActive(s, o) && !AtCheck(s, o)
  }

  ghost function Slack(s: Sys, o: nat): nat {
    One(Unclaimed(s, o))
  }

  /** The step uses up an activation without a request, or repeats one that is not used up yet. */
  ghost predicate Loses(s: Sys, a: Action, o: nat)
    requires Ordered(s)
  {
    || (Activates(s, a, o) && (Unclaimed(s, o) || AtCheck(s, o)))
    || (Unclaimed(s, o) && a.StepListener? && (s.listener.RejectHeld? || s.listener.CommandMark?) && s.listener.o == o)
    || (Unclaimed(s, o) && a.StepTask? && a.tid < |s.tasks| && s.tasks[a.tid] == Created(o))
  }

  ghost function Lost(s: Sys, acts: seq<Action>, o: nat): nat
    requires Ordered(s)
  {
    if acts == [] then 0
    else
      var n := |acts| - 1;
      Lost(s, acts[..n], o) + One(Loses(RunAll(s, acts[..n]), acts[n], o))
  }

  /** Some trigger other than tid is at the check. */
  ghost predicate OthersCheck(s: Sys, tid: nat, o: nat) {
    exists k :: 0 <= k < |s.tasks| && k != tid && Checking(s.tasks[k], o)
  }

  lemma TaskAtCheck(s: Sys, tid: nat, o: nat)
    requires Ordered(s) && tid < |s.tasks|
    ensures AtCheck(s, o) <==> Checking(s.tasks[tid], o) || OthersCheck(s, tid, o)
    ensures var r := TaskStep(s, tid);
            tid < |r.tasks| && (AtCheck(r, o) <==> Checking(r.tasks[tid], o) || OthersCheck(s, tid, o))
  {
    var r := TaskStep(s, tid);
    TaskTasks(s, tid);
    if OthersCheck(s, tid, o) {
      var k :| 0 <= k < |s.tasks| && k != tid && Checking(s.tasks[k], o);
      assert Checking(r.tasks[k], o);
    }
    if AtCheck(r, o) {
      var k :| 0 <= k < |r.tasks| && Checking(r.tasks[k], o);
      assert k != tid ==> r.tasks[k] == s.tasks[k];
    }
  }

  /** What a trigger's step does to the session's state. */
  lemma TaskState(s: Sys, tid: nat, o: nat)
    requires Ordered(s) && tid < |s.tasks|
    ensures var r, t := TaskStep(s, tid), s.tasks[tid];
            if t == Created(o) || Checking(t, o) then o < |r.heap| && r.heap[o].state != Active
            else IsActive(r, o) == IsActive(s, o)
    ensures Checking(TaskStep(s, tid).tasks[tid], o) <==> Passes(s, StepTask(tid), o)
  {
    assert TaskKnows(s.tasks[tid], |s.heap|);
  }

  predicate IsActive(s: Sys, o: nat) {
    o < |s.heap| && s.heap[o].state == Active
  }

  lemma TaskSlack(s: Sys, tid: nat, o: nat)
    requires Ordered(s) && tid < |s.tasks|
    ensures var a := StepTask(tid);
            Slack(TaskStep(s, tid), o) + One(Passes(s, a, o)) + One(Loses(s, a, o)) ==
              Slack(s, o) + One(Passes(s, a, o) && AtCheck(s, o))
  {
    TaskAtCheck(s, tid, o);
    TaskState(s, tid, o);
  }

  lemma ListenerSlack(s: Sys, o: nat)
    requires Ordered(s)
    ensures var r, a := ListenerStep(s), StepListener;
            Slack(r, o) + One(Loses(s, a, o)) == Slack(s, o) + One(Activates(s, a, o)) && Issued(r, o) == Issued(s, o)
  {
    var r := ListenerStep(s);
    if s.listener.CommandSend? {
      RequestsAppend(s.sent, Sent(s.listener.o, ReleaseComplete(s.listener.id)), o);
    } else {
      assert r.sent == s.sent;
    }
    assert r.tasks == s.tasks;
    assert AtCheck(r, o) == AtCheck(s, o);
  }

  lemma SpawnSlack(s: Sys, t: Task, o: nat)
    requires Ordered(s) && Started(t)
    ensures var r := s.(tasks := s.tasks + [t]); Issued(r, o) == Issued(s, o) && Slack(r, o) == Slack(s, o)
  {
    var r := s.(tasks := s.tasks + [t]);
    assert r.tasks[..|s.tasks|] == s.tasks;
    if AtCheck(s, o) {
      var k :| 0 <= k < |s.tasks| && Checking(s.tasks[k], o);
      assert Checking(r.tasks[k], o);
    }
  }

  /** The ledger of one step. */
  lemma StepLedger(s: Sys, a: Action, o: nat)
    requires Ordered(s)
    ensures var r := Do(s, a);
            Issued(r, o) + Slack(r, o) + One(Loses(s, a, o)) ==
              Issued(s, o) + Slack(s, o) + One(Activates(s, a, o)) + One(Passes(s, a, o) && AtCheck(s, o))
  {
    match a
    case StepTask(tid) =>
      if tid < |s.tasks| {
        TaskRequests(s, tid, o);
        TaskSlack(s, tid, o);
      }
    case StepListener => ListenerSlack(s, o);
    case Spawn(t) =>
      if Started(t) {
        SpawnSlack(s, t, o);
      }
    case Deliver(m) =>
      assert Do(s, a).tasks == s.tasks && AtCheck(Do(s, a), o) == AtCheck(s, o);
  }

  /** Over any stretch, what is issued or still open balances with activations and overlaps. */
  lemma {:induction false} Ledger(s: Sys, acts: seq<Action>, o: nat)
    requires Ordered(s)
    ensures var r := RunAll(s, acts);
            Issued(r, o) + Slack(r, o) + Lost(s, acts, o) ==
              Issued(s, o) + Slack(s, o) + Activations(s, acts, o) + Overlaps(s, acts, o)
  {
    if acts != [] {
      var n := |acts| - 1;
      Ledger(s, acts[..n], o);
      StepLedger(RunAll(s, acts[..n]), acts[n], o);
    }
  }

  /**
    Requests and activations over every interleaving: the requests sent or owed for a session exceed
    its activations if and only if there were more overlaps than activations lost or still open.
   */
  lemma RequestsPerActivation(acts: seq<Action>, o: nat)
    requires Ordered(START)
    ensures var s := RunAll(START, acts);
            Issued(s, o) + Slack(s, o) + Lost(START, acts, o) == Activations(START, acts, o) + Overlaps(START, acts, o)
    ensures var s := RunAll(START, acts);
            Issued(s, o) > Activations(START, acts, o) <==>
              Overlaps(START, acts, o) > Lost(START, acts, o) + Slack(s, o)
  {
    Ledger(START, acts, o);
    assert Issued(START, o) == 0 && Slack(START, o) == 0;
  }

  // One activation.

  /** How a stretch without activation stands: unclaimed, lost, or claimed. */
  ghost predicate Stretch(s: Sys, acts: seq<Action>, o: nat)
    requires Ordered(s)
  {
    var r := RunAll(s, acts);
    && (Unclaimed(r, o) ==> Unclaimed(s, o) && Overlaps(s, acts, o) == 0 && Lost(s, acts, o) == 0)
    && (Lost(s, acts, o) > 0 ==>
          Unclaimed(s, o) && Overlaps(s, acts, o) == 0 && Lost(s, acts, o) == 1 && !IsActive(r, o))
  }

  lemma StepStretch(s: Sys, a: Action, o: nat)
    requires Ordered(s) && !Activates(s, a, o)
    ensures IsActive(Do(s, a), o) ==> IsActive(s, o)
    ensures Loses(s, a, o) ==> Unclaimed(s, o) && !IsActive(Do(s, a), o)
    ensures Unclaimed(Do(s, a), o) ==> Unclaimed(s, o) && !Loses(s, a, o)
  {
    StepLedger(s, a, o);
    if a.StepTask? && a.tid < |s.tasks| {
      TaskState(s, a.tid, o);
      TaskSlack(s, a.tid, o);
    } else if a.StepListener? {
      ListenerSlack(s, o);
    }
  }

  lemma {:induction false} StretchHolds(s: Sys, acts: seq<Action>, o: nat)
    requires Ordered(s) && Activations(s, acts, o) == 0
    ensures Stretch(s, acts, o)
  {
    if acts != [] {
      var n := |acts| - 1;
      StretchHolds(s, acts[..n], o);
      StepStretch(RunAll(s, acts[..n]), acts[n], o);
    }
  }

  /**
    A second request for one activation: from the activation on, and until the next one, two requests
    or more are issued if and only if some trigger passes the check while another stands between check
    and write; if one stood there at the activation already, then two triggers have to.
   */
  lemma DuplicatesExactly(s: Sys, acts: seq<Action>, o: nat)
    requires Ordered(s) && IsActive(s, o) && Activations(s, acts, o) == 0
    ensures Issued(RunAll(s, acts), o) >= Issued(s, o) + 2 <==>
              Overlaps(s, acts, o) >= if AtCheck(s, o) then 2 else 1
  {
    Ledger(s, acts, o);
    StretchHolds(s, acts, o);
  }

  /** One trigger stands at the check of an active session that another has checked and not yet written. */
  predicate Collision(s: Sys, i: nat, j: nat, o: nat) {
    i < |s.tasks| && j < |s.tasks| && i != j && s.tasks[i] == Checked([o]) && s.tasks[j] == Releasing([o]) &&
    o < |s.heap| && s.heap[o].state == Active
  }

  /** Where two triggers and the session they work on stand, and what has been sent. */
  ghost predicate Both(s: Sys, i: nat, ti: Task, j: nat, tj: Task, o: nat, id: nat, sent: seq<Sent>) {
    Ordered(s) && i < |s.tasks| && j < |s.tasks| && i != j && s.tasks[i] == ti && s.tasks[j] == tj &&
    o < |s.heap| && s.heap[o].id == id && s.sent == sent
  }

  lemma CheckOne(s: Sys, i: nat, j: nat, o: nat)
    requires Ordered(s) && Collision(s, i, j, o)
    ensures Passes(s, StepTask(j), o) && AtCheck(s, o)
    ensures Both(Do(s, StepTask(j)), i, Checked([o]), j, Checked([o]), o, s.heap[o].id, s.sent)
  {
    assert Checking(s.tasks[i], o);
    StepOrdered(s, StepTask(j));
  }

  lemma WriteOne(s: Sys, i: nat, j: nat, tj: Task, o: nat, id: nat, sent: seq<Sent>)
    requires Both(s, i, Checked([o]), j, tj, o, id, sent)
    ensures Both(Do(s, StepTask(i)), i, SendRelease([o]), j, tj, o, id, sent)
  {
    StepOrdered(s, StepTask(i));
  }

  lemma SendOne(s: Sys, i: nat, j: nat, tj: Task, o: nat, id: nat, sent: seq<Sent>)
    requires Both(s, i, SendRelease([o]), j, tj, o, id, sent)
    ensures Both(Do(s, StepTask(i)), i, Releasing([]), j, tj, o, id, sent + [Sent(o, ReleaseRequest(id))])
  {
    StepOrdered(s, StepTask(i));
    assert [o][1..] == [];
  }

  lemma WriteBoth(s: Sys, i: nat, j: nat, o: nat) returns (r: Sys)
    requires Ordered(s) && Collision(s, i, j, o)
    ensures Passes(s, StepTask(j), o) && AtCheck(s, o)
    ensures r == RunAll(s, [StepTask(j), StepTask(i), StepTask(j)])
    ensures Both(r, i, SendRelease([o]), j, SendRelease([o]), o, s.heap[o].id, s.sent)
  {
    CheckOne(s, i, j, o);
    OneStep(s, StepTask(j));
    r := RunAll(s, [StepTask(j)]);
    WriteOne(r, i, j, Checked([o]), o, s.heap[o].id, s.sent);
    RunNext(s, [StepTask(j)], StepTask(i));
    r := RunAll(s, [StepTask(j)] + [StepTask(i)]);
    WriteOne(r, j, i, SendRelease([o]), o, s.heap[o].id, s.sent);
    RunNext(s, [StepTask(j)] + [StepTask(i)], StepTask(j));
    assert [StepTask(j)] + [StepTask(i)] + [StepTask(j)] == [StepTask(j), StepTask(i), StepTask(j)];
    r := RunAll(s, [StepTask(j), StepTask(i), StepTask(j)]);
  }

  lemma SendBoth(s: Sys, i: nat, j: nat, o: nat)
    requires Ordered(s) && o < |s.heap|
    requires Both(s, i, SendRelease([o]), j, SendRelease([o]), o, s.heap[o].id, s.sent)
    ensures var request := Sent(o, ReleaseRequest(s.heap[o].id));
            RunAll(s, [StepTask(i), StepTask(j)]).sent == s.sent + [request, request]
  {
    var id := s.heap[o].id;
    SendOne(s, i, j, SendRelease([o]), o, id, s.sent);
    OneStep(s, StepTask(i));
    SendOne(RunAll(s, [StepTask(i)]), j, i, Releasing([]), o, id, s.sent + [Sent(o, ReleaseRequest(id))]);
    RunNext(s, [StepTask(i)], StepTask(j));
    assert [StepTask(i)] + [StepTask(j)] == [StepTask(i), StepTask(j)];
  }

  /** From a collision both triggers send, without any step of the listener. */
  lemma BothSend(s: Sys, i: nat, j: nat, o: nat)
    requires Ordered(s) && Collision(s, i, j, o)
    ensures var request := Sent(o, ReleaseRequest(s.heap[o].id));
            RunAll(s, BothSteps(i, j)).sent == s.sent + [request, request]
  {
    var write, send := [StepTask(j), StepTask(i), StepTask(j)], [StepTask(i), StepTask(j)];
    var r := WriteBoth(s, i, j, o);
    SendBoth(r, i, j, o);
    RunConcat(s, write, send);
  }

  /** The check of j is an overlap, and there is no activation. */
  lemma BothCount(s: Sys, i: nat, j: nat, o: nat)
    requires Ordered(s) && Collision(s, i, j, o)
    ensures Overlaps(s, BothSteps(i, j), o) >= 1 && Activations(s, BothSteps(i, j), o) == 0
  {
    var acts := BothSteps(i, j);
    CheckOne(s, i, j, o);
    QuietListener(s, acts, o);
    assert acts == [StepTask(j)] + acts[1..];
    OverlapsConcat(s, [StepTask(j)], acts[1..], o);
    FirstOverlap(s, StepTask(j), o);
  }

  /** j checks, i and j write, i and j send. */
  function BothSteps(i: nat, j: nat): seq<Action> {
    [StepTask(j), StepTask(i), StepTask(j)] + [StepTask(i), StepTask(j)]
  }

  lemma FirstOverlap(s: Sys, a: Action, o: nat)
    requires Ordered(s)
    ensures Overlaps(s, [a], o) == One(Passes(s, a, o) && AtCheck(s, o))
  {
    assert [a][..0] == [] && RunAll(s, []) == s;
  }

  lemma {:induction false} QuietListener(s: Sys, acts: seq<Action>, o: nat)
    requires Ordered(s) && forall k :: 0 <= k < |acts| ==> acts[k] != StepListener
    ensures Activations(s, acts, o) == 0
  {
    if acts != [] {
      QuietListener(s, acts[..|acts| - 1], o);
    }
  }

  lemma CountsNext(s: Sys, acts: seq<Action>, a: Action, o: nat)
    requires Ordered(s)
    ensures var r := RunAll(s, acts);
            Activations(s, acts + [a], o) == Activations(s, acts, o) + One(Activates(r, a, o)) &&
            Overlaps(s, acts + [a], o) == Overlaps(s, acts, o) + One(Passes(r, a, o) && AtCheck(r, o))
  {
    assert (acts + [a])[..|acts|] == acts;
  }

  /** One more action counts the same after acts as it does from the state that acts lead to. */
  lemma CountsAgree(
      s: Sys, acts: seq<Action>, r: Sys, front: seq<Action>, last: Action, all: seq<Action>, more: seq<Action>, o: nat)
    requires Ordered(s) && r == RunAll(s, acts) && all == acts + more && more == front + [last]
    ensures Activations(s, all, o) - Activations(s, acts + front, o) ==
              Activations(r, more, o) - Activations(r, front, o)
    ensures Overlaps(s, all, o) - Overlaps(s, acts + front, o) == Overlaps(r, more, o) - Overlaps(r, front, o)
  {
    RunConcat(s, acts, front);
    CountsNext(s, acts + front, last, o);
    CountsNext(r, front, last, o);
    assert all == acts + front + [last];
  }

  lemma {:induction false} ActivationsConcat(s: Sys, acts: seq<Action>, more: seq<Action>, o: nat)
    requires Ordered(s)
    ensures Activations(s, acts + more, o) == Activations(s, acts, o) + Activations(RunAll(s, acts), more, o)
  {
    if more == [] {
      assert acts + more == acts;
    } else {
      var front := more[..|more| - 1];
      ActivationsConcat(s, acts, front, o);
      CountsAgree(s, acts, RunAll(s, acts), front, more[|more| - 1], acts + more, more, o);
    }
  }

  lemma {:induction false} OverlapsConcat(s: Sys, acts: seq<Action>, more: seq<Action>, o: nat)
    requires Ordered(s)
    ensures Overlaps(s, acts + more, o) == Overlaps(s, acts, o) + Overlaps(RunAll(s, acts), more, o)
  {
    if more == [] {
      assert acts + more == acts;
    } else {
      var front := more[..|more| - 1];
      OverlapsConcat(s, acts, front, o);
      CountsAgree(s, acts, RunAll(s, acts), front, more[|more| - 1], acts + more, more, o);
    }
  }

  /**
    i checks an active session, no activation follows, and j arrives while i has not yet written: one
    interleaving then issues two requests or more, all for the activation that i has checked.
   */
  lemma CollisionDuplicates(s: Sys, mid: seq<Action>, i: nat, j: nat, o: nat)
    requires Ordered(s) && Passes(s, StepTask(i), o) && Activations(s, [StepTask(i)] + mid, o) == 0
    requires Collision(RunAll(s, [StepTask(i)] + mid), i, j, o)
    ensures var acts := [StepTask(i)] + mid + BothSteps(i, j);
            Activations(s, acts, o) == 0 && Issued(RunAll(s, acts), o) >= Issued(s, o) + 2
  {
    var first := [StepTask(i)] + mid;
    BothCount(RunAll(s, first), i, j, o);
    ActivationsConcat(s, first, BothSteps(i, j), o);
    OverlapsConcat(s, first, BothSteps(i, j), o);
    OverlapsConcat(s, [StepTask(i)], mid, o);
    FirstOverlap(s, StepTask(i), o);
    DuplicatesExactly(s, first + BothSteps(i, j), o);
  }

  /** One session is created and accepted once, and two triggers are asked to release it. */
  const COLLIDE: seq<Action> := [
    Spawn(WantCreate), StepTask(0), StepTask(0), StepTask(0),
    Deliver(GotAccept(1)), StepListener, StepListener,
    Spawn(WantRelease(1)), Spawn(WantRelease(1)), StepTask(1), StepTask(2), StepTask(1)]

  /** The state of that run while session 1 has the given state. */
  function OneSession(slots: seq<Option<nat>>, state: SessionState, listener: Listener, tasks: seq<Task>): Sys
    requires |slots| == SLOTS
  {
    Sys([Obj(1, state)], slots[1 := Some(0)], None, listener, tasks, [], {}, [Sent(0, EstablishmentRequest(1))])
  }

  lemma CollideCreates(acts: seq<Action>)
    requires Ordered(START) && acts == COLLIDE[..4]
    ensures RunAll(START, acts) == OneSession(START.slots, ActivePending, Idle, [Done])
  {
    var c := COLLIDE;
    assert acts == c[..2] + [c[2]] + [c[3]] && c[..2] == RACE[..2];
    RaceBegins(c[..2]);
    RunNext(START, c[..2], c[2]);
    var sent: seq<Sent> := [];
    assert RunAll(START, c[..2] + [c[2]]) ==
           OneSession(START.slots, ActivePending, Idle, [SendEstablish(0)]).(sent := sent);
    RunNext(START, c[..2] + [c[2]], c[3]);
  }

  lemma CollideLooksUp(acts: seq<Action>, looked: seq<Action>)
    requires Ordered(START) && acts == COLLIDE[..5] && looked == COLLIDE[..6]
    ensures RunAll(START, acts) == OneSession(START.slots, ActivePending, GotAccept(1), [Done])
    ensures RunAll(START, looked) == OneSession(START.slots, ActivePending, AcceptHeld(1, 0), [Done])
  {
    var c := COLLIDE;
    CollideCreates(c[..4]);
    assert acts == c[..4] + [c[4]] && looked == acts + [c[5]];
    RunNext(START, c[..4], c[4]);
    RunNext(START, acts, c[5]);
  }

  lemma CollideAccepts(acts: seq<Action>)
    requires Ordered(START) && acts == COLLIDE[..7]
    ensures RunAll(START, acts) == OneSession(START.slots, Active, Idle, [Done])
  {
    var c := COLLIDE;
    CollideLooksUp(c[..5], c[..6]);
    assert acts == c[..6] + [c[6]];
    RunNext(START, c[..6], c[6]);
  }

  /** Two listener steps among others, of which only the second is an activation. */
  lemma OneActivation(s: Sys, before: seq<Action>, a: Action, b: Action, after: seq<Action>, o: nat)
    requires Ordered(s) && forall k :: 0 <= k < |before| ==> before[k] != StepListener
    requires forall k :: 0 <= k < |after| ==> after[k] != StepListener
    requires !Activates(RunAll(s, before), a, o) && Activates(RunAll(s, before + [a]), b, o)
    ensures Activations(s, before + [a] + [b] + after, o) == 1
  {
    QuietListener(s, before, o);
    CountsNext(s, before, a, o);
    CountsNext(s, before + [a], b, o);
    QuietListener(RunAll(s, before + [a] + [b]), after, o);
    ActivationsConcat(s, before + [a] + [b], after, o);
  }

  lemma CollideActivates(c: seq<Action>)
    requires Ordered(START) && c == COLLIDE
    ensures Activations(START, c, 0) == 1
  {
    CollideLooksUp(c[..5], c[..6]);
    assert c[..6] == c[..5] + [c[5]];
    OneActivation(START, c[..5], c[5], c[6], c[7..], 0);
    assert c == c[..5] + [c[5]] + [c[6]] + c[7..];
  }

  lemma CollideReleases(acts: seq<Action>)
    requires Ordered(START) && acts == COLLIDE[..10]
    ensures RunAll(START, acts) == OneSession(START.slots, Active, Idle, [Done, Releasing([0]), WantRelease(1)])
  {
    var c := COLLIDE;
    CollideAccepts(c[..7]);
    assert acts == c[..7] + [c[7]] + [c[8]] + [c[9]];
    RunNext(START, c[..7], c[7]);
    RunNext(START, c[..7] + [c[7]], c[8]);
    RunNext(START, c[..7] + [c[7]] + [c[8]], c[9]);
    assert RunAll(START, c[..7] + [c[7]] + [c[8]]) ==
           OneSession(START.slots, Active, Idle, [Done, WantRelease(1), WantRelease(1)]);
  }

  lemma CollideMeets(acts: seq<Action>)
    requires Ordered(START) && acts == COLLIDE[..11]
    ensures RunAll(START, acts) == OneSession(START.slots, Active, Idle, [Done, Releasing([0]), Releasing([0])])
  {
    CollideReleases(COLLIDE[..10]);
    assert acts == COLLIDE[..10] + [COLLIDE[10]];
    RunNext(START, COLLIDE[..10], COLLIDE[10]);
  }

  /** A collision is reachable with a single activation. */
  lemma CollisionReached()
    ensures Ordered(START) && Collision(RunAll(START, COLLIDE), 1, 2, 0)
    ensures RunAll(START, COLLIDE) == OneSession(START.slots, Active, Idle, [Done, Checked([0]), Releasing([0])])
    ensures Activations(START, COLLIDE, 0) == 1
  {
    CollideActivates(COLLIDE);
    CollideMeets(COLLIDE[..11]);
    assert COLLIDE == COLLIDE[..11] + [COLLIDE[11]];
    RunNext(START, COLLIDE[..11], COLLIDE[11]);
  }

  /** A complete run: one session, one activation, two release requests. */
  lemma DuplicateSent()
    ensures Ordered(START)
    ensures var acts := COLLIDE + BothSteps(1, 2);
            Activations(START, acts, 0) == 1 && Requests(RunAll(START, acts).sent, 0) == 2
  {
    CollisionReached();
    var s := RunAll(START, COLLIDE);
    BothSend(s, 1, 2, 0);
    BothCount(s, 1, 2, 0);
    ActivationsConcat(START, COLLIDE, BothSteps(1, 2), 0);
    RunConcat(START, COLLIDE, BothSteps(1, 2));
    var create, release := Sent(0, EstablishmentRequest(1)), Sent(0, ReleaseRequest(1));
    assert RunAll(s, BothSteps(1, 2)).sent == [] + [create] + [release] + [release];
    RequestsAppend([], create, 0);
    RequestsAppend([] + [create], release, 0);
    RequestsAppend([] + [create] + [release], release, 0);
  }
}
