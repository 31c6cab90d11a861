/** What holds of the DU over every run of its handlers. */
module DuRuns {
  import opened Bytes
  import opened Du

  /**
    F1SetupDone is the F1 Setup Response, which opens the channel to the UE; PrepareTarget and Reset
    are the two API entries.
   */
  datatype Event =
    | FromUe(u: Uplink)
    | Setup(s: SetupRequest)
    | Confirmed(c: Confirm)
    | F1SetupDone(configured: bool)
    | PrepareTarget
    | Reset

  /** initial: the forwarder has not forwarded anything yet. */
  datatype Sys = Sys(d: DuState, initial: bool)

  const START: Sys := Sys(DuState(Some(Ho(NoRole, HoIdle, false)), None, 0, 0, 0, [], false), true)

  function Step(s: Sys, e: Event): Sys {
    if s.d.crashed then s
    else
      match e
      case FromUe(u) =>
        if s.d.ue.None? then s
        else
          var d := Forward(s.d, s.initial, u.m, u.r);
          Sys(d, s.initial && d.crashed)
      case Setup(m) => s.(d := OnSetupRequest(s.d, m))
      case Confirmed(c) => s.(d := OnConfirm(s.d, c))
      case F1SetupDone(configured) => if configured then s.(d := WithUe(s.d)) else s
      case PrepareTarget => s.(d := s.d.(ho := Become(s.d.ho, Target, Preparation)))
      case Reset => s.(d := OnReset(s.d))
  }

  function Run(s: Sys, h: seq<Event>): Sys {
    if h == [] then s else Step(Run(s, h[..|h| - 1]), h[|h| - 1])
  }

  // Roles and states.

  /** No role exactly while idle, failure only as source, completion only as target. */
  ghost predicate RoleFits(d: DuState) {
    var role, state := RoleOf(d.ho), StateOf(d.ho);
    (role == NoRole <==> state == HoIdle) && (state == HoFailed ==> role == Source) &&
    (state == HoCompleted ==> role == Target) && state != Completion
  }

  lemma ForwardFits(d: DuState, isInitial: bool, m: RrcMsg, r: SendResult)
    requires RoleFits(d)
    ensures RoleFits(Forward(d, isInitial, m, r))
    ensures StateOf(d.ho) != HoIdle ==> StateOf(Forward(d, isInitial, m, r).ho) != HoIdle
  {
  }

  /** Each event keeps role and state consistent, and only a reset returns to idle. */
  lemma StepFits(s: Sys, e: Event)
    requires RoleFits(s.d)
    ensures RoleFits(Step(s, e).d)
    ensures StateOf(s.d.ho) != HoIdle && e != Reset ==> StateOf(Step(s, e).d.ho) != HoIdle
  {
    if e.FromUe? {
      ForwardFits(s.d, s.initial, e.u.m, e.u.r);
    }
  }

  lemma {:induction false} RoleAndState(h: seq<Event>)
    ensures RoleFits(Run(START, h).d)
  {
    if h != [] {
      RoleAndState(h[..|h| - 1]);
      StepFits(Run(START, h[..|h| - 1]), h[|h| - 1]);
    }
  }

  /** A history without a reset never comes back to idle. */
  lemma {:induction false} OnlyResetReturnsToIdle(s: Sys, h: seq<Event>)
    requires RoleFits(s.d) && StateOf(s.d.ho) != HoIdle && Reset !in h
    ensures RoleFits(Run(s, h).d) && StateOf(Run(s, h).d.ho) != HoIdle
  {
    if h != [] {
      OnlyResetReturnsToIdle(s, h[..|h| - 1]);
      StepFits(Run(s, h[..|h| - 1]), h[|h| - 1]);
    }
  }

  /**
    A source DU in preparation that gets a setup request keeps its role and state, because RACH
    monitoring refuses; it still adopts the request's ids, opens a channel and answers with success.
   */
  lemma SourceKeepsRole(d: DuState, m: SetupRequest)
    requires RoleOf(d.ho) == Source && StateOf(d.ho) == Preparation && m.initiating && m.isSetup
    ensures var r := OnSetupRequest(d, m);
            r.ho == d.ho && r.ue.Some? && r.cuId == m.cuId && (m.duId.Some? ==> r.duId == m.duId.value) &&
            r.log == d.log + [SetupResponse(m.cuId, r.duId)]
  {
  }

  /** A confirm that carries a handover command and finds a channel to pass it on. */
  predicate EffectiveConfirm(d: DuState, c: Confirm) {
    c.successful && c.isConfirm && c.rrc != [] && d.ue.Some?
  }

  predicate Disturbs(s: Sys, e: Event) {
    !s.d.crashed && (e == Reset || (e.Confirmed? && EffectiveConfirm(s.d, e.c)))
  }

  /** No event of the history takes the target role away. */
  ghost predicate Undisturbed(s: Sys, h: seq<Event>) {
    forall i :: 0 <= i < |h| ==> !Disturbs(Run(s, h[..i]), h[i])
  }

  /**
    A target stays one exactly when the event is neither a reset nor an effective confirm; only
    PrepareTarget makes one.
   */
  lemma TargetStep(s: Sys, e: Event)
    requires RoleFits(s.d)
    ensures RoleOf(s.d.ho) == Target ==> (RoleOf(Step(s, e).d.ho) == Target <==> !Disturbs(s, e))
    ensures RoleOf(s.d.ho) != Target && e != PrepareTarget ==> RoleOf(Step(s, e).d.ho) != Target
  {
    if e.FromUe? {
      ForwardRole(s.d, s.initial, e.u.m, e.u.r);
    }
  }

  lemma ForwardRole(d: DuState, isInitial: bool, m: RrcMsg, r: SendResult)
    requires RoleFits(d)
    ensures RoleOf(Forward(d, isInitial, m, r).ho) == Target <==> RoleOf(d.ho) == Target
  {
  }

  lemma UndisturbedNext(s: Sys, h: seq<Event>)
    requires h != []
    ensures Undisturbed(s, h) <==> Undisturbed(s, h[..|h| - 1]) && !Disturbs(Run(s, h[..|h| - 1]), h[|h| - 1])
  {
    var before := h[..|h| - 1];
    assert forall i :: 0 <= i < |before| ==> before[..i] == h[..i];
  }

  /** From its preparation on, a DU is a target exactly as long as nothing has disturbed it. */
  lemma {:induction false} TargetKeptExactly(s: Sys, h: seq<Event>)
    requires RoleFits(s.d) && RoleOf(s.d.ho) == Target && PrepareTarget !in h
    ensures RoleFits(Run(s, h).d) && (RoleOf(Run(s, h).d.ho) == Target <==> Undisturbed(s, h))
  {
    if h != [] {
      var before := h[..|h| - 1];
      TargetKeptExactly(s, before);
      UndisturbedNext(s, h);
      StepFits(Run(s, before), h[|h| - 1]);
      TargetStep(Run(s, before), h[|h| - 1]);
    }
  }

  /**
    A DU is prepared as target, any events follow, and the UE's completion arrives on a live channel:
    the handover is completed exactly when nothing in between took the role away, and the completion
    is transferred either way.
   */
  lemma TargetCompletes(s: Sys, h: seq<Event>, u: Uplink)
    requires RoleFits(s.d) && !s.d.crashed && PrepareTarget !in h && u.m.decoded == ReconfigurationComplete
    requires var t := Run(Step(s, PrepareTarget), h); !t.d.crashed && t.d.ue.Some?
    ensures var t := Run(Step(s, PrepareTarget), h);
            var r := Step(t, FromUe(u));
            (StateOf(r.d.ho) == HoCompleted <==> Undisturbed(Step(s, PrepareTarget), h)) && !r.d.crashed &&
            r.d.log == t.d.log + [if t.initial then InitialTransfer(t.d.duId, u.m.octets)
                                  else UlTransfer(t.d.cuId, t.d.duId, u.m.octets)]
  {
    StepFits(s, PrepareTarget);
    TargetKeptExactly(Step(s, PrepareTarget), h);
  }

  lemma PreparedAndSetUp(s: Sys, m: SetupRequest, h: seq<Event>)
    requires !s.d.crashed && m.initiating && m.isSetup
    requires |h| >= 2 && h[0] == PrepareTarget && h[1] == Setup(m)
    ensures var t := Run(s, h[..2]);
            RoleOf(t.d.ho) == Target && StateOf(t.d.ho) == Execution && t.d.ue.Some? && t.d.cuId == m.cuId &&
            !t.d.crashed && t.initial == s.initial && t.d.log == s.d.log + [SetupResponse(m.cuId, t.d.duId)]
  {
    assert h[..2][..1] == h[..1] && h[..1][..0] == [];
    assert Run(s, h[..1]) == Step(s, PrepareTarget);
    assert Run(s, h[..2]) == Step(Step(s, PrepareTarget), Setup(m));
  }

  /** The plain script: preparation, setup, completion. */
  lemma ScriptCompletes(s: Sys, m: SetupRequest, u: Uplink, h: seq<Event>)
    requires !s.d.crashed && m.initiating && m.isSetup && u.m.decoded == ReconfigurationComplete
    requires |h| == 3 && h[0] == PrepareTarget && h[1] == Setup(m) && h[2] == FromUe(u)
    ensures var t := Run(s, h).d;
            RoleOf(t.ho) == Target && StateOf(t.ho) == HoCompleted && t.cuId == m.cuId && !t.crashed &&
            t.log == s.d.log + [SetupResponse(m.cuId, t.duId),
                                if s.initial then InitialTransfer(t.duId, u.m.octets)
                                else UlTransfer(t.cuId, t.duId, u.m.octets)]
  {
    PreparedAndSetUp(s, m, h);
  }

  /** A confirm to a target in execution makes it a source, and the UE's completion no longer completes anything. */
  lemma ConfirmLosesCompletion(s: Sys, m: SetupRequest, c: Confirm, u: Uplink, h: seq<Event>)
    requires !s.d.crashed && m.initiating && m.isSetup && u.m.decoded == ReconfigurationComplete
    requires c.successful && c.isConfirm && c.rrc != []
    requires |h| == 4 && h[0] == PrepareTarget && h[1] == Setup(m) && h[2] == Confirmed(c) && h[3] == FromUe(u)
    ensures var t := Run(s, h).d; RoleOf(t.ho) == Source && StateOf(t.ho) == Execution && !t.crashed
  {
    PreparedAndSetUp(s, m, h);
    assert h[..3][..2] == h[..2];
    assert Run(s, h[..3]) == Step(Run(s, h[..2]), Confirmed(c));
  }

  // The trigger.

  /** The cell can be read, has an RSRP, and it is more than 3 above that of the serving cell. */
  predicate IsBetter(c: Cell, serving: nat) {
    c.ssb && c.rsrp.Some? && c.pci.Some? && c.rsrp.value > serving + 3
  }

  /** The SSB result is missing, or a cell with an RSRP has no identity. */
  predicate IsUnreadable(c: Cell) {
    !c.ssb || (c.rsrp.Some? && c.pci.None?)
  }

  /** The first better cell, if every cell before it can be read. */
  ghost predicate ChosenAt(cells: seq<Cell>, serving: nat, i: nat) {
    i < |cells| && IsBetter(cells[i], serving) &&
    forall j :: 0 <= j < i ==> !IsBetter(cells[j], serving) && !IsUnreadable(cells[j])
  }

  /** The scan's tests are these two. */
  lemma CellTests(c: Cell, serving: nat)
    ensures Qualifies(c, serving) <==> IsBetter(c, serving)
    ensures Panics(c) <==> IsUnreadable(c)
  {
  }

  lemma ChosenPrefix(cells: seq<Cell>, serving: nat, i: nat)
    requires i < |cells| - 1
    ensures ChosenAt(cells[..|cells| - 1], serving, i) <==> ChosenAt(cells, serving, i)
  {
    var before := cells[..|cells| - 1];
    assert forall j :: 0 <= j <= i ==> before[j] == cells[j];
  }

  lemma {:induction false} ChoiceSound(cells: seq<Cell>, serving: nat, i: nat)
    requires ChosenAt(cells, serving, i)
    ensures Choice(cells, serving) == cells[i].pci
  {
    var n := |cells| - 1;
    if i < n {
      ChosenPrefix(cells, serving, i);
      ChoiceSound(cells[..n], serving, i);
    } else {
      NoChoice(cells[..n], serving);
    }
  }

  lemma {:induction false} NoChoice(cells: seq<Cell>, serving: nat)
    requires forall j :: 0 <= j < |cells| ==> !Qualifies(cells[j], serving)
    ensures Choice(cells, serving) == None
  {
    if cells != [] {
      NoChoice(cells[..|cells| - 1], serving);
    }
  }

  lemma {:induction false} ChoiceWitness(cells: seq<Cell>, serving: nat) returns (i: nat)
    requires Choice(cells, serving).Some?
    ensures ChosenAt(cells, serving, i)
  {
    var n := |cells| - 1;
    if Choice(cells[..n], serving).Some? {
      i := ChoiceWitness(cells[..n], serving);
      ChosenPrefix(cells, serving, i);
    } else {
      i := n;
      forall j | 0 <= j < n ensures !Qualifies(cells[j], serving) {
        NoneBefore(cells[..n], serving, j);
        assert cells[..n][j] == cells[j];
      }
    }
  }

  lemma {:induction false} NoneBefore(cells: seq<Cell>, serving: nat, j: nat)
    requires Choice(cells, serving).None? && j < |cells|
    requires forall k :: 0 <= k < |cells| ==> !Panics(cells[k])
    ensures !Qualifies(cells[j], serving)
  {
    var n := |cells| - 1;
    if j < n {
      NoneBefore(cells[..n], serving, j);
    }
  }

  /**
    A report in the idle state attempts one handover, to the first neighbour better than the serving
    cell by more than 3 among those it can read, and none if there is no such neighbour; in any
    other state it attempts none.
   */
  lemma ReportExactly(d: DuState, measured: seq<Option<nat>>, cells: seq<Cell>, serving: nat, r: SendResult)
    requires measured != [] && measured[0] == Some(serving)
    ensures var d' := OnReport(d, Measured(measured, ListNr(cells)), r);
            (StateOf(d.ho) != HoIdle ==> d'.log == d.log && d'.ho == d.ho) &&
            ((forall i: nat :: !ChosenAt(cells, serving, i)) ==> d'.log == d.log && d'.ho == d.ho) &&
            (forall i: nat :: ChosenAt(cells, serving, i) && StateOf(d.ho) == HoIdle ==>
                         d'.log == d.log + [ModificationRequired(cells[i].pci.value)] && RoleOf(d'.ho) == Source &&
                         StateOf(d'.ho) == if r.SendError? then HoFailed else Preparation)
  {
    if Choice(cells, serving).Some? {
      var i := ChoiceWitness(cells, serving);
    }
    forall i: nat | ChosenAt(cells, serving, i) ensures Choice(cells, serving) == cells[i].pci {
      ChoiceSound(cells, serving, i);
    }
  }

  function Required(log: seq<F1Out>): nat {
    if log == [] then 0 else Required(log[..|log| - 1]) + if log[|log| - 1].ModificationRequired? then 1 else 0
  }

  function Resets(h: seq<Event>): nat {
    if h == [] then 0 else Resets(h[..|h| - 1]) + if h[|h| - 1] == Reset then 1 else 0
  }

  lemma RequiredAppend(log: seq<F1Out>, m: F1Out)
    ensures Required(log + [m]) == Required(log) + if m.ModificationRequired? then 1 else 0
  {
    assert (log + [m])[..|log|] == log;
  }

  /** What one message through the forwarder appends: a handover request, if it causes one, before its own transfer. */
  lemma ForwardAppends(d: DuState, isInitial: bool, m: RrcMsg, r: SendResult) returns (cause: seq<F1Out>)
    requires !d.crashed
    ensures |cause| <= 1 && (cause != [] ==> cause[0].ModificationRequired? && m.decoded.MeasurementReport?)
    ensures var d' := Forward(d, isInitial, m, r);
            (cause != [] ==> StateOf(d.ho) == HoIdle && StateOf(d'.ho) != HoIdle) &&
            (cause == [] ==> StateOf(d.ho) == HoIdle ==> StateOf(d'.ho) == HoIdle || RoleOf(d.ho) == Target) &&
            d'.log == if d'.crashed then d.log + cause
                      else d.log + cause + [if isInitial then InitialTransfer(d'.duId, m.octets)
                                            else UlTransfer(d'.cuId, d'.duId, m.octets)]
  {
    var d' := Dispatch(d, m, r);
    cause := if d'.log == d.log then [] else [d'.log[|d'.log| - 1]];
    assert d'.log == d.log + cause;
  }

  ghost predicate Accounted(s: Sys, resets: nat) {
    RoleFits(s.d) && Required(s.d.log) <= resets + if StateOf(s.d.ho) == HoIdle then 0 else 1
  }

  predicate IsTransfer(m: F1Out) {
    m.InitialTransfer? || m.UlTransfer?
  }

  /** What one event appends to the log: a handover request it causes, then a transfer or a setup response. */
  datatype Added = Added(cause: Option<F1Out>, last: Option<F1Out>)

  function Extend(log: seq<F1Out>, m: Option<F1Out>): seq<F1Out> {
    if m.Some? then log + [m.value] else log
  }

  /** Intercepting the message dereferences nil: no serving RSRP, or a neighbour that cannot be read. */
  ghost predicate Fatal(m: RrcMsg) {
    m.decoded.MeasurementReport? && m.decoded.r.Some? && m.decoded.r.value.Measured? &&
    var report := m.decoded.r.value;
    report.serving != [] &&
    (report.serving[0].None? ||
     (report.neighbours.ListNr? &&
      exists i :: 0 <= i < |report.neighbours.cells| && IsUnreadable(report.neighbours.cells[i])))
  }

  lemma FatalExactly(d: DuState, isInitial: bool, m: RrcMsg, r: SendResult)
    requires !d.crashed
    ensures Forward(d, isInitial, m, r).crashed <==> Fatal(m)
  {
  }

  /** The message reaches the forwarder. */
  predicate Arrives(s: Sys, e: Event) {
    e.FromUe? && s.d.ue.Some?
  }

  ghost predicate Forwards(s: Sys, e: Event) {
    Arrives(s, e) && !s.d.crashed && !Fatal(e.u.m)
  }

  lemma SetupAppends(d: DuState, m: SetupRequest)
    requires m.initiating && m.isSetup
    ensures exists duId :: OnSetupRequest(d, m).log == d.log + [SetupResponse(m.cuId, duId)]
  {
    var duId := if m.duId.Some? then m.duId.value else d.duId;
    assert OnSetupRequest(d, m).log == d.log + [SetupResponse(m.cuId, duId)];
  }

  lemma StepAppends(s: Sys, e: Event) returns (added: Added)
    requires !s.d.crashed
    ensures Step(s, e).d.log == Extend(Extend(s.d.log, added.cause), added.last)
    ensures added.cause.Some? ==> added.cause.value.ModificationRequired? &&
                                  StateOf(s.d.ho) == HoIdle && StateOf(Step(s, e).d.ho) != HoIdle
    ensures added.last.Some? && !Forwards(s, e) ==> added.last.value.SetupResponse?
    ensures Forwards(s, e) ==> added.last.Some? && IsTransfer(added.last.value) &&
                               added.last.value.rrc == e.u.m.octets &&
                               (added.last.value.InitialTransfer? <==> s.initial)
  {
    var r := Step(s, e).d;
    added := Added(None, None);
    if Arrives(s, e) {
      FatalExactly(s.d, s.initial, e.u.m, e.u.r);
      var cause := ForwardAppends(s.d, s.initial, e.u.m, e.u.r);
      assert s.d.log + [] == s.d.log;
      added := Added(if cause == [] then None else Some(cause[0]),
                     if r.crashed then None else Some(r.log[|r.log| - 1]));
    } else if e.Setup? && e.s.initiating && e.s.isSetup {
      SetupAppends(s.d, e.s);
      added := Added(None, Some(r.log[|r.log| - 1]));
    }
  }

  lemma RequiredExtend(log: seq<F1Out>, m: Option<F1Out>)
    ensures Required(Extend(log, m)) == Required(log) + if m.Some? && m.value.ModificationRequired? then 1 else 0
  {
    if m.Some? {
      RequiredAppend(log, m.value);
    }
  }

  lemma StepAccounted(s: Sys, e: Event, resets: nat)
    requires Accounted(s, resets)
    ensures Accounted(Step(s, e), resets + if e == Reset then 1 else 0)
  {
    StepFits(s, e);
    if !s.d.crashed {
      var added := StepAppends(s, e);
      RequiredExtend(s.d.log, added.cause);
      RequiredExtend(Extend(s.d.log, added.cause), added.last);
    }
  }

  /** Over any run, handovers are requested at most once more than the context is reset. */
  lemma {:induction false} RequestedOncePerIdle(h: seq<Event>)
    ensures Accounted(Run(START, h), Resets(h))
    ensures Required(Run(START, h).d.log) <= 1 + Resets(h)
  {
    if h != [] {
      RequestedOncePerIdle(h[..|h| - 1]);
      StepAccounted(Run(START, h[..|h| - 1]), h[|h| - 1], Resets(h[..|h| - 1]));
    }
  }

  // The forwarder.

  function Transfers(log: seq<F1Out>): seq<F1Out> {
    if log == [] then []
    else Transfers(log[..|log| - 1]) + if IsTransfer(log[|log| - 1]) then [log[|log| - 1]] else []
  }

  lemma TransfersAppend(log: seq<F1Out>, m: F1Out)
    ensures Transfers(log + [m]) == Transfers(log) + if IsTransfer(m) then [m] else []
  {
    assert (log + [m])[..|log|] == log;
  }

  /** The messages of a history that reach a live forwarder and are not fatal, in order. */
  ghost function Consumed(s: Sys, h: seq<Event>): seq<seq<byte>> {
    if h == [] then []
    else
      var before, e := Run(s, h[..|h| - 1]), h[|h| - 1];
      Consumed(s, h[..|h| - 1]) +
      if Forwards(before, e) then [e.u.m.octets] else []
  }

  /** The transfers carry exactly these containers in order, and the first and only the first is the initial one. */
  ghost predicate Carries(transfers: seq<F1Out>, containers: seq<seq<byte>>) {
    |transfers| == |containers| &&
    forall i :: 0 <= i < |transfers| ==>
                IsTransfer(transfers[i]) && transfers[i].rrc == containers[i] &&
                (transfers[i].InitialTransfer? <==> i == 0)
  }

  lemma CarriesAppend(transfers: seq<F1Out>, containers: seq<seq<byte>>, t: F1Out)
    requires Carries(transfers, containers) && IsTransfer(t) && (t.InitialTransfer? <==> transfers == [])
    ensures Carries(transfers + [t], containers + [t.rrc])
  {
  }

  lemma TransfersExtend(log: seq<F1Out>, m: Option<F1Out>)
    ensures Transfers(Extend(log, m)) == Transfers(log) + if m.Some? && IsTransfer(m.value) then [m.value] else []
  {
    if m.Some? {
      TransfersAppend(log, m.value);
    }
  }

  lemma StepInitial(s: Sys, e: Event)
    ensures Step(s, e).initial == (s.initial && !Forwards(s, e))
  {
    if Arrives(s, e) && !s.d.crashed {
      FatalExactly(s.d, s.initial, e.u.m, e.u.r);
    }
  }

  /** The transfer among what was added: the last part, if it is one. */
  function TransferIn(added: Added): seq<F1Out> {
    if added.last.Some? && IsTransfer(added.last.value) then [added.last.value] else []
  }

  lemma TransfersAdded(log: seq<F1Out>, added: Added)
    requires added.cause.Some? ==> added.cause.value.ModificationRequired?
    ensures Transfers(Extend(Extend(log, added.cause), added.last)) == Transfers(log) + TransferIn(added)
  {
    TransfersExtend(log, added.cause);
    TransfersExtend(Extend(log, added.cause), added.last);
  }

  /** t is the one transfer of these octets, or empty when nothing is forwarded. */
  ghost predicate TransferOf(t: seq<F1Out>, forwards: bool, octets: seq<byte>, initial: bool) {
    if forwards then |t| == 1 && IsTransfer(t[0]) && t[0].rrc == octets && (t[0].InitialTransfer? <==> initial)
    else t == []
  }

  lemma TransferAdded(added: Added, forwards: bool, octets: seq<byte>, initial: bool)
    requires added.last.Some? && !forwards ==> added.last.value.SetupResponse?
    requires forwards ==> added.last.Some? && IsTransfer(added.last.value) &&
                          added.last.value.rrc == octets && (added.last.value.InitialTransfer? <==> initial)
    ensures TransferOf(TransferIn(added), forwards, octets, initial)
  {
  }

  function OctetsOf(e: Event): seq<byte> {
    if e.FromUe? then e.u.m.octets else []
  }

  lemma StepTransfers(s: Sys, e: Event) returns (t: seq<F1Out>)
    requires !s.d.crashed
    ensures Transfers(Step(s, e).d.log) == Transfers(s.d.log) + t
    ensures TransferOf(t, Forwards(s, e), OctetsOf(e), s.initial)
  {
    var added := StepAppends(s, e);
    TransfersAdded(s.d.log, added);
    t := TransferIn(added);
    TransferAdded(added, Forwards(s, e), OctetsOf(e), s.initial);
  }

  /**
    Uplink forwarding over every run, handover messages and all: each message consumed is attempted
    exactly once and in order, the first as Initial UL RRC Message Transfer, all others as UL RRC
    Message Transfer.
   */
  lemma {:induction false} UplinkInOrder(h: seq<Event>)
    ensures var s := Run(START, h);
            Carries(Transfers(s.d.log), Consumed(START, h)) && (s.initial <==> Transfers(s.d.log) == [])
  {
    if h != [] {
      var before, e := h[..|h| - 1], h[|h| - 1];
      UplinkInOrder(before);
      var s := Run(START, before);
      if !s.d.crashed {
        var t := StepTransfers(s, e);
        StepInitial(s, e);
        if Forwards(s, e) {
          CarriesAppend(Transfers(s.d.log), Consumed(START, before), t[0]);
          assert t == [t[0]];
        }
      }
    }
  }

  /** Only a fatal message that arrives ends the process. */
  lemma CrashStep(s: Sys, e: Event)
    requires !s.d.crashed
    ensures Step(s, e).d.crashed <==> Arrives(s, e) && Fatal(e.u.m)
  {
    if Arrives(s, e) {
      FatalExactly(s.d, s.initial, e.u.m, e.u.r);
    }
  }

  /** Every message of a history that arrives once the channel exists, in order. */
  function Arrivals(s: Sys, h: seq<Event>): seq<seq<byte>> {
    if h == [] then []
    else
      var n := |h| - 1;
      Arrivals(s, h[..n]) + if Arrives(Run(s, h[..n]), h[n]) then [h[n].u.m.octets] else []
  }

  ghost predicate FatalArrival(s: Sys, h: seq<Event>, i: nat)
    requires i < |h|
  {
    Arrives(Run(s, h[..i]), h[i]) && Fatal(h[i].u.m)
  }

  /** The first fatal message of the history arrives at i, or none does and i is its length. */
  ghost predicate FirstFatal(s: Sys, h: seq<Event>, i: nat) {
    i <= |h| && (i < |h| ==> FatalArrival(s, h, i)) && forall j: nat :: j < i ==> !FatalArrival(s, h, j)
  }

  lemma FirstFatalPrefix(s: Sys, h: seq<Event>, i: nat)
    requires h != [] && FirstFatal(s, h, i)
    ensures FirstFatal(s, h[..|h| - 1], if i == |h| then i - 1 else i)
  {
    var before := h[..|h| - 1];
    forall j: nat | j < |before| ensures FatalArrival(s, before, j) <==> FatalArrival(s, h, j) {
      assert before[..j] == h[..j];
    }
  }

  /** The DU forwards every arrival before the first fatal message, none from it on, and crashes with it. */
  lemma {:induction false} ForwardedExactly(s: Sys, h: seq<Event>, i: nat)
    requires !s.d.crashed && FirstFatal(s, h, i)
    ensures Consumed(s, h) == Arrivals(s, h[..i]) && (Run(s, h).d.crashed <==> i < |h|)
  {
    if h == [] {
      assert h[..i] == [];
    } else {
      var n := |h| - 1;
      var k := if i == |h| then n else i;
      FirstFatalPrefix(s, h, i);
      ForwardedExactly(s, h[..n], k);
      assert h[..n][..k] == h[..k] && h[..|h|] == h;
      if !Run(s, h[..n]).d.crashed {
        CrashStep(Run(s, h[..n]), h[n]);
        assert i == n ==> FatalArrival(s, h, n);
        assert i == |h| ==> !FatalArrival(s, h, n);
      }
    }
  }

  ghost predicate Harmless(h: seq<Event>) {
    forall i :: 0 <= i < |h| && h[i].FromUe? ==> !Fatal(h[i].u.m)
  }

  /** Without fatal messages, every message that arrives once the channel exists is transferred, in order. */
  lemma HarmlessAllForwarded(h: seq<Event>)
    requires Harmless(h)
    ensures Carries(Transfers(Run(START, h).d.log), Arrivals(START, h)) && !Run(START, h).d.crashed
  {
    UplinkInOrder(h);
    ForwardedExactly(START, h, |h|);
    assert h[..|h|] == h;
  }

  /** At most one forwarder is ever started, with the channel it reads. */
  lemma {:induction false} OneForwarder(h: seq<Event>)
    ensures var d := Run(START, h).d; d.forwarders == if d.ue.Some? then 1 else 0
  {
    if h != [] {
      OneForwarder(h[..|h| - 1]);
    }
  }

  function AsEvents(msgs: seq<Uplink>): seq<Event> {
    seq(|msgs|, i requires 0 <= i < |msgs| => FromUe(msgs[i]))
  }

  /** The forwarder's loop is the run of its messages. */
  lemma {:induction false} LoopIsRun(d: DuState, msgs: seq<Uplink>)
    requires d.ue.Some? && !d.crashed
    ensures Run(Sys(d, true), AsEvents(msgs)).d == ForwardAll(d, msgs)
    ensures var s := Run(Sys(d, true), AsEvents(msgs));
            s.d.ue == d.ue && (!s.d.crashed ==> s.initial == (msgs == []))
  {
    if msgs != [] {
      var n := |msgs| - 1;
      LoopIsRun(d, msgs[..n]);
      assert AsEvents(msgs)[..n] == AsEvents(msgs[..n]);
      assert msgs[..n] == [] <==> n == 0;
    }
  }

  // The other events, one by one.

  lemma ResetExactly(d: DuState)
    requires d.ho.Some?
    ensures OnReset(d) == d.(ho := Some(Ho(NoRole, HoIdle, false)))
  {
  }

  /** A completion completes the handover of a target and leaves any other DU alone; it is transferred either way. */
  lemma CompletionExactly(d: DuState, isInitial: bool, m: RrcMsg, r: SendResult)
    requires m.decoded == ReconfigurationComplete && d.ho.Some?
    ensures var ho := d.ho.value;
            !d.crashed ==>
              Forward(d, isInitial, m, r) ==
                d.(ho := if ho.role == Target then Some(ho.(state := HoCompleted)) else d.ho,
                   log := d.log + [if isInitial then InitialTransfer(d.duId, m.octets)
                                   else UlTransfer(d.cuId, d.duId, m.octets)])
  {
  }

  /** Nothing to intercept: the message is no report and no completion, or a report without what the scan needs. */
  predicate IsPlain(m: RrcMsg) {
    match m.decoded
    case MeasurementReport(None) => true
    case MeasurementReport(Some(report)) =>
      report.NoExtension? || report.serving == [] || (report.serving[0].Some? && !report.neighbours.ListNr?)
    case ReconfigurationComplete => false
    case _ => true
  }

  /** A plain message is transferred, with the ids of its kind of transfer, and has no other effect. */
  lemma PlainExactly(d: DuState, isInitial: bool, m: RrcMsg, r: SendResult)
    requires IsPlain(m) && !d.crashed
    ensures Forward(d, isInitial, m, r) ==
              d.(log := d.log + [if isInitial then InitialTransfer(d.duId, m.octets)
                                 else UlTransfer(d.cuId, d.duId, m.octets)])
  {
  }

  /**
    A setup request outside preparation passes its container on if there is a channel, and answers with
    the request's ids without keeping them; a malformed one changes nothing.
   */
  lemma PlainSetupExactly(d: DuState, m: SetupRequest)
    requires !m.initiating || !m.isSetup || d.ho.None? || d.ho.value.state != Preparation
    ensures OnSetupRequest(d, m) ==
              if !m.initiating || !m.isSetup then d
              else
                d.(ue := if d.ue.Some? && m.rrc != [] then Some(d.ue.value + [m.rrc]) else d.ue,
                   log := d.log + [SetupResponse(m.cuId, if m.duId.Some? then m.duId.value else d.duId)])
  {
  }

  /** In preparation the ids are kept and the container is not passed on; only a target moves to execution. */
  lemma PreparedSetupExactly(d: DuState, m: SetupRequest)
    requires m.initiating && m.isSetup && d.ho.Some? && d.ho.value.state == Preparation
    ensures var duId := if m.duId.Some? then m.duId.value else d.duId;
            OnSetupRequest(d, m) ==
              d.(ho := if d.ho.value.role == Target then Some(d.ho.value.(state := Execution)) else d.ho,
                 ue := Some(if d.ue.Some? then d.ue.value else []),
                 forwarders := d.forwarders + if d.ue.Some? then 0 else 1,
                 cuId := m.cuId, duId := duId, log := d.log + [SetupResponse(m.cuId, duId)])
  {
  }

  /** A confirm passes its container on and makes the DU a source in execution; one without effect changes nothing. */
  lemma ConfirmExactly(d: DuState, c: Confirm)
    requires d.ho.Some?
    ensures OnConfirm(d, c) ==
              if c.successful && c.isConfirm && c.rrc != [] && d.ue.Some? then
                d.(ue := Some(d.ue.value + [c.rrc]), ho := Some(Ho(Source, Execution, d.ho.value.rachCompleted)))
              else d
  {
  }

  // The downlink.

  /** The container that an event puts on the channel to the UE, if it does. */
  function Delivered(s: Sys, e: Event): Option<seq<byte>> {
    if s.d.crashed || s.d.ue.None? then None
    else
      match e
      case Confirmed(c) => if c.successful && c.isConfirm && c.rrc != [] then Some(c.rrc) else None
      case Setup(m) =>
        if m.initiating && m.isSetup && m.rrc != [] && (s.d.ho.None? || s.d.ho.value.state != Preparation)
        then Some(m.rrc) else None
      case _ => None
  }

  function Deliveries(s: Sys, h: seq<Event>): seq<seq<byte>> {
    if h == [] then []
    else
      var n := |h| - 1;
      var c := Delivered(Run(s, h[..n]), h[n]);
      Deliveries(s, h[..n]) + if c.Some? then [c.value] else []
  }

  lemma StepDelivers(s: Sys, e: Event)
    ensures var r, c := Step(s, e), Delivered(s, e);
            if s.d.ue.Some? then r.d.ue == Some(if c.Some? then s.d.ue.value + [c.value] else s.d.ue.value)
            else c.None? && (r.d.ue.Some? ==> r.d.ue.value == [])
  {
    if e.FromUe? && s.d.ue.Some? && !s.d.crashed {
      ForwardKeepsQueue(s.d, s.initial, e.u.m, e.u.r);
    }
  }

  lemma ForwardKeepsQueue(d: DuState, isInitial: bool, m: RrcMsg, r: SendResult)
    ensures Forward(d, isInitial, m, r).ue == d.ue
  {
  }

  /**
    Over every run, what is queued for the UE is exactly the containers of effective confirms and of setup
    requests outside preparation that found a channel, in order and once each.
   */
  lemma {:induction false} DownlinkInOrder(h: seq<Event>)
    ensures var d := Run(START, h).d;
            if d.ue.Some? then d.ue.value == Deliveries(START, h) else Deliveries(START, h) == []
  {
    if h != [] {
      DownlinkInOrder(h[..|h| - 1]);
      StepDelivers(Run(START, h[..|h| - 1]), h[|h| - 1]);
    }
  }
}
