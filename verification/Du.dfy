/** The DU: handover role and state, the measurement-driven trigger, and the uplink forwarder. */
module Du {
  import opened Bytes

  datatype Role = NoRole | Source | Target

  datatype HoState = HoIdle | Preparation | Execution | Completion | HoCompleted | HoFailed

  datatype Ho = Ho(role: Role, state: HoState, rachCompleted: bool)

  /** A measured cell; an absent SSB result or a reported cell without an identity is a nil pointer. */
  datatype Cell = Cell(ssb: bool, rsrp: Option<nat>, pci: Option<nat>)

  datatype Neighbours = NoNeighbours | OtherFormat | ListNr(cells: seq<Cell>)

  /** RSRP values are in reported steps of one dB; the common offset of -156 cancels in comparisons. */
  datatype Report = NoExtension | Measured(serving: seq<Option<nat>>, neighbours: Neighbours)

  datatype Decoded = NotDcch | NoC1 | MeasurementReport(r: Option<Report>) | ReconfigurationComplete | OtherDcch

  /** A message from the UE: its octets, and what decoding them as UL-DCCH gives. */
  datatype RrcMsg = RrcMsg(octets: seq<byte>, decoded: Decoded)

  /** What becomes of a UE Context Modification Required; an encoding error is not reported as one. */
  datatype SendResult = EncodeError | SendError | Sent

  /** Attempted F1AP messages, in order. */
  datatype F1Out =
    | InitialTransfer(duId: int, rrc: seq<byte>)
    | UlTransfer(cuId: int, duId: int, rrc: seq<byte>)
    | ModificationRequired(pci: nat)
    | SetupResponse(cuId: int, duId: int)

  /** ue: what was queued for the UE, if there is a channel to it; forwarders: goroutines started. */
  datatype DuState = DuState(
    ho: Option<Ho>, ue: Option<seq<seq<byte>>>, cuId: int, duId: int, forwarders: nat, log: seq<F1Out>, crashed: bool)

  datatype Err = NoError | InvalidPduType | InvalidMessageType | UeChannelMissing | ResponseFailed

  datatype SetupRequest = SetupRequest(initiating: bool, isSetup: bool, cuId: int, duId: Option<int>, rrc: seq<byte>)

  datatype Confirm = Confirm(successful: bool, isConfirm: bool, rrc: seq<byte>)

  const OFFSET := 3

  function StateOf(ho: Option<Ho>): HoState {
    if ho.None? then HoIdle else ho.value.state
  }

  function RoleOf(ho: Option<Ho>): Role {
    if ho.None? then NoRole else ho.value.role
  }

  function Become(ho: Option<Ho>, role: Role, state: HoState): Option<Ho> {
    Some(Ho(role, state, ho.Some? && ho.value.rachCompleted))
  }

  function Emit(d: DuState, m: F1Out): DuState {
    d.(log := d.log + [m])
  }

  function Trigger(d: DuState, pci: nat, r: SendResult): DuState {
    Emit(d, ModificationRequired(pci)).(ho := Become(d.ho, Source, if r.SendError? then HoFailed else Preparation))
  }

  /** Reading this cell's results dereferences nil. */
  predicate Panics(c: Cell) {
    !c.ssb || (c.rsrp.Some? && c.pci.None?)
  }

  predicate Qualifies(c: Cell, serving: nat) {
    c.ssb && c.rsrp.Some? && c.pci.Some? && c.rsrp.value > serving + OFFSET
  }

  /** The first cell, before any that panics, which is better than the serving cell by more than the offset. */
  function Choice(cells: seq<Cell>, serving: nat): Option<nat> {
    if cells == [] then None
    else
      var n := |cells| - 1;
      var before := Choice(cells[..n], serving);
      if before.Some? || (exists i :: 0 <= i < n && Panics(cells[i])) || !Qualifies(cells[n], serving) then before
      else cells[n].pci
  }

  function OnCells(d: DuState, cells: seq<Cell>, serving: nat, r: SendResult): DuState {
    var choice := Choice(cells, serving);
    var d' := if choice.Some? && StateOf(d.ho) == HoIdle then Trigger(d, choice.value, r) else d;
    d'.(crashed := d.crashed || exists i :: 0 <= i < |cells| && Panics(cells[i]))
  }

  function OnReport(d: DuState, m: Report, r: SendResult): DuState {
    if m.NoExtension? || m.serving == [] then d
    else if m.serving[0].None? then d.(crashed := true)
    else if !m.neighbours.ListNr? then d
    else OnCells(d, m.neighbours.cells, m.serving[0].value, r)
  }

  function OnReconfigurationComplete(d: DuState): DuState {
    if RoleOf(d.ho) == Target then d.(ho := Become(d.ho, Target, HoCompleted)) else d
  }

  function Dispatch(d: DuState, m: RrcMsg, r: SendResult): DuState {
    match m.decoded
    case MeasurementReport(Some(report)) => OnReport(d, report, r)
    case ReconfigurationComplete => OnReconfigurationComplete(d)
    case _ => d
  }

  /** One message through the forwarder: interception first, then the transfer. */
  function Forward(d: DuState, isInitial: bool, m: RrcMsg, r: SendResult): DuState {
    var d' := Dispatch(d, m, r);
    if d'.crashed then d'
    else Emit(d', if isInitial then InitialTransfer(d'.duId, m.octets) else UlTransfer(d'.cuId, d'.duId, m.octets))
  }

  /** A message with what its interception would meet when sending. */
  datatype Uplink = Uplink(m: RrcMsg, r: SendResult)

  function ForwardAll(d: DuState, msgs: seq<Uplink>): DuState {
    if msgs == [] then d
    else
      var n := |msgs| - 1;
      var before := ForwardAll(d, msgs[..n]);
      if before.crashed then before else Forward(before, n == 0, msgs[n].m, msgs[n].r)
  }

  /** RACH monitoring starts only in the target role. */
  function StartRach(d: DuState): DuState {
    if RoleOf(d.ho) == Target then d.(ho := Become(d.ho, Target, Execution)) else d
  }

  function WithUe(d: DuState): DuState {
    if d.ue.Some? then d else d.(ue := Some([]), forwarders := d.forwarders + 1)
  }

  function ToUe(d: DuState, rrc: seq<byte>): DuState {
    if d.ue.Some? then d.(ue := Some(d.ue.value + [rrc])) else d
  }

  /** A DU in preparation adopts the request's ids; any other DU answers without keeping them. */
  function OnSetupRequest(d: DuState, m: SetupRequest): DuState {
    if !m.initiating || !m.isSetup then d
    else if StateOf(d.ho) == Preparation then
      var d1 := d.(cuId := m.cuId, duId := if m.duId.Some? then m.duId.value else d.duId);
      var d2 := StartRach(WithUe(d1));
      Emit(d2, SetupResponse(m.cuId, d2.duId))
    else
      Emit(if m.rrc != [] then ToUe(d, m.rrc) else d,
           SetupResponse(m.cuId, if m.duId.Some? then m.duId.value else d.duId))
  }

  function OnConfirm(d: DuState, m: Confirm): DuState {
    if !m.successful || !m.isConfirm || m.rrc == [] || d.ue.None? then d
    else ToUe(d, m.rrc).(ho := if d.ho.Some? then Become(d.ho, Source, Execution) else None)
  }

  function OnReset(d: DuState): DuState {
    if d.ho.None? then d else d.(ho := Some(Ho(NoRole, HoIdle, false)))
  }

  class HandoverContext {
    var role: Role
    var state: HoState
    var rachCompleted: bool

    constructor ()
      ensures role == NoRole && state == HoIdle && !rachCompleted
    {
      role, state, rachCompleted := NoRole, HoIdle, false;
    }
  }

  class UeChannel {
    var sendToUe: seq<seq<byte>>

    constructor ()
      ensures sendToUe == []
    {
      sendToUe := [];
    }
  }

  class DU {
    var hoCtx: HandoverContext?
    var ue: UeChannel?
    var cuUeF1apId: int
    var duUeF1apId: int
    var forwarders: nat
    var log: seq<F1Out>
    var crashed: bool

    ghost function Footprint(): set<object>
      reads this
    {
      {this} + (if hoCtx == null then {} else {hoCtx}) + (if ue == null then {} else {ue})
    }

    ghost function View(): DuState
      reads this, Footprint()
    {
      DuState(if hoCtx == null then None else Some(Ho(hoCtx.role, hoCtx.state, hoCtx.rachCompleted)),
              if ue == null then None else Some(ue.sendToUe),
              cuUeF1apId, duUeF1apId, forwarders, log, crashed)
    }

    constructor ()
      ensures View() == DuState(Some(Ho(NoRole, HoIdle, false)), None, 0, 0, 0, [], false)
    {
      ue, cuUeF1apId, duUeF1apId, forwarders, log, crashed := null, 0, 0, 0, [], false;
      hoCtx := new HandoverContext();
    }

    method InitHandoverContext()
      modifies this`hoCtx
      ensures hoCtx != null && fresh(hoCtx)
      ensures View() == old(View()).(ho := Some(Ho(NoRole, HoIdle, false)))
    {
      hoCtx := new HandoverContext();
    }

    method SetSourceHandoverState(state: HoState)
      modifies this`hoCtx, hoCtx
      ensures hoCtx != null && if old(hoCtx) != null then hoCtx == old(hoCtx) else fresh(hoCtx)
      ensures View() == old(View()).(ho := Become(old(View()).ho, Source, state))
    {
      if hoCtx == null {
        InitHandoverContext();
      }
      hoCtx.role := Source;
      hoCtx.state := state;
    }

    method SetTargetHandoverState(state: HoState)
      modifies this`hoCtx, hoCtx
      ensures hoCtx != null && if old(hoCtx) != null then hoCtx == old(hoCtx) else fresh(hoCtx)
      ensures View() == old(View()).(ho := Become(old(View()).ho, Target, state))
    {
      if hoCtx == null {
        InitHandoverContext();
      }
      hoCtx.role := Target;
      hoCtx.state := state;
    }

    method GetHandoverState() returns (s: HoState)
      ensures s == StateOf(View().ho)
    {
      if hoCtx == null {
        return HoIdle;
      }
      return hoCtx.state;
    }

    method GetHandoverRole() returns (r: Role)
      ensures r == RoleOf(View().ho)
    {
      if hoCtx == null {
        return NoRole;
      }
      return hoCtx.role;
    }

    method IsTargetDU() returns (b: bool)
      ensures b <==> RoleOf(View().ho) == Target
    {
      var r := GetHandoverRole();
      return r == Target;
    }

    method ResetHandoverContext()
      modifies hoCtx
      ensures View() == OnReset(old(View()))
    {
      if hoCtx != null {
        hoCtx.role := NoRole;
        hoCtx.state := HoIdle;
        hoCtx.rachCompleted := false;
      }
    }

    method Send(m: F1Out)
      modifies this`log
      ensures View() == Emit(old(View()), m)
    {
      log := log + [m];
    }

    method SendUeContextModificationRequired(pci: nat, r: SendResult) returns (err: bool)
      modifies this`log
      ensures View() == Emit(old(View()), ModificationRequired(pci)) && err == r.SendError?
    {
      Send(ModificationRequired(pci));
      if r.EncodeError? {
        return false;
      }
      return r.SendError?;
    }

    method TriggerHandover(pci: nat, r: SendResult)
      modifies this`hoCtx, hoCtx, this`log
      ensures hoCtx != null && (hoCtx == old(hoCtx) || fresh(hoCtx))
      ensures View() == Trigger(old(View()), pci, r)
    {
      SetSourceHandoverState(Preparation);
      var err := SendUeContextModificationRequired(pci, r);
      if err {
        SetSourceHandoverState(HoFailed);
      }
    }

    method HandleMeasurementReport(m: Report, r: SendResult)
      requires !crashed
      modifies this, hoCtx
      ensures ue == old(ue) && (hoCtx == old(hoCtx) || (hoCtx != null && fresh(hoCtx)))
      ensures View() == OnReport(old(View()), m, r)
    {
      if m.NoExtension? {
        return;
      }
      if |m.serving| == 0 {
        return;
      }
      if m.serving[0].None? {
        crashed := true;
        return;
      }
      var serving := m.serving[0].value;
      if m.neighbours.NoNeighbours? {
        return;
      }
      if !m.neighbours.ListNr? {
        return;
      }
      var cells := m.neighbours.cells;
      assert cells[..0] == [];
      for i := 0 to |cells|
        invariant ue == old(ue) && (hoCtx == old(hoCtx) || (hoCtx != null && fresh(hoCtx)))
        invariant View() == OnCells(old(View()), cells[..i], serving, r)
        invariant !crashed
      {
        ScanStep(old(View()), cells, i, serving, r);
        var c := cells[i];
        if !c.ssb {
          crashed := true;
          return;
        }
        if c.rsrp.None? {
          continue;
        }
        if c.pci.None? {
          crashed := true;
          return;
        }
        if c.rsrp.value > serving + OFFSET {
          if hoCtx == null || hoCtx.state == HoIdle {
            TriggerHandover(c.pci.value, r);
          }
        }
      }
      assert cells[..|cells|] == cells;
    }

    method HandleRrcReconfigurationComplete()
      modifies this`hoCtx, hoCtx
      ensures hoCtx == old(hoCtx)
      ensures View() == OnReconfigurationComplete(old(View()))
    {
      var target := IsTargetDU();
      if target {
        SetTargetHandoverState(HoCompleted);
      }
    }

    method DispatchRrcMessage(m: RrcMsg, r: SendResult)
      requires !crashed
      modifies this, hoCtx
      ensures ue == old(ue) && (hoCtx == old(hoCtx) || (hoCtx != null && fresh(hoCtx)))
      ensures View() == Dispatch(old(View()), m, r)
    {
      match m.decoded {
        case NotDcch =>
        case NoC1 =>
        case MeasurementReport(report) =>
          if report.Some? {
            HandleMeasurementReport(report.value, r);
          }
        case ReconfigurationComplete =>
          HandleRrcReconfigurationComplete();
        case OtherDcch =>
      }
    }

    /** The receive loop, over the messages that arrive before the channel closes or the process ends. */
    method HandleRrcFromUE(msgs: seq<Uplink>)
      requires !crashed
      modifies this, hoCtx
      ensures ue == old(ue)
      ensures View() == ForwardAll(old(View()), msgs)
    {
      var isInitialMessage := true;
      assert msgs[..0] == [];
      for i := 0 to |msgs|
        invariant ue == old(ue) && (hoCtx == old(hoCtx) || (hoCtx != null && fresh(hoCtx)))
        invariant !crashed && isInitialMessage == (i == 0)
        invariant View() == ForwardAll(old(View()), msgs[..i])
      {
        ForwardNext(old(View()), msgs, i);
        DispatchRrcMessage(msgs[i].m, msgs[i].r);
        if crashed {
          CrashedStays(old(View()), msgs, i + 1);
          return;
        }
        if isInitialMessage {
          Send(InitialTransfer(duUeF1apId, msgs[i].m.octets));
          isInitialMessage := false;
        } else {
          Send(UlTransfer(cuUeF1apId, duUeF1apId, msgs[i].m.octets));
        }
      }
      assert msgs[..|msgs|] == msgs;
    }

    method StartRachMonitoring()
      modifies this`hoCtx, hoCtx
      ensures hoCtx == old(hoCtx)
      ensures View() == StartRach(old(View()))
    {
      var target := IsTargetDU();
      if !target {
        return;
      }
      SetTargetHandoverState(Execution);
    }

    /**
      Without a UE configuration nothing happens. Otherwise there is a new channel, and the forwarder
      goroutine that reads it; a failure to create the UE comes after both.
     */
    method InitUE(configured: bool, ueCreated: bool) returns (err: bool)
      modifies this`ue, this`forwarders
      ensures View() == if configured then old(View()).(ue := Some([]), forwarders := old(forwarders) + 1)
                        else old(View())
      ensures err <==> !configured || !ueCreated
    {
      if !configured {
        return true;
      }
      ue := new UeChannel();
      forwarders := forwarders + 1;
      return !ueCreated;
    }

    /** A repeated response finds the channel and leaves it. */
    method OnF1SetupResponse(configured: bool, ueCreated: bool)
      modifies this`ue, this`forwarders
      ensures View() == if configured then WithUe(old(View())) else old(View())
    {
      if ue == null {
        var _ := InitUE(configured, ueCreated);
      }
    }

    /** The answer is attempted; both an encoding and a sending error are reported. */
    method SendUeContextSetupResponse(cuId: int, duId: int, r: SendResult) returns (err: Err)
      modifies this`log
      ensures View() == Emit(old(View()), SetupResponse(cuId, duId))
      ensures err == if r.Sent? then NoError else ResponseFailed
    {
      Send(SetupResponse(cuId, duId));
      return if r.Sent? then NoError else ResponseFailed;
    }

    /** A new channel comes with a forwarder goroutine. */
    method CreateTargetHandoverUeContext()
      modifies this`ue, this`forwarders
      ensures View() == WithUe(old(View()))
    {
      if ue == null {
        ue := new UeChannel();
        forwarders := forwarders + 1;
      }
    }

    method SendToUe(rrc: seq<byte>)
      modifies ue
      ensures View() == ToUe(old(View()), rrc)
    {
      if ue != null {
        ue.sendToUe := ue.sendToUe + [rrc];
      }
    }

    method HandleTargetHandoverSetup(m: SetupRequest, r: SendResult) returns (err: Err)
      requires m.initiating && m.isSetup && StateOf(View().ho) == Preparation
      modifies this, hoCtx
      ensures View() == OnSetupRequest(old(View()), m)
      ensures err == if r.Sent? then NoError else ResponseFailed
    {
      if m.duId.Some? {
        duUeF1apId := m.duId.value;
      }
      cuUeF1apId := m.cuId;
      CreateTargetHandoverUeContext();
      StartRachMonitoring();
      err := SendUeContextSetupResponse(m.cuId, duUeF1apId, r);
    }

    method HandleUeContextSetupRequest(m: SetupRequest, r: SendResult) returns (err: Err)
      modifies this, hoCtx, ue
      ensures View() == OnSetupRequest(old(View()), m)
      ensures err == if !m.initiating then InvalidPduType else if !m.isSetup then InvalidMessageType
                     else if r.Sent? then NoError else ResponseFailed
    {
      if !m.initiating {
        return InvalidPduType;
      }
      if !m.isSetup {
        return InvalidMessageType;
      }
      var state := GetHandoverState();
      if hoCtx != null && state == Preparation {
        err := HandleTargetHandoverSetup(m, r);
        return;
      }
      if |m.rrc| > 0 {
        SendToUe(m.rrc);
      }
      var duUeId := duUeF1apId;
      if m.duId.Some? {
        duUeId := m.duId.value;
      }
      err := SendUeContextSetupResponse(m.cuId, duUeId, r);
    }

    method HandleUeContextModificationConfirm(m: Confirm) returns (err: Err)
      modifies this, hoCtx, ue
      ensures View() == OnConfirm(old(View()), m)
      ensures err == if !m.successful then InvalidPduType else if !m.isConfirm then InvalidMessageType
                     else if m.rrc != [] && old(ue) == null then UeChannelMissing else NoError
    {
      if !m.successful {
        return InvalidPduType;
      }
      if !m.isConfirm {
        return InvalidMessageType;
      }
      if |m.rrc| > 0 {
        if ue == null {
          return UeChannelMissing;
        }
        SendToUe(m.rrc);
        if hoCtx != null {
          SetSourceHandoverState(Execution);
        }
      }
      return NoError;
    }
  }

  /** Looking at one more cell, when none so far has panicked. */
  lemma ScanStep(d: DuState, cells: seq<Cell>, i: nat, serving: nat, r: SendResult)
    requires i < |cells| && !d.crashed
    requires !OnCells(d, cells[..i], serving, r).crashed
    ensures var d', c := OnCells(d, cells[..i], serving, r), cells[i];
            OnCells(d, cells[..i + 1], serving, r) ==
              (if Panics(c) then d'.(crashed := true)
               else if Qualifies(c, serving) && StateOf(d'.ho) == HoIdle then Trigger(d', c.pci.value, r)
               else d')
    ensures Panics(cells[i]) ==> OnCells(d, cells, serving, r) == OnCells(d, cells[..i + 1], serving, r)
  {
    var next := cells[..i + 1];
    assert next[..i] == cells[..i];
    assert forall k :: 0 <= k < i ==> next[k] == cells[..i][k];
    assert forall k :: 0 <= k < i ==> !Panics(cells[..i][k]);
    if Panics(cells[i]) {
      assert Panics(next[i]);
      ChoiceStops(cells, i, |cells|, serving);
      assert cells[..|cells|] == cells;
    }
  }

  /** Cells after one that panics are never looked at. */
  lemma {:induction false} ChoiceStops(cells: seq<Cell>, i: nat, n: nat, serving: nat)
    requires i < n <= |cells| && Panics(cells[i])
    ensures Choice(cells[..n], serving) == Choice(cells[..i + 1], serving)
  {
    if n > i + 1 {
      ChoiceStops(cells, i, n - 1, serving);
      assert cells[..n][..n - 1] == cells[..n - 1];
      assert Panics(cells[..n][i]);
    }
  }

  lemma ForwardNext(d: DuState, msgs: seq<Uplink>, i: nat)
    requires i < |msgs| && !ForwardAll(d, msgs[..i]).crashed
    ensures ForwardAll(d, msgs[..i + 1]) == Forward(ForwardAll(d, msgs[..i]), i == 0, msgs[i].m, msgs[i].r)
  {
    assert msgs[..i + 1][..i] == msgs[..i];
  }

  lemma {:induction false} CrashedStays(d: DuState, msgs: seq<Uplink>, n: nat)
    requires n <= |msgs| && ForwardAll(d, msgs[..n]).crashed
    ensures ForwardAll(d, msgs) == ForwardAll(d, msgs[..n])
    decreases |msgs|
  {
    if n < |msgs| {
      var before := msgs[..|msgs| - 1];
      assert before[..n] == msgs[..n];
      CrashedStays(d, before, n);
    } else {
      assert msgs[..n] == msgs;
    }
  }
}
