/**
  The handover context between goroutines: the uplink forwarder, and one goroutine for each F1AP
  message, check it and set it in separate critical sections. One step is one check, one setter, or
  one send.
 */
module DuSetters {
  import opened Du

  /**
    FoundIdle: a qualifying neighbour found the state idle. Announced: the DU has become source.
    Refused: sending failed. FoundTarget: a completion found the target role.
   */
  datatype Forwarder = Ready | FoundIdle | Announced | Refused | FoundTarget

  /** A setup request: it has found preparation; RACH monitoring has then found the target role; or it is done. */
  datatype Setup = FoundPreparation | RachAllowed | SetupDone

  /** requested: UE Context Modification Required messages attempted. */
  datatype Sys = Sys(role: Role, state: HoState, forwarder: Forwarder, setups: seq<Setup>, requested: nat)

  datatype Action =
    | Neighbour
    | CompletionArrives
    | StepForwarder(fails: bool)
    | SetupArrives
    | StepSetup(i: nat)
    | ConfirmArrives
    | PrepareTarget
    | Reset

  const START: Sys := Sys(NoRole, HoIdle, Ready, [], 0)

  function Set(s: Sys, role: Role, state: HoState): Sys {
    s.(role := role, state := state)
  }

  function ForwarderStep(s: Sys, fails: bool): Sys {
    match s.forwarder
    case Ready => s
    case FoundIdle => Set(s, Source, Preparation).(forwarder := Announced)
    case Announced => s.(requested := s.requested + 1, forwarder := if fails then Refused else Ready)
    case Refused => Set(s, Source, HoFailed).(forwarder := Ready)
    case FoundTarget => Set(s, Target, HoCompleted).(forwarder := Ready)
  }

  function SetupStep(s: Sys, i: nat): Sys
    requires i < |s.setups|
  {
    match s.setups[i]
    case FoundPreparation => s.(setups := s.setups[i := if s.role == Target then RachAllowed else SetupDone])
    case RachAllowed => Set(s, Target, Execution).(setups := s.setups[i := SetupDone])
    case SetupDone => s
  }

  function Do(s: Sys, a: Action): Sys {
    match a
    case Neighbour => if s.forwarder.Ready? && s.state == HoIdle then s.(forwarder := FoundIdle) else s
    case CompletionArrives => if s.forwarder.Ready? && s.role == Target then s.(forwarder := FoundTarget) else s
    case StepForwarder(fails) => ForwarderStep(s, fails)
    case SetupArrives => if s.state == Preparation then s.(setups := s.setups + [FoundPreparation]) else s
    case StepSetup(i) => if i < |s.setups| then SetupStep(s, i) else s
    case ConfirmArrives => Set(s, Source, Execution)
    case PrepareTarget => Set(s, Target, Preparation)
    case Reset => Set(s, NoRole, HoIdle)
  }

  function Run(s: Sys, acts: seq<Action>): Sys {
    if acts == [] then s else Do(Run(s, acts[..|acts| - 1]), acts[|acts| - 1])
  }

  function Resets(acts: seq<Action>): nat {
    if acts == [] then 0 else Resets(acts[..|acts| - 1]) + if acts[|acts| - 1] == Reset then 1 else 0
  }

  /** No role exactly while idle, failure only as source, completion only as target. */
  predicate Fits(s: Sys) {
    (s.role == NoRole <==> s.state == HoIdle) && (s.state == HoFailed ==> s.role == Source) &&
    (s.state == HoCompleted ==> s.role == Target) && s.state != Completion
  }

  /** A handover about to be requested, or one that an idle state still allows. */
  function Open(s: Sys): nat {
    if s.forwarder.FoundIdle? || s.forwarder.Announced? then
      if s.state == HoIdle && s.forwarder.Announced? then 2 else 1
    else if s.state == HoIdle then 1
    else 0
  }

  lemma StepFits(s: Sys, a: Action)
    requires Fits(s)
    ensures Fits(Do(s, a))
  {
  }

  /** A step opens at most what it closes, but for a reset. */
  lemma StepOpen(s: Sys, a: Action)
    ensures Do(s, a).requested + Open(Do(s, a)) <= s.requested + Open(s) + if a == Reset then 1 else 0
  {
  }

  /** Under every interleaving role and state fit, and handovers are requested at most once more than resets. */
  lemma {:induction false} ConsistentUnderInterleaving(acts: seq<Action>)
    ensures var s := Run(START, acts);
            Fits(s) && s.requested + Open(s) <= 1 + Resets(acts)
  {
    if acts != [] {
      var before, a := acts[..|acts| - 1], acts[|acts| - 1];
      ConsistentUnderInterleaving(before);
      StepFits(Run(START, before), a);
      StepOpen(Run(START, before), a);
    }
  }

  /** A goroutine has found the target role and not yet acted on it. */
  predicate Holding(s: Sys) {
    RachAllowed in s.setups || s.forwarder.FoundTarget?
  }

  lemma {:induction false} NoNewTarget(s: Sys, acts: seq<Action>)
    requires s.role != Target && !Holding(s) && PrepareTarget !in acts
    ensures Run(s, acts).role != Target && !Holding(Run(s, acts))
  {
    if acts != [] {
      NoNewTarget(s, acts[..|acts| - 1]);
    }
  }

  ghost predicate CanBecomeTarget(s: Sys) {
    exists acts: seq<Action> :: PrepareTarget !in acts && Run(s, acts).role == Target
  }

  /**
    A DU that is no target, be it reset or a source, can become one without a new preparation exactly
    when a goroutine still holds an earlier check of the target role.
   */
  lemma TargetAgainExactly(s: Sys)
    requires s.role != Target
    ensures CanBecomeTarget(s) <==> Holding(s)
  {
    if Holding(s) {
      var a := StepForwarder(false);
      if RachAllowed in s.setups {
        var i :| 0 <= i < |s.setups| && s.setups[i] == RachAllowed;
        a := StepSetup(i);
      }
      assert [a][..0] == [];
      assert Run(s, [a]).role == Target;
    }
    if CanBecomeTarget(s) {
      var acts: seq<Action> :| PrepareTarget !in acts && Run(s, acts).role == Target;
      if !Holding(s) {
        NoNewTarget(s, acts);
      }
    }
  }

  /** A reset between the check of RACH monitoring and its setter is undone. */
  const UNDONE: seq<Action> := [PrepareTarget, SetupArrives, StepSetup(0), Reset, StepSetup(0)]

  lemma ResetUndone()
    ensures Run(START, UNDONE[..4]).state == HoIdle && Holding(Run(START, UNDONE[..4]))
    ensures Run(START, UNDONE).role == Target && Run(START, UNDONE).state == Execution
  {
    var u := UNDONE;
    assert u[..1] == [] + [u[0]] && u[..2] == u[..1] + [u[1]] && u[..3] == u[..2] + [u[2]];
    assert u[..4] == u[..3] + [u[3]] && u == u[..4] + [u[4]];
    RunNext(START, [], u[0]);
    RunNext(START, u[..1], u[1]);
    RunNext(START, u[..2], u[2]);
    RunNext(START, u[..3], u[3]);
    RunNext(START, u[..4], u[4]);
  }

  lemma RunNext(s: Sys, acts: seq<Action>, a: Action)
    ensures Run(s, acts + [a]) == Do(Run(s, acts), a)
  {
    assert (acts + [a])[..|acts|] == acts;
  }

  // Without interruption the steps are those of the handlers.

  /** Role and state are those of the DU. */
  predicate Agrees(s: Sys, d: DuState) {
    s.role == RoleOf(d.ho) && s.state == StateOf(d.ho)
  }

  /** A better neighbour: the trigger in the idle state, with its failure; otherwise nothing. */
  lemma TriggerAlone(s: Sys, d: DuState, pci: nat, fails: bool)
    requires Agrees(s, d) && s.forwarder.Ready?
    ensures var s1 := Do(s, Neighbour);
            if StateOf(d.ho) == HoIdle then
              var s3 := Do(Do(s1, StepForwarder(fails)), StepForwarder(fails));
              var s4 := if fails then Do(s3, StepForwarder(fails)) else s3;
              Agrees(s4, Trigger(d, pci, if fails then SendError else Sent)) && s4.forwarder.Ready? &&
              s4.requested == s.requested + 1 && s4.setups == s.setups
            else s1 == s
  {
  }

  lemma CompletionAlone(s: Sys, d: DuState)
    requires Agrees(s, d) && s.forwarder.Ready?
    ensures var r := Do(Do(s, CompletionArrives), StepForwarder(false));
            Agrees(r, OnReconfigurationComplete(d)) && r.forwarder.Ready? && r.requested == s.requested
  {
  }

  /** A setup request: the check of preparation, the check of RACH monitoring, and its setter. */
  lemma SetupAlone(s: Sys, d: DuState, m: SetupRequest)
    requires Agrees(s, d) && m.initiating && m.isSetup
    ensures var i := |s.setups|;
            var r := Do(Do(Do(s, SetupArrives), StepSetup(i)), StepSetup(i));
            Agrees(r, OnSetupRequest(d, m)) && r.forwarder == s.forwarder && r.requested == s.requested &&
            r.setups == if StateOf(d.ho) == Preparation then s.setups + [SetupDone] else s.setups
  {
    var i := |s.setups|;
    var s1 := Do(s, SetupArrives);
    if StateOf(d.ho) == Preparation {
      var s2 := Do(s1, StepSetup(i));
      assert s2.setups == s.setups + [if s.role == Target then RachAllowed else SetupDone];
      assert (s.setups + [RachAllowed])[i := SetupDone] == s.setups + [SetupDone];
    }
  }

  lemma SettersAlone(s: Sys, d: DuState, c: Confirm)
    requires Agrees(s, d) && d.ho.Some?
    ensures Agrees(Do(s, Reset), OnReset(d))
    ensures c.successful && c.isConfirm && c.rrc != [] && d.ue.Some? ==> Agrees(Do(s, ConfirmArrives), OnConfirm(d, c))
    ensures Do(s, PrepareTarget).role == Target && Do(s, PrepareTarget).state == Preparation
  {
  }
}
