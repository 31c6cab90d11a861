/** 5GMM message handling of the UE: registration state, authentication, and the NAS security context. */
module Gmm {
  import opened Bytes
  import opened Auth
  import opened SecurityContexts

  datatype RegState = Deregistered | Registering | Registered

  /** A mobile identity offered as GUTI; only a 5G-GUTI is stored. */
  datatype Identity = Identity(is5gGuti: bool, value: seq<byte>)

  /** Decoded messages; None marks an absent information element. */
  datatype NasMsg =
    | SessionMessage
    | NoContent
    | IdentityRequest(suci: bool, encodes: bool)
    | AuthenticationRequest(ngKsi: Ksi, abba: seq<byte>, rand: Option<seq<byte>>, autn: Option<seq<byte>>)
    | SecurityModeCommand(ngKsi: Ksi, encAlg: nat, intAlg: nat, rinmr: Option<bool>)
    | RegistrationAccept(guti: Option<Identity>)
    | RegistrationReject(cause: nat)
    | AuthenticationReject
    | GmmStatus(cause: nat)
    | DlNasTransport
    | UnknownType(msgType: nat)

  /** What the UE hands to the DU, or starts; KAMF says which keys a message was protected with. */
  datatype NasOut =
    | AuthFailureMac
    | AuthFailureSync(auts: seq<byte>)
    | AuthResponse(resStar: seq<byte>)
    | SecurityModeComplete(ngKsi: Ksi, kamf: seq<byte>, container: Option<seq<byte>>)
    | RegistrationComplete(isProtected: bool)
    | IdentityResponse(isProtected: bool)
    | DefaultSessionStarted

  /** halted: the process has exited, by a fatal error or a run-time panic. */
  datatype Ue = Ue(
    reg: RegState, auth: AuthState, sec: Option<SecState>, guti: Option<seq<byte>>, nasPdu: seq<byte>, halted: bool)

  datatype Reply = Reply(ue: Ue, out: seq<NasOut>)

  function NewSec(ksi: Ksi, kamf: seq<byte>): SecState {
    SecState(ksi, kamf, [], [], [], 0, NasState(0, 0, None), NasState(0, 0, None))
  }

  /** The request's ngKSI and RAND are stored before AUTN is looked at; a RAND of the wrong size sets no challenge. */
  function StoreRequest(a: AuthState, ksi: Ksi, rand: seq<byte>): AuthState {
    a.(ngKsi := ksi, rand := rand, challenge := if |rand| == 16 then rand else a.challenge)
  }

  predicate Complete(m: NasMsg)
    requires m.AuthenticationRequest?
  {
    m.ngKsi.id != 7 && m.abba != [] && m.rand.Some? && m.autn.Some?
  }

  /** The answer to an outcome, with a the state it left; a success puts a new security context in place. */
  function Answered(s: Ue, a: AuthState, outcome: AuthOutcome): Reply {
    match outcome
    case MacFailure => Reply(s.(auth := a), [AuthFailureMac])
    case SyncFailure(auts) => Reply(s.(auth := a), [AuthFailureSync(auts)])
    case Success(resStar) => Reply(s.(auth := a, sec := Some(NewSec(a.ngKsi, a.kamf))), [AuthResponse(resStar)])
  }

  function Answer(u: Usim, s: Ue, autn: seq<byte>, abba: seq<byte>): Reply
    requires |autn| >= 8
  {
    Answered(s, AfterAuth(u, s.auth, autn, abba), Outcome(u, s.auth, autn))
  }

  /** An incomplete request is fatal, and an AUTN too short to hold a MAC panics. */
  function OnAuthenticationRequest(u: Usim, s: Ue, m: NasMsg): Reply
    requires m.AuthenticationRequest?
  {
    if !Complete(m) then Reply(s.(halted := true), [])
    else
      var stored := s.(auth := StoreRequest(s.auth, m.ngKsi, m.rand.value));
      if |m.autn.value| < 8 then Reply(stored.(halted := true), [])
      else Answer(u, stored, m.autn.value, m.abba)
  }

  /** The stored request, if the command asks for it and there is one. */
  function Container(s: Ue, m: NasMsg): Option<seq<byte>>
    requires m.SecurityModeCommand?
  {
    if m.rinmr == Some(true) && s.nasPdu != [] then Some(s.nasPdu) else None
  }

  /** A matching command without a security context dereferences nil. */
  function OnSecurityModeCommand(s: Ue, m: NasMsg): Reply
    requires m.SecurityModeCommand?
  {
    if m.ngKsi.id == 7 || s.auth.ngKsi != m.ngKsi then Reply(s.(reg := Deregistered), [])
    else if s.sec.None? then Reply(s.(halted := true), [])
    else
      var c := s.sec.value;
      var keys := NasKeys(m.encAlg, m.intAlg, c.kamf);
      Reply(s.(sec := Some(c.(gpp := c.gpp.(requested := Some(keys))))),
            [SecurityModeComplete(m.ngKsi, c.kamf, Container(s, m))])
  }

  function OnReject(s: Ue): Ue {
    s.(reg := Deregistered, sec := None, auth := s.auth.(ngKsi := s.auth.ngKsi.(id := 7)))
  }

  /** An identity that is no 5G-GUTI is not stored, yet the stored GUTI is then formatted: nil when there is none. */
  predicate NilGuti(s: Ue, m: NasMsg)
    requires m.RegistrationAccept?
  {
    m.guti.Some? && !m.guti.value.is5gGuti && s.guti.None?
  }

  function OnRegistrationAccept(s: Ue, m: NasMsg): Reply
    requires m.RegistrationAccept?
  {
    if NilGuti(s, m) then Reply(s.(halted := true), [])
    else
      var guti := if m.guti.Some? && m.guti.value.is5gGuti then Some(m.guti.value.value) else s.guti;
      Reply(s.(guti := guti, reg := Registered), [RegistrationComplete(s.sec.Some?), DefaultSessionStarted])
  }

  function OnMessage(u: Usim, s: Ue, m: NasMsg): Reply {
    if s.halted then Reply(s, [])
    else
      match m
      case AuthenticationRequest(_, _, _, _) => OnAuthenticationRequest(u, s, m)
      case SecurityModeCommand(_, _, _, _) => OnSecurityModeCommand(s, m)
      case RegistrationAccept(_) => OnRegistrationAccept(s, m)
      case RegistrationReject(_) => Reply(OnReject(s), [])
      case AuthenticationReject => Reply(OnReject(s), [])
      case IdentityRequest(suci, encodes) =>
        Reply(s, if suci && encodes then [IdentityResponse(s.sec.Some?)] else [])
      case _ => Reply(s, [])
  }

  class UeContext {
    const auth: AuthContext
    const lib: Library
    var state: RegState
    var secCtx: SecurityContext?
    var guti: Option<seq<byte>>
    var nasPdu: seq<byte>
    var halted: bool
    var sent: seq<NasOut>

    ghost function Footprint(): set<object>
      reads this
    {
      {this, auth, auth.sqn, auth.milenage.opc, auth.milenage.randxor, auth.milenage.rand} +
      if secCtx == null then {} else {secCtx, secCtx.gppNas, secCtx.nonGppNas}
    }

    ghost predicate Valid()
      reads this, Footprint()
    {
      auth.Valid() && (secCtx != null ==> secCtx.Valid())
    }

    ghost function State(): Ue
      requires auth.milenage.Shape()
      reads this, Footprint()
    {
      Ue(state, auth.State(), if secCtx == null then None else Some(secCtx.State()), guti, nasPdu, halted)
    }

    constructor (auth: AuthContext, lib: Library)
      requires auth.Valid()
      ensures Valid() && this.auth == auth && sent == []
      ensures State() == Ue(Deregistered, auth.State(), None, None, [], false)
    {
      this.auth, this.lib := auth, lib;
      state, secCtx, guti, nasPdu, halted, sent := Deregistered, null, None, [], false, [];
    }

    method Send(m: NasOut)
      modifies this`sent
      ensures sent == old(sent) + [m]
    {
      sent := sent + [m];
    }

    method SetState(s: RegState)
      modifies this`state
      ensures state == s
    {
      state := s;
    }

    method ResetSecurityContext()
      requires Valid()
      modifies this`secCtx, auth`ngKsi
      ensures Valid() && secCtx == null && auth.ngKsi == Ksi(7, old(auth.ngKsi).tsc)
    {
      secCtx := null;
      auth.ngKsi := auth.ngKsi.(id := 7);
    }

    /** Keep a copy of the encoded request for the Security Mode Complete; None is an encoding error. */
    method TriggerInitRegistration(pdu: Option<seq<byte>>) returns (err: bool)
      requires Valid()
      modifies this`nasPdu, this`state
      ensures Valid() && err == pdu.None? && sent == old(sent)
      ensures State() == if err then old(State()) else old(State()).(nasPdu := pdu.value, reg := Registering)
    {
      if pdu.None? {
        return true;
      }
      nasPdu := pdu.value;
      SetState(Registering);
      return false;
    }

    method HandleAuthenticationReject()
      requires Valid()
      modifies this`state, this`secCtx, auth`ngKsi
      ensures Valid() && State() == OnReject(old(State())) && sent == old(sent)
    {
      SetState(Deregistered);
      ResetSecurityContext();
    }

    method HandleRegistrationReject(cause: nat)
      requires Valid()
      modifies this`state, this`secCtx, auth`ngKsi
      ensures Valid() && State() == OnReject(old(State())) && sent == old(sent)
    {
      SetState(Deregistered);
      ResetSecurityContext();
    }

    method HandleAuthenticationRequest(m: NasMsg)
      requires Valid() && m.AuthenticationRequest? && !halted
      modifies this, auth, auth.sqn, auth.milenage.randxor, auth.milenage.rand
      ensures Valid() && auth.Subscription() == old(auth.Subscription())
      ensures secCtx == old(secCtx) ||
              (secCtx != null && fresh(secCtx) && fresh(secCtx.gppNas) && fresh(secCtx.nonGppNas))
      ensures var r := OnAuthenticationRequest(auth.Subscription(), old(State()), m);
              State() == r.ue && sent == old(sent) + r.out
    {
      if m.ngKsi.id == 7 {
        halted := true;
        return;
      }
      if |m.abba| == 0 {
        halted := true;
        return;
      }
      if m.rand == None {
        halted := true;
        return;
      }
      if m.autn == None {
        halted := true;
        return;
      }
      StoreChallenge(m.ngKsi, m.rand.value);
      if |m.autn.value| < 8 {
        halted := true;
        return;
      }
      Authenticate(m.autn.value, m.abba);
    }

    method StoreChallenge(ksi: Ksi, rand: seq<byte>)
      requires Valid()
      modifies auth, auth.milenage.randxor, auth.milenage.rand
      ensures Valid() && auth.Subscription() == old(auth.Subscription())
      ensures State() == old(State()).(auth := StoreRequest(old(auth.State()), ksi, rand))
    {
      auth.ngKsi := ksi;
      auth.rand := rand;
      var _ := auth.milenage.SetRand(auth.rand);
    }

    /** Check AUTN and answer. */
    method Authenticate(autn: seq<byte>, abba: seq<byte>)
      requires Valid() && |autn| >= 8
      modifies this`secCtx, this`sent, auth`kamf, auth.sqn
      ensures Valid() && auth.Subscription() == old(auth.Subscription())
      ensures secCtx == old(secCtx) ||
              (secCtx != null && fresh(secCtx) && fresh(secCtx.gppNas) && fresh(secCtx.nonGppNas))
      ensures var r := Answer(auth.Subscription(), old(State()), autn, abba);
              State() == r.ue && sent == old(sent) + r.out
    {
      ghost var before, a := State(), AfterAuth(auth.Subscription(), auth.State(), autn, abba);
      var outcome := auth.ProcessAuthenticationInfo(autn, abba);
      assert State() == before.(auth := a);
      Respond(outcome);
      assert Answered(before.(auth := a), a, outcome) == Answered(before, a, outcome);
    }

    /** The switch on the outcome: one message, and on success a new, inactive security context. */
    method Respond(outcome: AuthOutcome)
      requires Valid()
      modifies this`secCtx, this`sent
      ensures Valid()
      ensures secCtx == old(secCtx) ||
              (secCtx != null && fresh(secCtx) && fresh(secCtx.gppNas) && fresh(secCtx.nonGppNas))
      ensures var r := Answered(old(State()), old(State()).auth, outcome);
              State() == r.ue && sent == old(sent) + r.out
    {
      match outcome {
        case MacFailure =>
          Send(AuthFailureMac);
        case SyncFailure(auts) =>
          Send(AuthFailureSync(auts));
        case Success(resStar) =>
          secCtx := new SecurityContext(auth.ngKsi, auth.kamf);
          Send(AuthResponse(resStar));
      }
    }

    method HandleSecurityModeCommand(m: NasMsg)
      requires Valid() && m.SecurityModeCommand? && !halted
      modifies this, if secCtx == null then {} else {secCtx.gppNas}
      ensures Valid() && secCtx == old(secCtx)
      ensures var r := OnSecurityModeCommand(old(State()), m);
              State() == r.ue && sent == old(sent) + r.out
    {
      if m.ngKsi.id == 7 || auth.ngKsi.id != m.ngKsi.id || auth.ngKsi.tsc != m.ngKsi.tsc {
        SetState(Deregistered);
        return;
      }
      var rinmr := false;
      if m.rinmr.Some? {
        rinmr := m.rinmr.value;
      }
      if secCtx == null {
        halted := true;
        return;
      }
      var _ := secCtx.gppNas.DeriveKeys(lib, m.encAlg, m.intAlg, secCtx.kamf);
      var container: Option<seq<byte>> := None;
      if rinmr && |nasPdu| > 0 {
        container := Some(nasPdu);
      }
      Send(SecurityModeComplete(m.ngKsi, secCtx.kamf, container));
    }

    /** The registration state is left to the caller. */
    method HandleRegistrationAccept(m: NasMsg)
      requires Valid() && m.RegistrationAccept? && !halted
      modifies this`guti, this`sent, this`halted
      ensures Valid() && halted == NilGuti(old(State()), m) && state == old(state)
      ensures var r := OnRegistrationAccept(old(State()), m);
              (if halted then State() else State().(reg := Registered)) == r.ue && sent == old(sent) + r.out
    {
      if m.guti.Some? {
        if m.guti.value.is5gGuti {
          guti := Some(m.guti.value.value);
        }
        if guti == None {
          halted := true;
          return;
        }
      }
      Send(RegistrationComplete(secCtx != null));
      Send(DefaultSessionStarted);
    }

    method HandleIdentityRequest(suci: bool, encodes: bool)
      modifies this`sent
      ensures sent == old(sent) + if suci && encodes then [IdentityResponse(secCtx != null)] else []
    {
      if !suci {
        return;
      }
      var isProtected := secCtx != null;
      if encodes {
        Send(IdentityResponse(isProtected));
      }
    }

    /** The three cases of the switch that also set the registration state. */
    method EndRegistration(m: NasMsg)
      requires Valid() && !halted && (m.RegistrationAccept? || m.RegistrationReject? || m.AuthenticationReject?)
      modifies this`state, this`secCtx, this`guti, this`sent, this`halted, auth`ngKsi
      ensures Valid() && (secCtx == null || secCtx == old(secCtx))
      ensures var r := OnMessage(auth.Subscription(), old(State()), m);
              State() == r.ue && sent == old(sent) + r.out
    {
      match m {
        case RegistrationAccept(_) =>
          HandleRegistrationAccept(m);
          if halted {
            return;
          }
          SetState(Registered);
        case RegistrationReject(cause) =>
          HandleRegistrationReject(cause);
          SetState(Deregistered);
        case AuthenticationReject =>
          HandleAuthenticationReject();
          SetState(Deregistered);
      }
    }

    method HandleNas_n1mm(m: NasMsg)
      requires Valid() && !halted
      modifies Footprint()
      ensures Valid() && auth.Subscription() == old(auth.Subscription())
      ensures secCtx == null || secCtx == old(secCtx) ||
              (fresh(secCtx) && fresh(secCtx.gppNas) && fresh(secCtx.nonGppNas))
      ensures var r := OnMessage(auth.Subscription(), old(State()), m);
              State() == r.ue && sent == old(sent) + r.out
    {
      match m {
        case SessionMessage =>
        case NoContent =>
        case IdentityRequest(suci, encodes) =>
          HandleIdentityRequest(suci, encodes);
        case AuthenticationRequest(_, _, _, _) =>
          HandleAuthenticationRequest(m);
        case SecurityModeCommand(_, _, _, _) =>
          HandleSecurityModeCommand(m);
        case RegistrationAccept(_) =>
          EndRegistration(m);
        case RegistrationReject(_) =>
          EndRegistration(m);
        case AuthenticationReject =>
          EndRegistration(m);
        case GmmStatus(_) =>
        case DlNasTransport =>
        case UnknownType(_) =>
      }
    }
  }
}
