/** The whole UE: one NAS message goes to 5GMM or to session management, and the two run side by side. */
module Nas {
  import opened Bytes
  import opened Auth
  import opened Gmm
  import opened Sessions
  import GmmRuns
  import SessionRuns

  /** content is None when the payload container does not decode. */
  datatype Message =
    | Session(sm: SmMsg)
    | Mobility(gmm: NasMsg)
    | Transport(isN1Sm: bool, hasId: bool, content: Option<SmMsg>)

  /** The 5GSM message that a NAS message carries, if it carries one. */
  function SessionPart(m: Message): Option<SmMsg> {
    match m
    case Session(sm) => Some(sm)
    case Mobility(_) => None
    case Transport(isN1Sm, hasId, content) => if isN1Sm && hasId then content else None
  }

  /** The 5GMM view of a NAS message. */
  function MobilityPart(m: Message): NasMsg {
    match m
    case Session(_) => SessionMessage
    case Mobility(gmm) => gmm
    case Transport(_, _, _) => DlNasTransport
  }

  class UeNas {
    const gmm: UeContext
    const sessions: UeSessions

    ghost predicate Valid()
      reads this, gmm, gmm.Footprint(), sessions, sessions.sessions
    {
      gmm.Valid() && sessions.Valid() && sessions.sessions as object !in gmm.Footprint()
    }

    constructor (gmm: UeContext)
      requires gmm.Valid()
      ensures Valid() && this.gmm == gmm && fresh(sessions) && fresh(sessions.sessions)
      ensures sessions.View() == SessionRuns.EMPTY
    {
      this.gmm := gmm;
      sessions := new UeSessions();
    }

    ghost function Table(): set<object>
      reads this, sessions, sessions.sessions
    {
      {sessions, sessions.sessions} + sessions.Held() + set p | p in sessions.retired
    }

    twostate lemma TableKept(mine: set<object>)
      requires old(Valid()) && mine == old(Table()) && unchanged(mine)
      ensures sessions.Valid() && sessions.View() == old(sessions.View())
    {
    }

    /** The two parts share no object. */
    lemma Apart()
      requires Valid()
      ensures Table() !! gmm.Footprint()
    {
    }

    /** A session message leaves 5GMM alone. */
    method HandleSession(sm: SmMsg)
      requires Valid()
      modifies sessions, sessions.sessions, sessions.Held()
      ensures Valid() && gmm.State() == old(gmm.State()) && gmm.sent == old(gmm.sent)
      ensures gmm.Footprint() == old(gmm.Footprint()) && gmm.auth.Subscription() == old(gmm.auth.Subscription())
      ensures sessions.View() == OnSm(old(sessions.View()), sm)
    {
      sessions.HandleNas_n1sm(sm);
    }

    /** A 5GMM message leaves the sessions alone. */
    method HandleMobility(m: NasMsg)
      requires Valid() && !gmm.halted
      modifies gmm.Footprint()
      ensures Valid() && gmm.auth.Subscription() == old(gmm.auth.Subscription())
      ensures var r := OnMessage(gmm.auth.Subscription(), old(gmm.State()), m);
              gmm.State() == r.ue && gmm.sent == old(gmm.sent) + r.out
      ensures sessions.View() == old(sessions.View())
    {
      Apart();
      ghost var mine := Table();
      label before:
      gmm.HandleNas_n1mm(m);
      TableKept@before(mine);
    }

    /** Only a decodable N1 SM payload with an id reaches the sessions. */
    method HandleTransport(isN1Sm: bool, hasId: bool, content: Option<SmMsg>)
      requires Valid()
      modifies sessions, sessions.sessions, sessions.Held()
      ensures Valid() && gmm.State() == old(gmm.State()) && gmm.sent == old(gmm.sent)
      ensures gmm.Footprint() == old(gmm.Footprint()) && gmm.auth.Subscription() == old(gmm.auth.Subscription())
      ensures sessions.View() == if isN1Sm && hasId && content.Some? then OnSm(old(sessions.View()), content.value)
                                 else old(sessions.View())
    {
      if !isN1Sm {
        return;
      }
      if !hasId {
        return;
      }
      if content == None {
        return;
      }
      HandleSession(content.value);
    }

    method HandleNas(m: Message)
      requires Valid() && !gmm.halted
      modifies gmm.Footprint(), sessions, sessions.sessions, sessions.Held()
      ensures Valid() && gmm.auth.Subscription() == old(gmm.auth.Subscription())
      ensures var r := OnMessage(gmm.auth.Subscription(), old(gmm.State()), MobilityPart(m));
              gmm.State() == r.ue && gmm.sent == old(gmm.sent) + r.out
      ensures sessions.View() == if SessionPart(m).Some? then OnSm(old(sessions.View()), SessionPart(m).value)
                                 else old(sessions.View())
    {
      Unmoved(gmm.auth.Subscription(), gmm.State(), MobilityPart(m));
      match m {
        case Session(sm) =>
          HandleSession(sm);
        case Mobility(nas) =>
          HandleMobility(nas);
        case Transport(isN1Sm, hasId, content) =>
          HandleTransport(isN1Sm, hasId, content);
      }
    }
  }

  lemma Unmoved(u: Usim, s: Ue, m: NasMsg)
    ensures m.SessionMessage? || m.DlNasTransport? ==> OnMessage(u, s, m) == Reply(s, [])
  {
  }

  // Histories of the whole UE.

  datatype Event = Received(m: Message) | Register(pdu: Option<seq<byte>>) | Trigger(e: SessionRuns.Event)

  datatype Whole = Whole(ue: Ue, table: Table)

  /** What an event is for 5GMM; a session trigger is nothing to it. */
  function MobilityInput(e: Event): GmmRuns.Input {
    match e
    case Received(m) => GmmRuns.Received(MobilityPart(m))
    case Register(pdu) => GmmRuns.Register(pdu)
    case Trigger(_) => GmmRuns.Received(NoContent)
  }

  function SessionEvent(e: Event): Option<SessionRuns.Event> {
    match e
    case Received(m) => if SessionPart(m).Some? then Some(SessionRuns.Receive(SessionPart(m).value)) else None
    case Register(_) => None
    case Trigger(t) => Some(t)
  }

  function Step(u: Usim, w: Whole, e: Event): Whole
    requires WellFormed(w.table)
  {
    if w.ue.halted then w
    else
      Whole(GmmRuns.Respond(u, w.ue, MobilityInput(e)).ue,
            if SessionEvent(e).Some? then SessionRuns.Apply(w.table, SessionEvent(e).value) else w.table)
  }

  function Run(u: Usim, w: Whole, h: seq<Event>): (r: Whole)
    requires WellFormed(w.table)
    ensures WellFormed(r.table)
  {
    if h == [] then w else Step(u, Run(u, w, h[..|h| - 1]), h[|h| - 1])
  }

  function MobilityInputs(h: seq<Event>): seq<GmmRuns.Input> {
    seq(|h|, i requires 0 <= i < |h| => MobilityInput(h[i]))
  }

  /** The session events of a history that reach a live UE. */
  function SessionEvents(u: Usim, w: Whole, h: seq<Event>): seq<SessionRuns.Event>
    requires WellFormed(w.table)
  {
    if h == [] then []
    else
      var before, e := h[..|h| - 1], h[|h| - 1];
      SessionEvents(u, w, before) +
      if SessionEvent(e).Some? && !Run(u, w, before).ue.halted then [SessionEvent(e).value] else []
  }

  /** Whatever the order of 5GMM and session events, each part of the UE is the run of its own events. */
  lemma {:induction false} PartsRunAlone(u: Usim, w: Whole, h: seq<Event>)
    requires WellFormed(w.table)
    ensures Run(u, w, h).ue == GmmRuns.UeAfter(u, w.ue, MobilityInputs(h))
    ensures Run(u, w, h).table == SessionRuns.Run(w.table, SessionEvents(u, w, h))
  {
    if h != [] {
      var n := |h| - 1;
      PartsRunAlone(u, w, h[..n]);
      assert MobilityInputs(h)[..n] == MobilityInputs(h[..n]);
      var before := SessionEvents(u, w, h[..n]);
      if SessionEvent(h[n]).Some? && !Run(u, w, h[..n]).ue.halted {
        assert (before + [SessionEvent(h[n]).value])[..|before|] == before;
      } else {
        assert before + [] == before;
      }
    }
  }

  /** So the session life cycle and the security context hold of every history of the whole UE. */
  lemma {:induction false} WholeUe(u: Usim, s: Ue, h: seq<Event>)
    requires s.sec.None?
    ensures var w := Run(u, Whole(s, SessionRuns.EMPTY), h);
            SessionRuns.Settled(w.table) &&
            (w.ue.sec.Some? <==> GmmRuns.HasStanding(GmmRuns.Marks(u, s, MobilityInputs(h))))
  {
    PartsRunAlone(u, Whole(s, SessionRuns.EMPTY), h);
    SessionRuns.Lifecycle(SessionEvents(u, Whole(s, SessionRuns.EMPTY), h));
    GmmRuns.ContextExactly(u, s, MobilityInputs(h));
  }

  /** Where each kind of message takes effect in a live UE. */
  lemma DispatchExactly(u: Usim, w: Whole, sm: SmMsg, gmm: NasMsg, isN1Sm: bool, hasId: bool, content: Option<SmMsg>)
    requires WellFormed(w.table) && !w.ue.halted
    ensures Step(u, w, Received(Session(sm))) == w.(table := OnSm(w.table, sm))
    ensures Step(u, w, Received(Mobility(gmm))) == w.(ue := OnMessage(u, w.ue, gmm).ue)
    ensures Step(u, w, Received(Transport(isN1Sm, hasId, content))) ==
              w.(table := if isN1Sm && hasId && content.Some? then OnSm(w.table, content.value) else w.table)
  {
  }

  /** A pending session becomes active by an accept carried in a DL NAS Transport. */
  lemma AcceptInTransport(u: Usim, w: Whole)
    requires WellFormed(w.table) && !w.ue.halted && w.table.slots[1] == Some(Sess(1, ActivePending, []))
    ensures Step(u, w, Received(Transport(true, true, Some(EstablishmentAccept(1, 1, 1, None))))).table.slots[1] ==
              Some(Sess(1, Active, []))
  {
  }
}
