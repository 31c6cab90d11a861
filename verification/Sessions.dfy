/** PDU sessions of the UE: the 15-slot table, its triggers, and the 5GSM message handlers. */
module Sessions {
  import opened Bytes

  datatype SessionState = Inactive | ActivePending | Active | ModificationPending | InactivePending

  datatype Sess = Sess(id: nat, state: SessionState, ip: seq<byte>)

  /** What is handed to the NAS transport, in order. */
  datatype SmOut = EstablishmentRequest(id: nat) | ReleaseRequest(id: nat) | ReleaseComplete(id: nat)

  /** retired: the sessions taken out of the table, oldest first. */
  datatype Table = Table(slots: seq<Option<Sess>>, retired: seq<Sess>, sent: seq<SmOut>)

  datatype SmMsg =
    | EstablishmentAccept(pti: nat, sessionType: nat, id: nat, address: Option<seq<byte>>)
    | EstablishmentReject(id: nat, cause: nat)
    | ReleaseCommand(id: nat)
    | SmStatus(cause: nat)
    | NilContent
    | UnknownSm

  const SLOTS := 16

  ghost predicate WellFormed(t: Table) {
    |t.slots| == SLOTS && t.slots[0] == None &&
    forall i :: 0 <= i < SLOTS && t.slots[i].Some? ==> t.slots[i].value.id == i
  }

  /** The lowest free id from i on, or 16. */
  function FirstFree<T>(slots: seq<Option<T>>, i: nat): (k: nat)
    requires |slots| == SLOTS && i <= SLOTS
    ensures i <= k <= SLOTS && (k < SLOTS ==> slots[k] == None)
    ensures forall j :: i <= j < k ==> slots[j].Some?
    decreases SLOTS - i
  {
    if i == SLOTS || slots[i].None? then i else FirstFree(slots, i + 1)
  }

  function Lookup(t: Table, id: nat): Option<Sess>
    requires |t.slots| == SLOTS
  {
    if id == 0 || id > 15 then None else t.slots[id]
  }

  function Put(t: Table, s: Sess): Table
    requires |t.slots| == SLOTS && s.id < SLOTS
  {
    t.(slots := t.slots[s.id := Some(s)])
  }

  lemma PutTwice(t: Table, a: Sess, b: Sess)
    requires |t.slots| == SLOTS && a.id == b.id < SLOTS
    ensures Put(Put(t, a), b) == Put(t, b)
  {
    assert t.slots[a.id := Some(a)][b.id := Some(b)] == t.slots[b.id := Some(b)];
  }

  function Send(t: Table, m: SmOut): Table {
    t.(sent := t.sent + [m])
  }

  function Retire(t: Table, id: nat, s: Sess): Table
    requires |t.slots| == SLOTS && id < SLOTS
  {
    t.(slots := t.slots[id := None], retired := t.retired + [s.(state := Inactive)])
  }

  /** A new session takes the lowest free id; the request is lost when it does not encode. */
  function Establish(t: Table, encodes: bool): Table
    requires |t.slots| == SLOTS
  {
    var k := FirstFree(t.slots, 1);
    if k == SLOTS then t
    else
      var t' := Put(t, Sess(k, ActivePending, []));
      if encodes then Send(t', EstablishmentRequest(k)) else t'
  }

  /** Only an active session can be released. */
  function Release(t: Table, id: nat): Table
    requires WellFormed(t)
  {
    match Lookup(t, id)
    case None => t
    case Some(s) => if s.state == Active then Send(Put(t, s.(state := InactivePending)), ReleaseRequest(id)) else t
  }

  /** Ids of the active sessions below n, ascending. */
  function ActiveIds(slots: seq<Option<Sess>>, n: nat): (ids: seq<nat>)
    requires |slots| == SLOTS && n <= SLOTS
    ensures forall k :: 0 <= k < |ids| ==> 1 <= ids[k] < n
  {
    if n <= 1 then []
    else
      var s := slots[n - 1];
      ActiveIds(slots, n - 1) + if s.Some? && s.value.state == Active then [n - 1] else []
  }

  function ReleaseMany(t: Table, ids: seq<nat>): (r: Table)
    requires WellFormed(t)
    ensures WellFormed(r)
  {
    if ids == [] then t else Release(ReleaseMany(t, ids[..|ids| - 1]), ids[|ids| - 1])
  }

  lemma ReleaseNext(t: Table, ids: seq<nat>, i: nat)
    requires WellFormed(t) && i < |ids|
    ensures ReleaseMany(t, ids[..i + 1]) == Release(ReleaseMany(t, ids[..i]), ids[i])
  {
    assert ids[..i + 1][..i] == ids[..i];
  }

  function NewIp(current: seq<byte>, address: Option<seq<byte>>): seq<byte> {
    if address.Some? && (|address.value| == 4 || |address.value| == 16) then address.value else current
  }

  /** The current state of the session is not checked. */
  function OnAccept(t: Table, m: SmMsg): Table
    requires WellFormed(t) && m.EstablishmentAccept?
  {
    if m.pti != 1 || m.sessionType != 1 then t
    else
      match Lookup(t, m.id)
      case None => t
      case Some(s) => Put(t, s.(state := Active, ip := NewIp(s.ip, m.address)))
  }

  function OnReject(t: Table, id: nat): Table
    requires WellFormed(t)
  {
    match Lookup(t, id)
    case None => t
    case Some(s) => Retire(t, id, s)
  }

  /** An inactive session is neither answered for nor removed. */
  function OnReleaseCommand(t: Table, id: nat): Table
    requires WellFormed(t)
  {
    match Lookup(t, id)
    case None => t
    case Some(s) => if s.state == Inactive then t else Retire(Send(t, ReleaseComplete(id)), id, s)
  }

  function OnSm(t: Table, m: SmMsg): Table
    requires WellFormed(t)
  {
    match m
    case EstablishmentAccept(_, _, _, _) => OnAccept(t, m)
    case EstablishmentReject(id, _) => OnReject(t, id)
    case ReleaseCommand(id) => OnReleaseCommand(t, id)
    case _ => t
  }

  class PduSession {
    const id: nat
    var state: SessionState
    var ueIP: seq<byte>

    constructor (sessionId: nat)
      ensures id == sessionId && state == Inactive && ueIP == []
    {
      id, state, ueIP := sessionId, Inactive, [];
    }

    ghost function View(): Sess
      reads this
    {
      Sess(id, state, ueIP)
    }

    method SetState(s: SessionState)
      modifies this`state
      ensures state == s
    {
      state := s;
    }

    /** An address that is neither IPv4 nor IPv6 is ignored. */
    method SetIp(ip: seq<byte>)
      modifies this`ueIP
      ensures ueIP == NewIp(old(ueIP), Some(ip))
    {
      if |ip| == 4 {
        ueIP := ip;
      } else if |ip| == 16 {
        ueIP := ip;
      }
    }
  }

  class UeSessions {
    const sessions: array<PduSession?>
    ghost var retired: seq<PduSession>
    var sent: seq<SmOut>

    ghost predicate Valid()
      reads this, sessions
    {
      sessions.Length == SLOTS && sessions[0] == null &&
      (forall i :: 0 <= i < SLOTS && sessions[i] != null ==> sessions[i].id == i && sessions[i] !in retired)
    }

    ghost function Held(): set<PduSession>
      reads this, sessions
    {
      set p: PduSession | p in sessions[..]
    }

    ghost function SlotView(i: nat): Option<Sess>
      requires i < sessions.Length
      reads sessions, sessions[i]
    {
      if sessions[i] == null then None else Some(sessions[i].View())
    }

    ghost function View(): (t: Table)
      requires Valid()
      reads this, sessions, Held(), retired
      ensures WellFormed(t)
    {
      Table(seq(SLOTS, i requires 0 <= i < SLOTS && Valid() reads this, sessions, Held() => SlotView(i)),
            seq(|retired|, i requires 0 <= i < |retired| reads this, retired => retired[i].View()),
            sent)
    }

    constructor ()
      ensures Valid() && fresh(sessions) && View() == Table(seq(SLOTS, i => None), [], [])
    {
      sessions := new PduSession?[SLOTS](i => null);
      retired, sent := [], [];
    }

    method Insert(i: nat) returns (session: PduSession)
      requires Valid() && 1 <= i < SLOTS && sessions[i] == null
      modifies sessions
      ensures Valid() && fresh(session) && session.View() == Sess(i, Inactive, [])
      ensures sessions[..] == old(sessions[..])[i := session]
      ensures View() == Put(old(View()), Sess(i, Inactive, []))
    {
      session := new PduSession(i);
      sessions[i] := session;
      assert View().slots == old(View()).slots[i := Some(Sess(i, Inactive, []))];
    }

    /** Change the state of a session that is in the table. */
    method Mark(session: PduSession, s: SessionState)
      requires Valid() && 1 <= session.id < SLOTS && sessions[session.id] == session
      modifies session`state
      ensures Valid() && View() == Put(old(View()), old(session.View()).(state := s))
    {
      session.SetState(s);
      assert View().slots == old(View()).slots[session.id := Some(session.View())];
    }

    method CreatePDUSession() returns (session: PduSession?)
      requires Valid()
      modifies sessions
      ensures Valid() && retired == old(retired) && sent == old(sent)
      ensures var t, k := old(View()), FirstFree(old(View()).slots, 1);
              if k == SLOTS then session == null && View() == t
              else session != null && fresh(session) && session.View() == Sess(k, Inactive, []) &&
                   sessions[k] == session && View() == Put(t, Sess(k, Inactive, []))
    {
      ghost var t := View();
      for i := 1 to SLOTS
        invariant Valid() && View() == t && sessions[..] == old(sessions[..])
        invariant FirstFree(t.slots, 1) == FirstFree(t.slots, i)
      {
        assert t.slots[i] == SlotView(i);
        if sessions[i] == null {
          session := Insert(i);
          return;
        }
      }
      session := null;
    }

    method GetPduSession(id: nat) returns (s: PduSession?)
      requires Valid()
      ensures s == if id == 0 || id > 15 then null else sessions[id]
      ensures Lookup(View(), id) == if s == null then None else Some(s.View())
    {
      if id == 0 || id > 15 {
        return null;
      }
      return sessions[id];
    }

    /** Clear the slot; what it held is retired. */
    method ReleasePduSession(id: nat)
      requires Valid()
      modifies sessions, this`retired
      ensures Valid() && sent == old(sent)
      ensures if id == 0 || id > 15 || old(sessions[id]) == null then
                sessions[..] == old(sessions[..]) && retired == old(retired)
              else sessions[..] == old(sessions[..])[id := null] && retired == old(retired) + [old(sessions[id])]
    {
      if id == 0 || id > 15 {
        return;
      }
      if sessions[id] != null {
        retired := retired + [sessions[id]];
        sessions[id] := null;
      }
    }

    method GetActivePduSessions() returns (active: seq<PduSession>)
      requires Valid()
      ensures var ids := ActiveIds(View().slots, SLOTS);
              |active| == |ids| && forall k :: 0 <= k < |ids| ==> active[k] == sessions[ids[k]]
    {
      active := [];
      for i := 1 to SLOTS
        invariant var ids := ActiveIds(View().slots, i);
                  |active| == |ids| && forall k :: 0 <= k < |ids| ==> active[k] == sessions[ids[k]]
      {
        if sessions[i] != null && sessions[i].state == Active {
          active := active + [sessions[i]];
        }
      }
    }

    method SendN1Sm(m: SmOut)
      modifies this`sent
      ensures sent == old(sent) + [m]
    {
      sent := sent + [m];
    }

    method TriggerInitPduSessionRequest(encodes: bool) returns (err: bool)
      requires Valid()
      modifies this, sessions
      ensures Valid() && View() == Establish(old(View()), encodes)
      ensures err <==> FirstFree(old(View()).slots, 1) == SLOTS
    {
      var session := CreatePDUSession();
      if session == null {
        return true;
      }
      Mark(session, ActivePending);
      ghost var k := session.id;
      PutTwice(old(View()), Sess(k, Inactive, []), Sess(k, ActivePending, []));
      if encodes {
        SendN1Sm(EstablishmentRequest(session.id));
      }
      return false;
    }

    method TriggerInitPduSessionReleaseRequest(session: PduSession)
      requires Valid() && session.id < SLOTS && sessions[session.id] == session
      modifies this`sent, session`state
      ensures Valid() && View() == Release(old(View()), session.id)
    {
      if session.state != Active {
        return;
      }
      session.SetState(InactivePending);
      SendN1Sm(ReleaseRequest(session.id));
    }

    method TriggerReleasePduSession(id: nat)
      requires Valid()
      modifies this`sent, Held()
      ensures Valid() && View() == Release(old(View()), id)
    {
      var s := GetPduSession(id);
      if s == null {
        return;
      }
      TriggerInitPduSessionReleaseRequest(s);
    }

    method TriggerReleaseAllPduSessions()
      requires Valid()
      modifies this`sent, Held()
      ensures Valid() && View() == ReleaseMany(old(View()), ActiveIds(old(View()).slots, SLOTS))
    {
      ghost var t, ids := View(), ActiveIds(View().slots, SLOTS);
      var active := GetActivePduSessions();
      assert ids[..0] == [];
      for i := 0 to |active|
        invariant Valid() && sessions[..] == old(sessions[..]) && retired == old(retired)
        invariant View() == ReleaseMany(t, ids[..i])
      {
        ReleaseNext(t, ids, i);
        TriggerInitPduSessionReleaseRequest(active[i]);
      }
      assert ids[..|active|] == ids;
    }

    method HandleAccept(m: SmMsg)
      requires Valid() && m.EstablishmentAccept?
      modifies Held()
      ensures Valid() && View() == OnAccept(old(View()), m)
    {
      if m.pti != 1 {
        return;
      }
      if m.sessionType != 1 {
        return;
      }
      var s := GetPduSession(m.id);
      if s == null {
        return;
      }
      if m.address.Some? {
        s.SetIp(m.address.value);
      }
      s.SetState(Active);
    }

    method HandleReject(id: nat)
      requires Valid()
      modifies this`retired, sessions, Held()
      ensures Valid() && View() == OnReject(old(View()), id)
    {
      var s := GetPduSession(id);
      if s == null {
        return;
      }
      s.SetState(Inactive);
      ReleasePduSession(id);
    }

    method HandleReleaseCommand(id: nat)
      requires Valid()
      modifies this, sessions, Held()
      ensures Valid() && View() == OnReleaseCommand(old(View()), id)
    {
      var s := GetPduSession(id);
      if s == null {
        return;
      }
      TriggerInitPduSessionReleaseComplete(s);
    }

    method TriggerInitPduSessionReleaseComplete(session: PduSession)
      requires Valid() && 1 <= session.id < SLOTS && sessions[session.id] == session
      modifies this, sessions, session`state
      ensures Valid() && View() == OnReleaseCommand(old(View()), session.id)
    {
      if session.state == Inactive {
        return;
      }
      SendN1Sm(ReleaseComplete(session.id));
      session.SetState(Inactive);
      ReleasePduSession(session.id);
    }

    method HandleNas_n1sm(m: SmMsg)
      requires Valid()
      modifies this, sessions, Held()
      ensures Valid() && View() == OnSm(old(View()), m)
    {
      match m {
        case EstablishmentAccept(_, _, _, _) =>
          HandleAccept(m);
        case EstablishmentReject(id, _) =>
          HandleReject(id);
        case ReleaseCommand(id) =>
          HandleReleaseCommand(id);
        case SmStatus(_) =>
        case NilContent =>
        case UnknownSm =>
      }
    }
  }
}
