/** What holds of the session table over every run of whole handlers and triggers. */
module SessionRuns {
  import opened Bytes
  import opened Sessions

  datatype Event = TriggerEstablish(encodes: bool) | TriggerRelease(id: nat) | TriggerReleaseAll | Receive(m: SmMsg)

  function Apply(t: Table, e: Event): (r: Table)
    requires WellFormed(t)
    ensures WellFormed(r)
  {
    match e
    case TriggerEstablish(encodes) => Establish(t, encodes)
    case TriggerRelease(id) => Release(t, id)
    case TriggerReleaseAll => ReleaseMany(t, ActiveIds(t.slots, SLOTS))
    case Receive(m) => OnSm(t, m)
  }

  function Run(t: Table, h: seq<Event>): (r: Table)
    requires WellFormed(t)
    ensures WellFormed(r)
  {
    if h == [] then t else Apply(Run(t, h[..|h| - 1]), h[|h| - 1])
  }

  const EMPTY: Table := Table(seq(SLOTS, i => None), [], [])

  /** Between handlers a session in the table is pending or active, and a removed one is inactive. */
  ghost predicate Settled(t: Table) {
    WellFormed(t) &&
    (forall i :: 0 <= i < SLOTS && t.slots[i].Some? ==>
                 t.slots[i].value.state in {ActivePending, Active, InactivePending}) &&
    (forall k :: 0 <= k < |t.retired| ==> t.retired[k].state == Inactive)
  }

  lemma ReleaseSettled(t: Table, id: nat)
    requires Settled(t)
    ensures Settled(Release(t, id))
  {
  }

  lemma {:induction false} ReleaseManySettled(t: Table, ids: seq<nat>)
    requires Settled(t)
    ensures Settled(ReleaseMany(t, ids))
  {
    if ids != [] {
      ReleaseManySettled(t, ids[..|ids| - 1]);
      ReleaseSettled(ReleaseMany(t, ids[..|ids| - 1]), ids[|ids| - 1]);
    }
  }

  lemma EventSettled(t: Table, e: Event)
    requires Settled(t)
    ensures Settled(Apply(t, e))
  {
    if e.TriggerReleaseAll? {
      ReleaseManySettled(t, ActiveIds(t.slots, SLOTS));
    }
  }

  /** Every run from the empty table keeps the session lifecycle. */
  lemma {:induction false} Lifecycle(h: seq<Event>)
    ensures Settled(Run(EMPTY, h))
  {
    if h != [] {
      Lifecycle(h[..|h| - 1]);
      EventSettled(Run(EMPTY, h[..|h| - 1]), h[|h| - 1]);
    }
  }

  /** Creation takes an id exactly when it is free and all lower ones are used, and fails exactly when all 15 are. */
  lemma {:induction false} LowestFreeExactly(slots: seq<Option<Sess>>, k: nat)
    requires |slots| == SLOTS && 1 <= k <= SLOTS
    ensures FirstFree(slots, 1) == k <==>
              (forall j :: 1 <= j < k ==> slots[j].Some?) && (k < SLOTS ==> slots[k].None?)
  {
    var f := FirstFree(slots, 1);
    assert f < k ==> slots[f].None?;
  }

  /** A creation changes one slot, the lowest free one, and its request goes out unless it does not encode. */
  lemma CreationExactly(t: Table, encodes: bool, k: nat)
    requires WellFormed(t) && 1 <= k < SLOTS && t.slots[k].None? && forall j :: 1 <= j < k ==> t.slots[j].Some?
    ensures var r := Apply(t, TriggerEstablish(encodes));
            r.slots[k] == Some(Sess(k, ActivePending, [])) && r.retired == t.retired &&
            (forall i :: 0 <= i < SLOTS && i != k ==> r.slots[i] == t.slots[i]) &&
            r.sent == t.sent + if encodes then [EstablishmentRequest(k)] else []
  {
    LowestFreeExactly(t.slots, k);
  }

  /** In a settled table a reject or command for a known id frees that slot only; only a command is answered. */
  lemma RemovalExactly(t: Table, m: SmMsg)
    requires Settled(t) && Removes(t, Receive(m))
    ensures var r := Apply(t, Receive(m));
            r.slots[m.id] == None && (forall i :: 0 <= i < SLOTS && i != m.id ==> r.slots[i] == t.slots[i]) &&
            r.retired == t.retired + [t.slots[m.id].value.(state := Inactive)] &&
            r.sent == t.sent + if m.ReleaseCommand? then [ReleaseComplete(m.id)] else []
  {
    assert t.slots[m.id].value.state != Inactive;
  }

  function Occupied(slots: seq<Option<Sess>>): nat {
    if slots == [] then 0 else Occupied(slots[..|slots| - 1]) + if slots[|slots| - 1].Some? then 1 else 0
  }

  lemma {:induction false} OccupiedUpdate(slots: seq<Option<Sess>>, i: nat, v: Option<Sess>)
    requires i < |slots|
    ensures Occupied(slots[i := v]) + (if slots[i].Some? then 1 else 0) == Occupied(slots) + (if v.Some? then 1 else 0)
  {
    var n := |slots| - 1;
    if i < n {
      OccupiedUpdate(slots[..n], i, v);
      assert slots[i := v][..n] == slots[..n][i := v];
    } else {
      assert slots[i := v][..n] == slots[..n];
    }
  }

  lemma {:induction false} OccupiedNone(n: nat)
    ensures Occupied(seq(n, i => None)) == 0
  {
    if n > 0 {
      var s: seq<Option<Sess>> := seq(n, i => None);
      OccupiedNone(n - 1);
      assert s[..n - 1] == seq(n - 1, i => None);
    }
  }

  /** A trigger that finds a free id. */
  predicate Creates(t: Table, e: Event)
    requires WellFormed(t)
  {
    e.TriggerEstablish? && FirstFree(t.slots, 1) < SLOTS
  }

  /** A reject or a release command for a session the UE knows. */
  predicate Removes(t: Table, e: Event)
    requires WellFormed(t)
  {
    e.Receive? && (e.m.EstablishmentReject? || e.m.ReleaseCommand?) && Lookup(t, e.m.id).Some?
  }

  function CountCreates(t: Table, h: seq<Event>): nat
    requires WellFormed(t)
  {
    if h == [] then 0
    else CountCreates(t, h[..|h| - 1]) + if Creates(Run(t, h[..|h| - 1]), h[|h| - 1]) then 1 else 0
  }

  function CountRemoves(t: Table, h: seq<Event>): nat
    requires WellFormed(t)
  {
    if h == [] then 0
    else CountRemoves(t, h[..|h| - 1]) + if Removes(Run(t, h[..|h| - 1]), h[|h| - 1]) then 1 else 0
  }

  lemma ReleaseOccupied(t: Table, id: nat)
    requires WellFormed(t)
    ensures Occupied(Release(t, id).slots) == Occupied(t.slots) && Release(t, id).retired == t.retired
  {
    if Lookup(t, id).Some? {
      OccupiedUpdate(t.slots, id, Some(Lookup(t, id).value.(state := InactivePending)));
    }
  }

  lemma {:induction false} ReleaseManyOccupied(t: Table, ids: seq<nat>)
    requires WellFormed(t)
    ensures Occupied(ReleaseMany(t, ids).slots) == Occupied(t.slots) && ReleaseMany(t, ids).retired == t.retired
  {
    if ids != [] {
      ReleaseManyOccupied(t, ids[..|ids| - 1]);
      ReleaseOccupied(ReleaseMany(t, ids[..|ids| - 1]), ids[|ids| - 1]);
    }
  }

  lemma EventOccupied(t: Table, e: Event)
    requires Settled(t)
    ensures var r := Apply(t, e);
            Occupied(r.slots) + (if Removes(t, e) then 1 else 0) ==
              Occupied(t.slots) + (if Creates(t, e) then 1 else 0) &&
            |r.retired| == |t.retired| + (if Removes(t, e) then 1 else 0)
  {
    match e
    case TriggerEstablish(_) =>
      var k := FirstFree(t.slots, 1);
      if k < SLOTS {
        OccupiedUpdate(t.slots, k, Some(Sess(k, ActivePending, [])));
      }
    case TriggerRelease(id) =>
      ReleaseOccupied(t, id);
    case TriggerReleaseAll =>
      ReleaseManyOccupied(t, ActiveIds(t.slots, SLOTS));
    case Receive(m) =>
      if m.EstablishmentAccept? && Lookup(t, m.id).Some? {
        var s := Lookup(t, m.id).value;
        OccupiedUpdate(t.slots, m.id, Some(s.(state := Active, ip := NewIp(s.ip, m.address))));
      } else if Removes(t, e) {
        OccupiedUpdate(t.slots, m.id, None);
      }
  }

  /** Occupied slots are successful creations less handled rejects and release commands. */
  lemma {:induction false} Conservation(h: seq<Event>)
    ensures var t := Run(EMPTY, h);
            Occupied(t.slots) + CountRemoves(EMPTY, h) == CountCreates(EMPTY, h) &&
            |t.retired| == CountRemoves(EMPTY, h)
  {
    if h == [] {
      OccupiedNone(SLOTS);
    } else {
      var before := h[..|h| - 1];
      Conservation(before);
      Lifecycle(before);
      EventOccupied(Run(EMPTY, before), h[|h| - 1]);
    }
  }

  // Release of all active sessions.

  function Requests(ids: seq<nat>): seq<SmOut> {
    seq(|ids|, k requires 0 <= k < |ids| => ReleaseRequest(ids[k]))
  }

  ghost predicate IsActive(slots: seq<Option<Sess>>, i: nat) {
    1 <= i < |slots| && slots[i].Some? && slots[i].value.state == Active
  }

  ghost predicate Ascending(ids: seq<nat>) {
    forall j, k :: 0 <= j < k < |ids| ==> ids[j] < ids[k]
  }

  lemma {:induction false} ActiveIdsAscend(slots: seq<Option<Sess>>, n: nat)
    requires |slots| == SLOTS && n <= SLOTS
    ensures Ascending(ActiveIds(slots, n))
  {
    if n > 1 {
      var before := ActiveIds(slots, n - 1);
      ActiveIdsAscend(slots, n - 1);
      assert Ascending(before + [n - 1]);
    }
  }

  lemma {:induction false} ActiveIdsContain(slots: seq<Option<Sess>>, n: nat, i: nat)
    requires |slots| == SLOTS && n <= SLOTS
    ensures i in ActiveIds(slots, n) <==> i < n && IsActive(slots, i)
  {
    if n > 1 {
      ActiveIdsContain(slots, n - 1, i);
    }
  }

  lemma {:induction false} ActiveIdsExactly(slots: seq<Option<Sess>>, n: nat)
    requires |slots| == SLOTS && n <= SLOTS
    ensures forall i: nat :: i in ActiveIds(slots, n) <==> i < n && IsActive(slots, i)
  {
    forall i: nat ensures i in ActiveIds(slots, n) <==> i < n && IsActive(slots, i) {
      ActiveIdsContain(slots, n, i);
    }
  }

  function Pending(s: Option<Sess>): Option<Sess> {
    if s.Some? && s.value.state == Active then Some(s.value.(state := InactivePending)) else s
  }

  lemma ReleaseActive(t: Table, id: nat)
    requires WellFormed(t) && id < SLOTS && IsActive(t.slots, id)
    ensures var r := Release(t, id);
            r.slots == t.slots[id := Pending(t.slots[id])] && r.sent == t.sent + [ReleaseRequest(id)] &&
            r.retired == t.retired
  {
  }

  lemma {:induction false} ReleaseManyExactly(t: Table, ids: seq<nat>)
    requires WellFormed(t)
    requires forall k :: 0 <= k < |ids| ==> ids[k] < SLOTS && IsActive(t.slots, ids[k])
    requires Ascending(ids)
    ensures var r := ReleaseMany(t, ids);
            r.sent == t.sent + Requests(ids) && r.retired == t.retired &&
            forall i :: 0 <= i < SLOTS ==> r.slots[i] == if i in ids then Pending(t.slots[i]) else t.slots[i]
  {
    if ids == [] {
      assert t.sent + Requests(ids) == t.sent;
    } else {
      var n := |ids| - 1;
      LastMember(ids);
      ReleaseManyExactly(t, ids[..n]);
      var r := ReleaseMany(t, ids[..n]);
      assert r.slots[ids[n]] == t.slots[ids[n]];
      ReleaseActive(r, ids[n]);
    }
  }

  lemma LastMember(ids: seq<nat>)
    requires ids != [] && Ascending(ids)
    ensures var n := |ids| - 1;
            ids[n] !in ids[..n] && Requests(ids) == Requests(ids[..n]) + [ReleaseRequest(ids[n])] &&
            forall i :: i in ids <==> i in ids[..n] || i == ids[n]
  {
  }

  lemma {:induction false} NoneActive(slots: seq<Option<Sess>>, n: nat)
    requires |slots| == SLOTS && n <= SLOTS && forall i :: 0 <= i < SLOTS ==> !IsActive(slots, i)
    ensures ActiveIds(slots, n) == []
  {
    if n > 1 {
      NoneActive(slots, n - 1);
      assert !IsActive(slots, n - 1);
    }
  }

  lemma ActiveIdsAreActive(t: Table)
    requires WellFormed(t)
    ensures var ids := ActiveIds(t.slots, SLOTS);
            Ascending(ids) && (forall k :: 0 <= k < |ids| ==> ids[k] < SLOTS && IsActive(t.slots, ids[k])) &&
            (forall i :: 0 <= i < SLOTS && i !in ids ==> Pending(t.slots[i]) == t.slots[i])
  {
    var ids := ActiveIds(t.slots, SLOTS);
    ActiveIdsAscend(t.slots, SLOTS);
    ActiveIdsExactly(t.slots, SLOTS);
    forall k | 0 <= k < |ids| ensures IsActive(t.slots, ids[k]) {
      assert ids[k] in ids;
    }
  }

  /**
    Release-all sends one request per active session in ascending id order, makes exactly those
    sessions pending and changes nothing else.
   */
  lemma ReleaseAllExactly(t: Table)
    requires WellFormed(t)
    ensures var ids, r := ActiveIds(t.slots, SLOTS), Apply(t, TriggerReleaseAll);
            Ascending(ids) && r.sent == t.sent + Requests(ids) && r.retired == t.retired &&
            (forall i :: 0 <= i < SLOTS ==> r.slots[i] == Pending(t.slots[i]))
  {
    var ids := ActiveIds(t.slots, SLOTS);
    ActiveIdsAreActive(t);
    ReleaseManyExactly(t, ids);
    assert Apply(t, TriggerReleaseAll) == ReleaseMany(t, ids);
    forall i | 0 <= i < SLOTS ensures ReleaseMany(t, ids).slots[i] == Pending(t.slots[i]) {
      assert i !in ids ==> Pending(t.slots[i]) == t.slots[i];
    }
  }

  /** No session is left active, and a second release-all sends nothing and changes nothing. */
  lemma ReleaseAllLeavesNone(t: Table)
    requires WellFormed(t)
    ensures var r := Apply(t, TriggerReleaseAll);
            (forall i :: 0 <= i < SLOTS ==> !IsActive(r.slots, i)) && Apply(r, TriggerReleaseAll) == r
  {
    ReleaseAllExactly(t);
    NoneActive(Apply(t, TriggerReleaseAll).slots, SLOTS);
  }

  /**
    An accept does not look at the session's state: one that arrives after a release request makes
    the session active again, and a second request goes out for it.
   */
  lemma AcceptRevives(t: Table, id: nat, ip: seq<byte>)
    requires WellFormed(t) && 1 <= id <= 15
    requires t.slots[id] == Some(Sess(id, Active, ip))
    ensures var accept := EstablishmentAccept(1, 1, id, None);
            var r := Apply(Apply(Apply(t, TriggerRelease(id)), Receive(accept)), TriggerRelease(id));
            Apply(Apply(t, TriggerRelease(id)), Receive(accept)).slots == t.slots &&
            r.sent == t.sent + [ReleaseRequest(id), ReleaseRequest(id)]
  {
    var s1 := Apply(t, TriggerRelease(id));
    assert s1.slots[id] == Some(Sess(id, InactivePending, ip));
    var s2 := Apply(s1, Receive(EstablishmentAccept(1, 1, id, None)));
    assert s2.slots == s1.slots[id := Some(Sess(id, Active, ip))];
    assert s2.slots == t.slots;
    assert t.sent + [ReleaseRequest(id)] + [ReleaseRequest(id)] == t.sent + [ReleaseRequest(id), ReleaseRequest(id)];
  }

  // Sessions that come back, and requests per accept.

  /** An accept that a handler acts on: the PTI and session type it expects, and this id. */
  predicate Accepts(e: Event, id: nat) {
    e.Receive? && e.m.EstablishmentAccept? && e.m.pti == 1 && e.m.sessionType == 1 && e.m.id == id
  }

  predicate EndsSession(e: Event, id: nat) {
    e.Receive? && (e.m.EstablishmentReject? || e.m.ReleaseCommand?) && e.m.id == id
  }

  ghost predicate IsPending(t: Table, id: nat) {
    1 <= id < |t.slots| && t.slots[id].Some? && t.slots[id].value.state == InactivePending
  }

  ghost predicate IsKnown(t: Table, id: nat) {
    1 <= id < |t.slots| && t.slots[id].Some?
  }

  /** What one event makes of a session that is known and is not ended by it. */
  lemma StepKnown(t: Table, e: Event, id: nat)
    requires Settled(t) && IsKnown(t, id) && !EndsSession(e, id)
    ensures IsKnown(Apply(t, e), id)
    ensures Accepts(e, id) ==> IsActive(Apply(t, e).slots, id)
    ensures IsPending(t, id) && !Accepts(e, id) ==> IsPending(Apply(t, e), id)
  {
    if e.TriggerReleaseAll? {
      ReleaseAllExactly(t);
    }
  }

  /** None of these events ends the session, and it has not been accepted again. */
  ghost predicate Untouched(h: seq<Event>, id: nat) {
    forall i :: 0 <= i < |h| ==> !EndsSession(h[i], id) && !Accepts(h[i], id)
  }

  ghost predicate NotEnded(h: seq<Event>, id: nat) {
    forall i :: 0 <= i < |h| ==> !EndsSession(h[i], id)
  }

  lemma {:induction false} StaysPending(t: Table, h: seq<Event>, id: nat)
    requires Settled(t) && IsPending(t, id) && NotEnded(h, id)
    ensures Settled(Run(t, h)) && IsKnown(Run(t, h), id)
    ensures Untouched(h, id) ==> IsPending(Run(t, h), id)
  {
    if h != [] {
      var n := |h| - 1;
      StaysPending(t, h[..n], id);
      StepKnown(Run(t, h[..n]), h[n], id);
      EventSettled(Run(t, h[..n]), h[n]);
    }
  }

  /** At some point, before anything ends the session, it is active. */
  ghost predicate ComesBack(t: Table, h: seq<Event>, id: nat)
    requires WellFormed(t)
  {
    exists k :: 0 <= k <= |h| && NotEnded(h[..k], id) && IsActive(Run(t, h[..k]).slots, id)
  }

  /** An accept that names the session arrives before anything ends it. */
  ghost predicate AcceptedInTime(h: seq<Event>, id: nat) {
    exists j :: 0 <= j < |h| && NotEnded(h[..j], id) && Accepts(h[j], id)
  }

  lemma AcceptRevivesIt(t: Table, h: seq<Event>, id: nat, j: nat)
    requires Settled(t) && IsPending(t, id) && j < |h| && NotEnded(h[..j], id) && Accepts(h[j], id)
    ensures NotEnded(h[..j + 1], id) && IsActive(Run(t, h[..j + 1]).slots, id)
  {
    StaysPending(t, h[..j], id);
    StepKnown(Run(t, h[..j]), h[j], id);
    assert h[..j + 1][..j] == h[..j];
  }

  lemma OnlyAcceptRevives(t: Table, h: seq<Event>, id: nat, k: nat) returns (j: nat)
    requires Settled(t) && IsPending(t, id) && k <= |h| && NotEnded(h[..k], id) && IsActive(Run(t, h[..k]).slots, id)
    ensures j < k && NotEnded(h[..j], id) && Accepts(h[j], id)
  {
    StaysPending(t, h[..k], id);
    j :| 0 <= j < k && Accepts(h[..k][j], id);
    assert h[..j] == h[..k][..j];
  }

  /** A session whose release was requested becomes active again exactly when an accept arrives before its end. */
  lemma {:induction false} RevivedExactly(t: Table, h: seq<Event>, id: nat)
    requires Settled(t) && IsPending(t, id)
    ensures ComesBack(t, h, id) <==> AcceptedInTime(h, id)
  {
    if AcceptedInTime(h, id) {
      var j :| 0 <= j < |h| && NotEnded(h[..j], id) && Accepts(h[j], id);
      AcceptRevivesIt(t, h, id, j);
    }
    if ComesBack(t, h, id) {
      var k :| 0 <= k <= |h| && NotEnded(h[..k], id) && IsActive(Run(t, h[..k]).slots, id);
      var j := OnlyAcceptRevives(t, h, id, k);
    }
  }

  function RequestsFor(sent: seq<SmOut>, id: nat): nat {
    if sent == [] then 0
    else RequestsFor(sent[..|sent| - 1], id) + if sent[|sent| - 1] == ReleaseRequest(id) then 1 else 0
  }

  lemma RequestsForAppend(sent: seq<SmOut>, m: SmOut, id: nat)
    ensures RequestsFor(sent + [m], id) == RequestsFor(sent, id) + if m == ReleaseRequest(id) then 1 else 0
  {
    assert (sent + [m])[..|sent|] == sent;
  }

  /** Requests sent for an id, and one more while its session is active. */
  ghost function Issued(t: Table, id: nat): nat {
    RequestsFor(t.sent, id) + if IsActive(t.slots, id) then 1 else 0
  }

  lemma ReleaseIssued(t: Table, r: nat, id: nat)
    requires WellFormed(t)
    ensures Issued(Release(t, r), id) == Issued(t, id)
  {
    if Release(t, r) != t {
      RequestsForAppend(t.sent, ReleaseRequest(r), id);
    }
  }

  lemma {:induction false} ReleaseManyIssued(t: Table, ids: seq<nat>, id: nat)
    requires WellFormed(t)
    ensures Issued(ReleaseMany(t, ids), id) == Issued(t, id)
  {
    if ids != [] {
      ReleaseManyIssued(t, ids[..|ids| - 1], id);
      ReleaseIssued(ReleaseMany(t, ids[..|ids| - 1]), ids[|ids| - 1], id);
    }
  }

  /** The accept finds a session. */
  predicate Activates(t: Table, e: Event, id: nat)
    requires WellFormed(t)
  {
    Accepts(e, id) && Lookup(t, id).Some?
  }

  /** The event repeats an activation, or ends one before its release is requested. */
  ghost predicate Wastes(t: Table, e: Event, id: nat)
    requires WellFormed(t)
  {
    IsActive(t.slots, id) && (Activates(t, e, id) || EndsSession(e, id))
  }

  function Activations(t: Table, h: seq<Event>, id: nat): nat
    requires WellFormed(t)
  {
    if h == [] then 0
    else
      var n := |h| - 1;
      Activations(t, h[..n], id) + if Activates(Run(t, h[..n]), h[n], id) then 1 else 0
  }

  ghost function Wasted(t: Table, h: seq<Event>, id: nat): nat
    requires WellFormed(t)
  {
    if h == [] then 0
    else
      var n := |h| - 1;
      Wasted(t, h[..n], id) + if Wastes(Run(t, h[..n]), h[n], id) then 1 else 0
  }

  lemma ReceiveSent(t: Table, m: SmMsg, id: nat)
    requires WellFormed(t)
    ensures RequestsFor(OnSm(t, m).sent, id) == RequestsFor(t.sent, id)
  {
    if OnSm(t, m).sent != t.sent {
      RequestsForAppend(t.sent, ReleaseComplete(m.id), id);
    }
  }

  lemma ReceiveActive(t: Table, m: SmMsg, id: nat)
    requires Settled(t)
    ensures IsActive(OnSm(t, m).slots, id) <==>
              Activates(t, Receive(m), id) || (IsActive(t.slots, id) && !EndsSession(Receive(m), id))
  {
  }

  lemma EstablishIssued(t: Table, encodes: bool, id: nat)
    requires WellFormed(t)
    ensures Issued(Establish(t, encodes), id) == Issued(t, id)
  {
    RequestsForAppend(t.sent, EstablishmentRequest(FirstFree(t.slots, 1)), id);
  }

  /** A trigger issues nothing new: a request takes the place of the open activation. */
  lemma TriggerIssued(t: Table, e: Event, id: nat)
    requires WellFormed(t) && !e.Receive?
    ensures Issued(Apply(t, e), id) == Issued(t, id)
  {
    match e
    case TriggerEstablish(encodes) => EstablishIssued(t, encodes, id);
    case TriggerRelease(r) => ReleaseIssued(t, r, id);
    case TriggerReleaseAll => ReleaseManyIssued(t, ActiveIds(t.slots, SLOTS), id);
  }

  lemma StepIssued(t: Table, e: Event, id: nat)
    requires Settled(t)
    ensures Issued(Apply(t, e), id) + (if Wastes(t, e, id) then 1 else 0) ==
              Issued(t, id) + if Activates(t, e, id) then 1 else 0
  {
    if e.Receive? {
      ReceiveSent(t, e.m, id);
      ReceiveActive(t, e.m, id);
      assert Apply(t, e) == OnSm(t, e.m);
    } else {
      TriggerIssued(t, e, id);
    }
  }

  /**
    Over every run, the release requests for an id number at most its effective accepts: each accept is
    used up by one request, is wasted, or is still open.
   */
  lemma {:induction false} RequestsPerAccept(h: seq<Event>, id: nat)
    ensures var t := Run(EMPTY, h);
            RequestsFor(t.sent, id) + (if IsActive(t.slots, id) then 1 else 0) + Wasted(EMPTY, h, id) ==
              Activations(EMPTY, h, id)
  {
    if h != [] {
      var n := |h| - 1;
      RequestsPerAccept(h[..n], id);
      Lifecycle(h[..n]);
      StepIssued(Run(EMPTY, h[..n]), h[n], id);
    }
  }

  // Single triggers and messages, for any table.

  /** A release: one request for an active session, which becomes pending; anything else changes nothing. */
  lemma ReleaseExactly(t: Table, id: nat)
    requires WellFormed(t)
    ensures var r := Apply(t, TriggerRelease(id));
            if IsActive(t.slots, id) then
              r == t.(slots := t.slots[id := Some(t.slots[id].value.(state := InactivePending))],
                      sent := t.sent + [ReleaseRequest(id)])
            else r == t
  {
  }

  /** With all ids used, an establishment changes nothing. */
  lemma FullTable(t: Table, encodes: bool)
    requires WellFormed(t) && forall i :: 1 <= i <= 15 ==> t.slots[i].Some?
    ensures Apply(t, TriggerEstablish(encodes)) == t
  {
  }

  /**
    An accept acts on a known session with PTI 1 and session type 1, in any state; it keeps IPv4 and IPv6
    addresses only.
   */
  lemma AcceptExactly(t: Table, m: SmMsg)
    requires WellFormed(t) && m.EstablishmentAccept?
    ensures var r := Apply(t, Receive(m));
            if m.pti == 1 && m.sessionType == 1 && 1 <= m.id <= 15 && t.slots[m.id].Some? then
              var s := t.slots[m.id].value;
              var kept := m.address.Some? && (|m.address.value| == 4 || |m.address.value| == 16);
              r == t.(slots := t.slots[m.id := Some(Sess(m.id, Active, if kept then m.address.value else s.ip))])
            else r == t
  {
  }

  /** A reject removes a known session in any state; a command removes and answers it unless it is inactive. */
  lemma EndExactly(t: Table, m: SmMsg)
    requires WellFormed(t) && (m.EstablishmentReject? || m.ReleaseCommand?)
    ensures var r := Apply(t, Receive(m));
            if 1 <= m.id <= 15 && t.slots[m.id].Some? &&
               (m.EstablishmentReject? || t.slots[m.id].value.state != Inactive)
            then
              r.slots == t.slots[m.id := None] &&
              r.retired == t.retired + [t.slots[m.id].value.(state := Inactive)] &&
              r.sent == t.sent + if m.ReleaseCommand? then [ReleaseComplete(m.id)] else []
            else r == t
  {
  }

  lemma OtherMessages(t: Table, m: SmMsg)
    requires WellFormed(t) && (m.SmStatus? || m.NilContent? || m.UnknownSm?)
    ensures Apply(t, Receive(m)) == t
  {
  }
}
