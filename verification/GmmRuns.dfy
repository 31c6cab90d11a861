/** What holds of a UE over every history of 5GMM messages. */
module GmmRuns {
  import opened Bytes
  import opened SqnCounter
  import opened Auth
  import opened SecurityContexts
  import opened Gmm
  import Aka
  import Kdf
  import Ts = Ts35206

  /** A message from the network, or a local registration attempt with its encoded request. */
  datatype Input = Received(m: NasMsg) | Register(pdu: Option<seq<byte>>)

  function Respond(u: Usim, s: Ue, e: Input): Reply {
    match e
    case Received(m) => OnMessage(u, s, m)
    case Register(pdu) =>
      Reply(if s.halted || pdu.None? then s else s.(nasPdu := pdu.value, reg := Registering), [])
  }

  function UeAfter(u: Usim, s: Ue, h: seq<Input>): Ue {
    if h == [] then s else Respond(u, UeAfter(u, s, h[..|h| - 1]), h[|h| - 1]).ue
  }

  /** What the UE sends on each input of a history. */
  function Outs(u: Usim, s: Ue, h: seq<Input>): (outs: seq<seq<NasOut>>)
    ensures |outs| == |h|
  {
    if h == [] then []
    else
      var n := |h| - 1;
      Outs(u, s, h[..n]) + [Respond(u, UeAfter(u, s, h[..n]), h[n]).out]
  }

  predicate IsRequest(e: Input) {
    e.Received? && e.m.AuthenticationRequest?
  }

  predicate IsReject(e: Input) {
    e.Received? && (e.m.RegistrationReject? || e.m.AuthenticationReject?)
  }

  /** A request complete enough, and with an AUTN long enough, to be checked. */
  predicate IsCheckable(e: Input) {
    IsRequest(e) && Complete(e.m) && |e.m.autn.value| >= 8
  }

  predicate Answers(out: seq<NasOut>) {
    |out| == 1 && out[0].AuthResponse?
  }

  predicate Completes(out: seq<NasOut>) {
    |out| == 1 && out[0].SecurityModeComplete?
  }

  /** What an input meant for authentication: the ngKSI, SQN and KAMF of a request that the UE answered. */
  datatype Mark = Accept(ngKsi: Ksi, sqn: nat, kamf: seq<byte>) | Reject | Other

  function AcceptMark(u: Usim, s: Ue, m: NasMsg): Mark
    requires IsCheckable(Received(m))
  {
    var challenge := StoreRequest(s.auth, m.ngKsi, m.rand.value).challenge;
    Accept(m.ngKsi, BeNat(SqnIn(u, challenge, m.autn.value)), KamfChain(u, challenge, m.autn.value[..6], m.abba))
  }

  function MarkOf(u: Usim, s: Ue, e: Input): Mark {
    if IsCheckable(e) && Answers(Respond(u, s, e).out) then AcceptMark(u, s, e.m)
    else if IsReject(e) && !s.halted then Reject
    else Other
  }

  function Marks(u: Usim, s: Ue, h: seq<Input>): (marks: seq<Mark>)
    ensures |marks| == |h|
  {
    if h == [] then [] else Marks(u, s, h[..|h| - 1]) + [MarkOf(u, UeAfter(u, s, h[..|h| - 1]), h[|h| - 1])]
  }

  /** The mark at i is that of input i in the state its predecessors left. */
  lemma {:induction false} MarkAt(u: Usim, s: Ue, h: seq<Input>, i: nat)
    requires i < |h|
    ensures Marks(u, s, h)[i] == MarkOf(u, UeAfter(u, s, h[..i]), h[i])
  {
    var n := |h| - 1;
    if i < n {
      MarkAt(u, s, h[..n], i);
      assert h[..n][..i] == h[..i];
    }
  }

  /** Only a checkable request is ever answered, so Accept marks exactly the answered inputs. */
  lemma AcceptExactly(u: Usim, s: Ue, e: Input)
    ensures MarkOf(u, s, e).Accept? <==> Answers(Respond(u, s, e).out)
  {
  }

  ghost predicate SameKeys(a: Option<SecState>, b: Option<SecState>) {
    a.Some? == b.Some? && (a.Some? ==> a.value.kamf == b.value.kamf && a.value.ngKsi == b.value.ngKsi)
  }

  /** What an input with this mark changes, from s to t. */
  ghost predicate Changed(s: Ue, t: Ue, e: Input, mark: Mark) {
    match mark
    case Accept(ksi, sqn, kamf) =>
      t.auth.sqn == sqn >= s.auth.sqn && t.auth.kamf == kamf && t.auth.ngKsi == ksi && t.sec == Some(NewSec(ksi, kamf))
    case Reject =>
      t.auth.sqn == s.auth.sqn && t.auth.kamf == s.auth.kamf && t.sec == None && t.auth.ngKsi.id == 7
    case Other =>
      t.auth.sqn == s.auth.sqn && t.auth.kamf == s.auth.kamf && SameKeys(t.sec, s.sec) &&
      t.auth.ngKsi == if IsRequest(e) && Complete(e.m) && !s.halted then e.m.ngKsi else s.auth.ngKsi
  }

  lemma AnswerStep(u: Usim, s: Ue, m: NasMsg)
    requires !s.halted && IsCheckable(Received(m))
    ensures Changed(s, OnMessage(u, s, m).ue, Received(m), MarkOf(u, s, Received(m)))
  {
    CheckedRequest(u, s, m);
  }

  /** Every input changes SQN, KAMF, ngKSI and context as its mark says. */
  lemma StepByMark(u: Usim, s: Ue, e: Input)
    ensures Changed(s, Respond(u, s, e).ue, e, MarkOf(u, s, e))
  {
    if IsCheckable(e) && !s.halted {
      AnswerStep(u, s, e.m);
    }
  }

  lemma CompleteStep(u: Usim, s: Ue, e: Input)
    requires Completes(Respond(u, s, e).out)
    ensures e.Received? && e.m.SecurityModeCommand? && s.sec.Some?
    ensures e.m.ngKsi == s.auth.ngKsi && e.m.ngKsi.id != 7
    ensures Respond(u, s, e).out[0].kamf == s.sec.value.kamf
  {
  }

  /** The authentication at i was accepted, and no reject has come after it. */
  ghost predicate Stands(marks: seq<Mark>, i: nat) {
    i < |marks| && marks[i].Accept? && forall j :: i < j < |marks| ==> marks[j] != Reject
  }

  /** The authentication at i is the most recent, and stands. */
  ghost predicate Latest(marks: seq<Mark>, i: nat) {
    i < |marks| && marks[i].Accept? && forall j :: i < j < |marks| ==> marks[j] == Other
  }

  /** Some authentication has succeeded since the last reject. */
  ghost predicate HasStanding(marks: seq<Mark>) {
    exists i: nat :: Stands(marks, i)
  }

  lemma {:induction false} SomeLatest(marks: seq<Mark>, i: nat) returns (k: nat)
    requires Stands(marks, i)
    ensures Latest(marks, k)
    decreases |marks| - i
  {
    if exists j :: i < j < |marks| && marks[j].Accept? {
      var j :| i < j < |marks| && marks[j].Accept?;
      k := SomeLatest(marks, j);
    } else {
      k := i;
    }
  }

  /** The context of a live or halted UE, read off the marks of its history. */
  ghost predicate ContextFits(t: Ue, marks: seq<Mark>) {
    && (t.sec.Some? ==> exists i: nat :: Latest(marks, i))
    && (forall i: nat :: Latest(marks, i) ==>
          t.sec.Some? && t.sec.value.kamf == marks[i].kamf == t.auth.kamf && t.sec.value.ngKsi == marks[i].ngKsi)
  }

  lemma {:induction false} ContextOverHistory(u: Usim, s: Ue, h: seq<Input>)
    requires s.sec.None?
    ensures ContextFits(UeAfter(u, s, h), Marks(u, s, h))
  {
    if h != [] {
      var n := |h| - 1;
      var t, before := UeAfter(u, s, h[..n]), Marks(u, s, h[..n]);
      ContextOverHistory(u, s, h[..n]);
      StepByMark(u, t, h[n]);
      ContextStep(t, Respond(u, t, h[n]).ue, before, MarkOf(u, t, h[n]));
    }
  }

  lemma ContextStep(t: Ue, t': Ue, before: seq<Mark>, m: Mark)
    requires ContextFits(t, before)
    requires match m
             case Accept(ksi, sqn, kamf) => t'.auth.kamf == kamf && t'.sec == Some(NewSec(ksi, kamf))
             case Reject => t'.sec == None
             case Other => t'.auth.kamf == t.auth.kamf && SameKeys(t'.sec, t.sec)
    ensures ContextFits(t', before + [m])
  {
    var n := |before|;
    var marks := before + [m];
    if m.Accept? {
      assert Latest(marks, n);
    }
    forall i: nat | i < n ensures Latest(marks, i) <==> Latest(before, i) && m == Other {
      assert marks[n] == m;
      if Latest(before, i) && m == Other {
        forall j | i < j < |marks| ensures marks[j] == Other {
          assert j < n ==> before[j] == Other;
        }
      }
      if Latest(marks, i) {
        forall j | i < j < n ensures before[j] == Other {
          assert marks[j] == Other;
        }
      }
    }
    if m == Other && t'.sec.Some? {
      var i: nat :| Latest(before, i);
      assert Latest(marks, i);
    }
  }

  lemma FitsExactly(t: Ue, marks: seq<Mark>)
    requires ContextFits(t, marks)
    ensures t.sec.Some? <==> HasStanding(marks)
  {
    if t.sec.Some? {
      var i: nat :| Latest(marks, i);
      assert Stands(marks, i);
    }
    if i: nat :| Stands(marks, i) {
      var k := SomeLatest(marks, i);
    }
  }

  /** A security context exists exactly when some authentication has succeeded since the last reject. */
  lemma {:induction false} ContextExactly(u: Usim, s: Ue, h: seq<Input>)
    requires s.sec.None?
    ensures UeAfter(u, s, h).sec.Some? <==> HasStanding(Marks(u, s, h))
  {
    ContextOverHistory(u, s, h);
    FitsExactly(UeAfter(u, s, h), Marks(u, s, h));
  }

  /**
    The context holds the ngKSI of the most recent success, and the KAMF that the key chain of
    TS 33.501 gives for that request's own RAND, AUTN and ABBA.
   */
  lemma {:induction false} ContextIsLatest(u: Usim, s: Ue, h: seq<Input>, i: nat)
    requires s.sec.None? && Latest(Marks(u, s, h), i)
    ensures IsCheckable(h[i])
    ensures var m, t := h[i].m, UeAfter(u, s, h);
            t.sec.Some? && t.sec.value.ngKsi == m.ngKsi && t.auth.kamf == t.sec.value.kamf &&
            (|m.rand.value| == 16 ==>
               t.sec.value.kamf == KamfChain(u, m.rand.value, m.autn.value[..6], m.abba))
  {
    ContextOverHistory(u, s, h);
    MarkAt(u, s, h, i);
  }

  /** No Authentication Request arrives from position i up to k. */
  ghost predicate NoRequest(h: seq<Input>, i: nat, k: nat)
    requires k <= |h|
  {
    forall j :: i <= j < k ==> !IsRequest(h[j])
  }

  lemma {:induction false} BarrierHolds(u: Usim, s: Ue, h: seq<Input>, i: nat)
    requires i < |h| && Marks(u, s, h)[i] == Reject && NoRequest(h, i, |h|)
    ensures UeAfter(u, s, h).auth.ngKsi.id == 7
  {
    var n := |h| - 1;
    if i < n {
      BarrierHolds(u, s, h[..n], i);
    }
    StepByMark(u, UeAfter(u, s, h[..n]), h[n]);
  }

  /** After a reject, no Security Mode Complete is sent before another Authentication Request arrives. */
  lemma {:induction false} NoCompleteAfterReject(u: Usim, s: Ue, h: seq<Input>, i: nat, next: Input)
    requires i < |h| && Marks(u, s, h)[i] == Reject && NoRequest(h, i, |h|)
    ensures !Completes(Respond(u, UeAfter(u, s, h), next).out)
  {
    BarrierHolds(u, s, h, i);
    if Completes(Respond(u, UeAfter(u, s, h), next).out) {
      CompleteStep(u, UeAfter(u, s, h), next);
    }
  }

  /** A Security Mode Complete is sent under the KAMF of the most recent success, which no reject has followed. */
  lemma CompleteUsesLatestKamf(u: Usim, s: Ue, h: seq<Input>, next: Input)
    requires s.sec.None? && Completes(Respond(u, UeAfter(u, s, h), next).out)
    ensures exists i: nat :: Latest(Marks(u, s, h), i) &&
                             Respond(u, UeAfter(u, s, h), next).out[0].kamf == Marks(u, s, h)[i].kamf
  {
    CompleteStep(u, UeAfter(u, s, h), next);
    ContextOverHistory(u, s, h);
    var i: nat :| Latest(Marks(u, s, h), i);
  }

  /** A command panics exactly when it names the stored ngKSI and no success stands since the last reject. */
  lemma {:induction false} CommandPanicsExactly(u: Usim, s: Ue, h: seq<Input>, m: NasMsg)
    requires s.sec.None? && m.SecurityModeCommand? && !UeAfter(u, s, h).halted
    ensures OnMessage(u, UeAfter(u, s, h), m).ue.halted <==>
              m.ngKsi.id != 7 && m.ngKsi == UeAfter(u, s, h).auth.ngKsi && !HasStanding(Marks(u, s, h))
  {
    ContextExactly(u, s, h);
  }

  /** The SQNs a run accepts, in order. */
  function AcceptedSqns(marks: seq<Mark>): seq<nat> {
    if marks == [] then []
    else
      var last := marks[|marks| - 1];
      AcceptedSqns(marks[..|marks| - 1]) + if last.Accept? then [last.sqn] else []
  }

  function AcceptedKamfs(marks: seq<Mark>): seq<seq<byte>> {
    if marks == [] then []
    else
      var last := marks[|marks| - 1];
      AcceptedKamfs(marks[..|marks| - 1]) + if last.Accept? then [last.kamf] else []
  }

  function LastOr<T>(s: seq<T>, default: T): T {
    if s == [] then default else s[|s| - 1]
  }

  ghost predicate Ascending(first: nat, sqns: seq<nat>) {
    forall i, j :: 0 <= i <= j < |sqns| ==> first <= sqns[i] <= sqns[j]
  }

  lemma AscendingAppend(first: nat, sqns: seq<nat>, q: nat)
    requires Ascending(first, sqns) && LastOr(sqns, first) <= q
    ensures Ascending(first, sqns + [q]) && LastOr(sqns + [q], first) == q
  {
    assert sqns != [] ==> first <= sqns[|sqns| - 1];
  }

  /**
    The accepted SQNs never decrease and start no lower than the initial one; the stored SQN is the
    last, and so the largest, of them, or the initial one.
   */
  lemma {:induction false} SqnOverHistory(u: Usim, s: Ue, h: seq<Input>)
    ensures Ascending(s.auth.sqn, AcceptedSqns(Marks(u, s, h)))
    ensures UeAfter(u, s, h).auth.sqn == LastOr(AcceptedSqns(Marks(u, s, h)), s.auth.sqn)
  {
    if h != [] {
      var n := |h| - 1;
      var t, before := UeAfter(u, s, h[..n]), Marks(u, s, h[..n]);
      SqnOverHistory(u, s, h[..n]);
      StepByMark(u, t, h[n]);
      var m := MarkOf(u, t, h[n]);
      AcceptedAppend(before, m);
      if m.Accept? {
        AscendingAppend(s.auth.sqn, AcceptedSqns(before), m.sqn);
      }
    }
  }

  lemma AcceptedAppend(before: seq<Mark>, m: Mark)
    ensures AcceptedSqns(before + [m]) == AcceptedSqns(before) + if m.Accept? then [m.sqn] else []
    ensures AcceptedKamfs(before + [m]) == AcceptedKamfs(before) + if m.Accept? then [m.kamf] else []
  {
    assert (before + [m])[..|before|] == before;
  }

  /** The stored KAMF is that of the last success; failures and rejects leave it. */
  lemma {:induction false} KamfOverHistory(u: Usim, s: Ue, h: seq<Input>)
    ensures UeAfter(u, s, h).auth.kamf == LastOr(AcceptedKamfs(Marks(u, s, h)), s.auth.kamf)
  {
    if h != [] {
      var n := |h| - 1;
      KamfOverHistory(u, s, h[..n]);
      StepByMark(u, UeAfter(u, s, h[..n]), h[n]);
      AcceptedAppend(Marks(u, s, h[..n]), MarkOf(u, UeAfter(u, s, h[..n]), h[n]));
    }
  }

  /** The ngKSI of the last complete request that reached the live UE, from the request at i on. */
  function LastKsi(u: Usim, s: Ue, h: seq<Input>, i: nat): Ksi
    requires i < |h| && IsRequest(h[i])
  {
    var n := |h| - 1;
    if n == i || (IsRequest(h[n]) && Complete(h[n].m) && !UeAfter(u, s, h[..n]).halted) then h[n].m.ngKsi
    else LastKsi(u, s, h[..n], i)
  }

  lemma {:induction false} StoredKsi(u: Usim, s: Ue, h: seq<Input>, i: nat)
    requires Latest(Marks(u, s, h), i) && IsRequest(h[i])
    ensures UeAfter(u, s, h).auth.ngKsi == LastKsi(u, s, h, i)
  {
    var n := |h| - 1;
    var t, marks := UeAfter(u, s, h[..n]), Marks(u, s, h);
    StepByMark(u, t, h[n]);
    assert marks[n] == MarkOf(u, t, h[n]);
    if i < n {
      assert marks[..n] == Marks(u, s, h[..n]);
      StoredKsi(u, s, h[..n], i);
    }
  }

  /**
    After a success with no reject since, the stored ngKSI names the context's keys exactly when the
    last complete request, successful or not, carried the ngKSI of that success.
   */
  lemma KsiInStepExactly(u: Usim, s: Ue, h: seq<Input>, i: nat)
    requires s.sec.None? && Latest(Marks(u, s, h), i)
    ensures IsRequest(h[i]) && UeAfter(u, s, h).sec.Some?
    ensures UeAfter(u, s, h).auth.ngKsi == UeAfter(u, s, h).sec.value.ngKsi <==> LastKsi(u, s, h, i) == h[i].m.ngKsi
  {
    ContextIsLatest(u, s, h, i);
    StoredKsi(u, s, h, i);
  }

  lemma CheckedRequest(u: Usim, s: Ue, m: NasMsg)
    requires !s.halted && IsCheckable(Received(m))
    ensures OnMessage(u, s, m) ==
              Answer(u, s.(auth := StoreRequest(s.auth, m.ngKsi, m.rand.value)), m.autn.value, m.abba)
  {
  }

  /** A complete request with the network's token for the given SQN. */
  ghost predicate IsHonest(u: Usim, e: Input, sqn: nat) {
    IsCheckable(e) && |u.amf| == 2 && |e.m.rand.value| == 16 && sqn <= SQN_MAX &&
    e.m.autn.value == Aka.Autn(u, e.m.rand.value, sqn)
  }

  /** The KAMF the network derives for a challenge, from its own SQN. */
  function NetworkKamf(u: Usim, rand: Block, sqn: nat, abba: seq<byte>): seq<byte> {
    KamfChain(u, rand, Xor(BigEndian(sqn, 6), Ts.F5(u.e, u.opc, rand)), abba)
  }

  lemma HonestStep(u: Usim, s: Ue, e: Input, sqn: nat)
    requires !s.halted && IsHonest(u, e, sqn) && s.auth.sqn <= sqn
    ensures var m := e.m;
            var kamf := NetworkKamf(u, m.rand.value, sqn, m.abba);
            Respond(u, s, e) ==
              Reply(s.(auth := AuthState(sqn, kamf, m.rand.value, m.rand.value, m.ngKsi),
                       sec := Some(NewSec(m.ngKsi, kamf))),
                    [AuthResponse(ResStar(u, m.rand.value, m.rand.value))])
  {
    CheckedRequest(u, s, e.m);
    Aka.Agreement(u, s.auth.(ngKsi := e.m.ngKsi), e.m.rand.value, sqn, e.m.abba);
  }

  /** After a success, a matching command and an accept complete the registration, unless the GUTI is nil. */
  lemma RestOfRegistration(u: Usim, s: Ue, ksi: Ksi, kamf: seq<byte>, command: NasMsg, accept: NasMsg)
    requires !s.halted && s.auth.ngKsi == ksi && s.sec == Some(NewSec(ksi, kamf)) && ksi.id != 7
    requires command.SecurityModeCommand? && command.ngKsi == ksi && accept.RegistrationAccept?
    ensures var c := OnMessage(u, s, command);
            var a := OnMessage(u, c.ue, accept);
            c.out == [SecurityModeComplete(ksi, kamf, Container(s, command))] && !c.ue.halted &&
            a.ue.auth == s.auth && a.ue.sec.Some? &&
            a.ue.sec.value.gpp.requested == Some(NasKeys(command.encAlg, command.intAlg, kamf)) &&
            (a.ue.halted <==> NilGuti(s, accept)) &&
            (!a.ue.halted ==> a.out == [RegistrationComplete(true), DefaultSessionStarted] && a.ue.reg == Registered)
  {
  }

  /** The answer is RES*, the second half of the digest over serving network, RAND and RES. */
  ghost predicate AnswersInDigests(u: Usim, rand: Block, out: seq<NasOut>) {
    var ckik := Ts.F3(u.e, u.opc, rand) + Ts.F4(u.e, u.opc, rand);
    var digest := u.hmac(ckik, [0x6B] + Kdf.Tagged([u.snn, rand, Ts.F2(u.e, u.opc, rand)]));
    |out| == 1 && out[0].AuthResponse? && digest[..16] + out[0].resStar == digest
  }

  /**
    What an honest request with this SQN, a matching command and an accept lead to, from s: the three
    outputs, and the state t. NAS is secured under the network's KAMF, and the UE is registered unless
    the accept formats a nil GUTI, which is exactly when it ends the process.
   */
  ghost predicate Registers(
      u: Usim, s: Ue, request: NasMsg, command: NasMsg, accept: NasMsg, sqn: nat, out: seq<seq<NasOut>>, t: Ue)
    requires IsHonest(u, Received(request), sqn) && command.SecurityModeCommand? && accept.RegistrationAccept?
    requires |out| == 3
  {
    var rand := request.rand.value;
    var kamf := NetworkKamf(u, rand, sqn, request.abba);
    var container := if command.rinmr == Some(true) && s.nasPdu != [] then Some(s.nasPdu) else None;
    AnswersInDigests(u, rand, out[0]) && out[1] == [SecurityModeComplete(request.ngKsi, kamf, container)] &&
    t.auth.sqn == sqn && t.sec.Some? &&
    t.sec.value.gpp.requested == Some(NasKeys(command.encAlg, command.intAlg, kamf)) &&
    (t.halted <==> accept.guti.Some? && !accept.guti.value.is5gGuti && s.guti.None?) &&
    (!t.halted ==> out[2] == [RegistrationComplete(true), DefaultSessionStarted] && t.reg == Registered)
  }

  /** An honest run from any live state registers the UE. */
  lemma {:induction false} HonestRunRegisters(u: Usim, s: Ue, h: seq<Input>, sqn: nat)
    requires |h| == 3 && !s.halted && IsHonest(u, h[0], sqn) && s.auth.sqn <= sqn
    requires h[1].Received? && h[1].m.SecurityModeCommand? && h[1].m.ngKsi == h[0].m.ngKsi
    requires h[2].Received? && h[2].m.RegistrationAccept?
    ensures Registers(u, s, h[0].m, h[1].m, h[2].m, sqn,
                      Outs(u, s, h), UeAfter(u, s, h))
  {
    var m := h[0].m;
    HonestStep(u, s, h[0], sqn);
    var s1 := Respond(u, s, h[0]).ue;
    Aka.KeysWrittenOut(u, m.rand.value, m.rand.value, [], []);
    RestOfRegistration(u, s1, m.ngKsi, NetworkKamf(u, m.rand.value, sqn, m.abba), h[1].m, h[2].m);
    ThreeInputs(u, s, h);
  }

  lemma ThreeInputs(u: Usim, s: Ue, h: seq<Input>)
    requires |h| == 3
    ensures var a := Respond(u, s, h[0]);
            var b := Respond(u, a.ue, h[1]);
            var c := Respond(u, b.ue, h[2]);
            UeAfter(u, s, h) == c.ue && Outs(u, s, h) == [a.out, b.out, c.out]
  {
    var a := Respond(u, s, h[0]);
    var b := Respond(u, a.ue, h[1]);
    FirstThenRest(u, s, h);
    FirstThenRest(u, a.ue, h[1..]);
    FirstThenRest(u, b.ue, h[1..][1..]);
    assert h[1..][1..][1..] == [];
  }

  /** An honest request whose SQN is behind: the answer is AUTS, and only the challenge and its ngKSI are stored. */
  lemma BehindStep(u: Usim, s: Ue, m: NasMsg, sqn: nat)
    requires !s.halted && IsHonest(u, Received(m), sqn) && sqn < s.auth.sqn
    ensures OnMessage(u, s, m) ==
              Reply(s.(auth := StoreRequest(s.auth, m.ngKsi, m.rand.value)),
                    [AuthFailureSync(Auts(u, m.rand.value, s.auth.sqn))])
  {
    CheckedRequest(u, s, m);
    Aka.Agreement(u, s.auth.(ngKsi := m.ngKsi), m.rand.value, sqn, m.abba);
  }

  /** A history is its first input and then the rest. */
  lemma {:induction false} FirstThenRest(u: Usim, s: Ue, h: seq<Input>)
    requires h != []
    ensures var r := Respond(u, s, h[0]);
            UeAfter(u, s, h) == UeAfter(u, r.ue, h[1..]) && Outs(u, s, h) == [r.out] + Outs(u, r.ue, h[1..])
  {
    var n := |h| - 1;
    if n == 0 {
      assert h[..0] == [] && h[1..] == [];
    } else {
      FirstThenRest(u, s, h[..n]);
      assert h[..n][1..] == h[1..][..n - 1];
    }
  }

  lemma AfterFirst(u: Usim, s: Ue, h: seq<Input>, s1: Ue, out: seq<NasOut>)
    requires h != [] && Respond(u, s, h[0]) == Reply(s1, out)
    ensures UeAfter(u, s, h) == UeAfter(u, s1, h[1..])
    ensures Outs(u, s, h)[0] == out && Outs(u, s, h)[1..] == Outs(u, s1, h[1..])
  {
    FirstThenRest(u, s, h);
  }

  /** The SQN at which the network restarts on the AUTS that a UE at ueSqn sends for this challenge. */
  function RestartSqn(u: Usim, rand: Block, sqn: nat, ueSqn: nat): nat {
    Aka.NetAfter(u, sqn, rand, SyncFailure(Auts(u, rand, ueSqn)))
  }

  /** The second request of a resynchronisation meets a UE with the old SQN, keys and state. */
  lemma SecondRequest(u: Usim, s: Ue, e: Input, sqn: nat) returns (s1: Ue)
    requires !s.halted && IsHonest(u, e, sqn) && sqn < s.auth.sqn <= SQN_MAX
    ensures Respond(u, s, e) == Reply(s1, [AuthFailureSync(Auts(u, e.m.rand.value, s.auth.sqn))])
    ensures s1 == s.(auth := StoreRequest(s.auth, e.m.ngKsi, e.m.rand.value))
    ensures RestartSqn(u, e.m.rand.value, sqn, s.auth.sqn) == Aka.Restart(s.auth.sqn)
  {
    BehindStep(u, s, e.m, sqn);
    Aka.NetRestarts(u, sqn, e.m.rand.value, s.auth.sqn);
    s1 := Respond(u, s, e).ue;
  }

  /** Of the state before, only the stored GUTI and request matter to what a registration leads to. */
  lemma {:induction false} RegistersFrom(
      u: Usim, s: Ue, s1: Ue, rest: seq<Input>, sqn: nat, out: seq<seq<NasOut>>, t: Ue)
    requires |rest| == 3 && !s1.halted && IsHonest(u, rest[0], sqn) && s1.auth.sqn <= sqn
    requires rest[1].Received? && rest[1].m.SecurityModeCommand? && rest[1].m.ngKsi == rest[0].m.ngKsi
    requires rest[2].Received? && rest[2].m.RegistrationAccept?
    requires s1.guti == s.guti && s1.nasPdu == s.nasPdu
    requires out == Outs(u, s1, rest) && t == UeAfter(u, s1, rest)
    ensures Registers(u, s, rest[0].m, rest[1].m, rest[2].m, sqn, out, t)
  {
    HonestRunRegisters(u, s1, rest, sqn);
  }

  lemma {:induction false} RegistersAfter(u: Usim, s: Ue, s1: Ue, h: seq<Input>, out: seq<NasOut>, sqn: nat)
    requires |h| == 4 && Respond(u, s, h[0]) == Reply(s1, out)
    requires !s1.halted && IsHonest(u, h[1], sqn) && s1.auth.sqn <= sqn
    requires h[2].Received? && h[2].m.SecurityModeCommand? && h[2].m.ngKsi == h[1].m.ngKsi
    requires h[3].Received? && h[3].m.RegistrationAccept?
    requires s1.guti == s.guti && s1.nasPdu == s.nasPdu
    ensures Outs(u, s, h)[0] == out
    ensures Registers(u, s, h[1].m, h[2].m, h[3].m, sqn, Outs(u, s, h)[1..], UeAfter(u, s, h))
  {
    AfterFirst(u, s, h, s1, out);
    RegistersFrom(u, s, s1, h[1..], sqn, Outs(u, s, h)[1..], UeAfter(u, s, h));
  }

  /**
    Resynchronisation in messages, from any live UE ahead of the network and within the bound: the AUTS
    it sends lets the network's next request pass, and the run registers the UE under the network's
    KAMF with the restarted SQN.
   */
  lemma {:induction false} ResynchronisedRegisters(u: Usim, s: Ue, h: seq<Input>, sqn: nat)
    requires |h| == 4 && !s.halted && IsHonest(u, h[0], sqn) && sqn < s.auth.sqn <= SQN_MAX - SQN_IND
    requires IsHonest(u, h[1], s.auth.sqn + SQN_IND)
    requires h[2].Received? && h[2].m.SecurityModeCommand? && h[2].m.ngKsi == h[1].m.ngKsi
    requires h[3].Received? && h[3].m.RegistrationAccept?
    ensures Outs(u, s, h)[0] == [AuthFailureSync(Auts(u, h[0].m.rand.value, s.auth.sqn))]
    ensures RestartSqn(u, h[0].m.rand.value, sqn, s.auth.sqn) == s.auth.sqn + SQN_IND
    ensures Registers(u, s, h[1].m, h[2].m, h[3].m, s.auth.sqn + SQN_IND, Outs(u, s, h)[1..], UeAfter(u, s, h))
  {
    var s1 := SecondRequest(u, s, h[0], sqn);
    RegistersAfter(u, s, s1, h, [AuthFailureSync(Auts(u, h[0].m.rand.value, s.auth.sqn))], s.auth.sqn + SQN_IND);
  }

  /** Above the bound the network's next request is refused like the first, and the keys stay. */
  lemma {:induction false} ResynchronisationRefused(u: Usim, s: Ue, h: seq<Input>, sqn: nat)
    requires |h| == 2 && !s.halted && IsHonest(u, h[0], sqn) && sqn < s.auth.sqn
    requires SQN_MAX - SQN_IND < s.auth.sqn <= SQN_MAX
    requires IsHonest(u, h[1], 0)
    ensures RestartSqn(u, h[0].m.rand.value, sqn, s.auth.sqn) == 0
    ensures var t := UeAfter(u, s, h);
            Outs(u, s, h)[1] == [AuthFailureSync(Auts(u, h[1].m.rand.value, s.auth.sqn))] &&
            t.sec == s.sec && t.auth.kamf == s.auth.kamf && t.auth.sqn == s.auth.sqn
  {
    var s1 := SecondRequest(u, s, h[0], sqn);
    var s2 := SecondRequest(u, s1, h[1], 0);
    FirstThenRest(u, s, h);
    FirstThenRest(u, s1, h[1..]);
    assert h[1..][1..] == [];
  }

  /** A new UE: deregistered, nothing stored, ngKSI 0. */
  function NewUe(challenge: Block): Ue {
    Ue(Deregistered, AuthState(0, [], [], challenge, Ksi(0, 0)), None, None, [], false)
  }

  /** A new UE panics on a command that names ngKSI 0, and on an accept whose identity is no 5G-GUTI. */
  lemma NewUePanics(u: Usim, challenge: Block)
    ensures OnMessage(u, NewUe(challenge), SecurityModeCommand(Ksi(0, 0), 0, 0, None)).ue.halted
    ensures OnMessage(u, NewUe(challenge), RegistrationAccept(Some(Identity(false, [])))).ue.halted
  {
  }

  /** A live UE ends the process on exactly these messages. */
  lemma HaltsExactly(u: Usim, s: Ue, m: NasMsg)
    requires !s.halted
    ensures OnMessage(u, s, m).ue.halted <==>
              || (m.AuthenticationRequest? &&
                  (m.ngKsi.id == 7 || m.abba == [] || m.rand.None? || m.autn.None? || |m.autn.value| < 8))
              || (m.SecurityModeCommand? && m.ngKsi.id != 7 && m.ngKsi == s.auth.ngKsi && s.sec.None?)
              || (m.RegistrationAccept? && m.guti.Some? && !m.guti.value.is5gGuti && s.guti.None?)
  {
  }

  /** The same token with its last octet changed. */
  function Spoiled(autn: seq<byte>): seq<byte>
    requires |autn| == 16
  {
    autn[15 := autn[15] ^ 1]
  }

  lemma SpoiledFails(u: Usim, a: AuthState, sqn: nat)
    requires |u.amf| == 2 && sqn <= SQN_MAX
    ensures Outcome(u, a, Spoiled(Aka.Autn(u, a.challenge, sqn))) == MacFailure
  {
    var autn := Aka.Autn(u, a.challenge, sqn);
    var spoiled := Spoiled(autn);
    Aka.HonestAutn(u, a.challenge, sqn);
    assert spoiled[..6] == autn[..6];
    assert spoiled[8..][7] != autn[8..][7];
  }

  ghost predicate IsSpoiled(u: Usim, e: Input, sqn: nat) {
    IsCheckable(e) && |u.amf| == 2 && |e.m.rand.value| == 16 && sqn <= SQN_MAX &&
    e.m.autn.value == Spoiled(Aka.Autn(u, e.m.rand.value, sqn))
  }

  lemma HonestMark(u: Usim, s: Ue, e: Input, sqn: nat)
    requires !s.halted && IsHonest(u, e, sqn) && s.auth.sqn <= sqn
    ensures MarkOf(u, s, e).Accept? && !Respond(u, s, e).ue.halted
  {
    HonestStep(u, s, e, sqn);
  }

  lemma SpoiledStep(u: Usim, s: Ue, m: NasMsg, sqn: nat)
    requires !s.halted && IsSpoiled(u, Received(m), sqn)
    ensures OnMessage(u, s, m) == Reply(s.(auth := StoreRequest(s.auth, m.ngKsi, m.rand.value)), [AuthFailureMac])
  {
    CheckedRequest(u, s, m);
    SpoiledFails(u, StoreRequest(s.auth, m.ngKsi, m.rand.value), sqn);
  }

  lemma SpoiledMark(u: Usim, s: Ue, e: Input, sqn: nat)
    requires !s.halted && IsSpoiled(u, e, sqn)
    ensures MarkOf(u, s, e) == Other && !Respond(u, s, e).ue.halted
  {
    SpoiledStep(u, s, e.m, sqn);
    assert Respond(u, s, e).out == [AuthFailureMac];
  }

  /** A request, refused or not, that named an ngKSI: every command naming it is completed under the standing KAMF. */
  lemma {:induction false} RefusedNameCompletes(u: Usim, s: Ue, h: seq<Input>, i: nat, command: NasMsg)
    requires s.sec.None? && Latest(Marks(u, s, h), i) && !UeAfter(u, s, h).halted
    requires IsRequest(h[i]) && command.SecurityModeCommand?
    requires LastKsi(u, s, h, i) == command.ngKsi && command.ngKsi.id != 7
    ensures var t := UeAfter(u, s, h);
            t.sec.Some? && t.sec.value.ngKsi == h[i].m.ngKsi && t.sec.value.kamf == Marks(u, s, h)[i].kamf &&
            OnMessage(u, t, command).out
              == [SecurityModeComplete(command.ngKsi, t.sec.value.kamf, Container(t, command))]
  {
    ContextOverHistory(u, s, h);
    ContextIsLatest(u, s, h, i);
    StoredKsi(u, s, h, i);
  }

  /**
    ngKSI is stored before AUTN is verified. A concrete history for every subscription and state: an
    accepted request with k1, a spoiled one with k2, and the UE completes any command naming k2
    although its keys belong to k1.
   */
  lemma {:induction false} FailedRequestNamesOldKeys(u: Usim, s: Ue, h: seq<Input>, sqn: nat, command: NasMsg)
    requires |h| == 2 && s.sec.None? && !s.halted && s.auth.sqn <= sqn
    requires IsHonest(u, h[0], sqn) && IsSpoiled(u, h[1], sqn) && h[0].m.ngKsi != h[1].m.ngKsi
    requires command.SecurityModeCommand? && command.ngKsi == h[1].m.ngKsi
    ensures var t := UeAfter(u, s, h);
            t.sec.Some? && t.sec.value.ngKsi == h[0].m.ngKsi && t.sec.value.ngKsi != command.ngKsi &&
            OnMessage(u, t, command).out
              == [SecurityModeComplete(command.ngKsi, t.sec.value.kamf, Container(t, command))]
  {
    HonestMark(u, s, h[0], sqn);
    SpoiledMark(u, Respond(u, s, h[0]).ue, h[1], sqn);
    FirstTwo(u, s, h);
    RefusedNameCompletes(u, s, h, 0, command);
  }

  lemma FirstTwo(u: Usim, s: Ue, h: seq<Input>)
    requires |h| == 2
    ensures var t := Respond(u, s, h[0]).ue;
            UeAfter(u, s, h) == Respond(u, t, h[1]).ue &&
            Marks(u, s, h) == [MarkOf(u, s, h[0]), MarkOf(u, t, h[1])] &&
            (IsRequest(h[0]) && IsCheckable(h[1]) && !t.halted ==> LastKsi(u, s, h, 0) == h[1].m.ngKsi)
  {
    var first := h[..1];
    assert first[..0] == [] && first[0] == h[0];
    assert UeAfter(u, s, first[..0]) == s && Marks(u, s, first[..0]) == [];
    assert UeAfter(u, s, first) == Respond(u, s, h[0]).ue;
  }

  // What goes out, and what the other messages do.

  /** A Complete carries the stored request exactly when the command asks for it and there is one. */
  lemma ContainerExactly(u: Usim, s: Ue, m: NasMsg)
    requires m.SecurityModeCommand? && Completes(OnMessage(u, s, m).out)
    ensures OnMessage(u, s, m).out[0].container ==
              if m.rinmr == Some(true) && s.nasPdu != [] then Some(s.nasPdu) else None
  {
  }

  /** The requests a live UE has encoded, in order. */
  function Encoded(u: Usim, s: Ue, h: seq<Input>): seq<seq<byte>> {
    if h == [] then []
    else
      var before, e := h[..|h| - 1], h[|h| - 1];
      Encoded(u, s, before) +
      if e.Register? && e.pdu.Some? && !UeAfter(u, s, before).halted then [e.pdu.value] else []
  }

  /** The stored request is the last one encoded. */
  lemma {:induction false} StoredRequest(u: Usim, s: Ue, h: seq<Input>)
    ensures UeAfter(u, s, h).nasPdu == LastOr(Encoded(u, s, h), s.nasPdu)
  {
    if h != [] {
      StoredRequest(u, s, h[..|h| - 1]);
      KeepsRequest(u, UeAfter(u, s, h[..|h| - 1]), h[|h| - 1]);
    }
  }

  lemma KeepsRequest(u: Usim, s: Ue, e: Input)
    ensures Respond(u, s, e).ue.nasPdu == if e.Register? && e.pdu.Some? && !s.halted then e.pdu.value else s.nasPdu
  {
  }

  /**
    Over every history, from a UE that has stored no request: a Complete carries a container exactly when
    the command asks for it and the last request encoded is not empty, and then it is that request.
   */
  lemma {:induction false} ContainerOverHistory(u: Usim, s: Ue, h: seq<Input>, m: NasMsg)
    requires s.nasPdu == [] && m.SecurityModeCommand? && Completes(OnMessage(u, UeAfter(u, s, h), m).out)
    ensures var c, last := OnMessage(u, UeAfter(u, s, h), m).out[0].container, LastOr(Encoded(u, s, h), []);
            (c.Some? <==> m.rinmr == Some(true) && last != []) && (c.Some? ==> c.value == last)
  {
    StoredRequest(u, s, h);
    ContainerExactly(u, UeAfter(u, s, h), m);
  }

  /** A complete request stores its ngKSI and RAND, accepted or not; only a RAND of 16 octets becomes the challenge. */
  lemma RequestStores(u: Usim, s: Ue, m: NasMsg)
    requires !s.halted && m.AuthenticationRequest? && m.ngKsi.id != 7 && m.abba != []
    requires m.rand.Some? && m.autn.Some?
    ensures var t := OnMessage(u, s, m).ue;
            t.auth.ngKsi == m.ngKsi && t.auth.rand == m.rand.value && t.reg == s.reg && t.nasPdu == s.nasPdu &&
            t.auth.challenge == if |m.rand.value| == 16 then m.rand.value else s.auth.challenge
  {
    if |m.autn.value| >= 8 {
      CheckedRequest(u, s, m);
      AnswerKeeps(u, s.(auth := StoreRequest(s.auth, m.ngKsi, m.rand.value)), m.autn.value, m.abba);
    }
  }

  lemma AnswerKeeps(u: Usim, s: Ue, autn: seq<byte>, abba: seq<byte>)
    requires |autn| >= 8
    ensures var t := Answer(u, s, autn, abba).ue;
            t.auth.ngKsi == s.auth.ngKsi && t.auth.rand == s.auth.rand && t.auth.challenge == s.auth.challenge &&
            t.reg == s.reg && t.nasPdu == s.nasPdu && t.guti == s.guti && t.halted == s.halted
  {
  }

  /** An answered request puts a new context in place: its ngKSI, the KAMF just derived, and nothing else. */
  lemma ContextIsNew(u: Usim, s: Ue, m: NasMsg)
    ensures var r := OnMessage(u, s, m);
            Answers(r.out) ==>
              m.AuthenticationRequest? &&
              r.ue.sec == Some(SecState(m.ngKsi, r.ue.auth.kamf, [], [], [], 0,
                                        NasState(0, 0, None), NasState(0, 0, None)))
  {
    if Answers(OnMessage(u, s, m).out) {
      assert m.AuthenticationRequest? && !s.halted;
      CheckedRequest(u, s, m);
    }
  }

  /** The three answers to a command, for a live UE: refusal, panic, completion. */
  lemma CommandExactly(u: Usim, s: Ue, m: NasMsg)
    requires !s.halted && m.SecurityModeCommand?
    ensures var r := OnMessage(u, s, m);
            var refused := m.ngKsi.id == 7 || m.ngKsi.id != s.auth.ngKsi.id || m.ngKsi.tsc != s.auth.ngKsi.tsc;
            (refused ==> r == Reply(s.(reg := Deregistered), [])) &&
            (!refused && s.sec.None? ==> r == Reply(s.(halted := true), [])) &&
            (!refused && s.sec.Some? ==>
               Completes(r.out) && r.out[0].ngKsi == m.ngKsi && r.out[0].kamf == s.sec.value.kamf &&
               r.ue.sec.Some? &&
               r.ue.sec.value.gpp.requested == Some(NasKeys(m.encAlg, m.intAlg, s.sec.value.kamf)) &&
               r.ue.reg == s.reg && r.ue.auth == s.auth)
  {
  }

  /** A reject deregisters, drops the context and invalidates the ngKSI id; SQN, KAMF, GUTI and request stay. */
  lemma RejectExactly(u: Usim, s: Ue, e: Input)
    requires IsReject(e) && !s.halted
    ensures var r := Respond(u, s, e);
            r.out == [] && r.ue.reg == Deregistered && r.ue.sec == None &&
            r.ue.auth == s.auth.(ngKsi := Ksi(7, s.auth.ngKsi.tsc)) &&
            r.ue.guti == s.guti && r.ue.nasPdu == s.nasPdu && !r.ue.halted
  {
  }

  /** An accept registers, answers once, starts the default session, and stores a 5G-GUTI only. */
  lemma RegisteredExactly(u: Usim, s: Ue, m: NasMsg)
    requires !s.halted && m.RegistrationAccept? && (m.guti.None? || m.guti.value.is5gGuti || s.guti.Some?)
    ensures var r := OnMessage(u, s, m);
            r.out == [RegistrationComplete(s.sec.Some?), DefaultSessionStarted] && r.ue.reg == Registered &&
            r.ue.guti == (if m.guti.None? || !m.guti.value.is5gGuti then s.guti else Some(m.guti.value.value)) &&
            r.ue.auth == s.auth && r.ue.sec == s.sec && r.ue.nasPdu == s.nasPdu && !r.ue.halted
  {
  }

  /** An identity request is answered for SUCI only; the remaining messages have no effect. */
  lemma OthersExactly(u: Usim, s: Ue, m: NasMsg)
    requires !s.halted
    ensures m.IdentityRequest? ==>
              OnMessage(u, s, m) == Reply(s, if m.suci && m.encodes then [IdentityResponse(s.sec.Some?)] else [])
    ensures m.SessionMessage? || m.NoContent? || m.GmmStatus? || m.DlNasTransport? || m.UnknownType? ==>
              OnMessage(u, s, m) == Reply(s, [])
  {
  }

  /** What an input decides about the registration state, if it decides anything. */
  function Decides(s: Ue, e: Input): Option<RegState> {
    if s.halted then None
    else if e.Register? then if e.pdu.Some? then Some(Registering) else None
    else if IsReject(e) then Some(Deregistered)
    else if e.m.RegistrationAccept? then if NilGuti(s, e.m) then None else Some(Registered)
    else if e.m.SecurityModeCommand? && (e.m.ngKsi.id == 7 || e.m.ngKsi != s.auth.ngKsi) then Some(Deregistered)
    else None
  }

  function Decisions(u: Usim, s: Ue, h: seq<Input>): seq<RegState> {
    if h == [] then []
    else
      var before := h[..|h| - 1];
      var d := Decides(UeAfter(u, s, before), h[|h| - 1]);
      Decisions(u, s, before) + if d.Some? then [d.value] else []
  }

  lemma StepDecides(u: Usim, s: Ue, e: Input)
    ensures Respond(u, s, e).ue.reg == if Decides(s, e).Some? then Decides(s, e).value else s.reg
  {
  }

  /**
    Over every history the registration state is the last one decided: by an accept, a reject, a refused
    command or an own attempt.
   */
  lemma {:induction false} StateOverHistory(u: Usim, s: Ue, h: seq<Input>)
    ensures UeAfter(u, s, h).reg == LastOr(Decisions(u, s, h), s.reg)
  {
    if h != [] {
      StateOverHistory(u, s, h[..|h| - 1]);
      StepDecides(u, UeAfter(u, s, h[..|h| - 1]), h[|h| - 1]);
    }
  }
}
