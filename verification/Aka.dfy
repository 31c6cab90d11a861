/** UE and home network together: agreement of 5G-AKA, and whether resynchronisation converges. */
module Aka {
  import opened Bytes
  import opened SqnCounter
  import opened MilenageObject
  import opened Auth
  import Kdf
  import Ts = Ts35206

  /** The network's token for a challenge, TS 33.102 section 6.3.2: SQN xor AK || AMF || MAC-A. */
  function Autn(u: Usim, rand: Block, sqn: nat): (autn: seq<byte>)
    requires |u.amf| == 2
    ensures |autn| == 16
  {
    var s := BigEndian(sqn, 6);
    Xor(s, Ts.F5(u.e, u.opc, rand)) + u.amf + Ts.F1(u.e, u.opc, rand, s, u.amf)
  }

  /** The UE holding the RAND of a request, as the request handler leaves it. */
  function Challenged(a: AuthState, rand: Block): AuthState {
    a.(rand := rand, challenge := rand)
  }

  ghost predicate SameButAmf(autn: seq<byte>, autn': seq<byte>)
    requires |autn| == |autn'| == 16
  {
    autn[..6] == autn'[..6] && autn[8..] == autn'[8..]
  }

  /** The network's AUTN passes the MAC check and reveals exactly the network's SQN. */
  lemma HonestAutn(u: Usim, rand: Block, sqn: nat)
    requires |u.amf| == 2 && sqn <= SQN_MAX
    ensures var autn := Autn(u, rand, sqn);
            MacMatches(u, rand, autn) && SqnIn(u, rand, autn) == BigEndian(sqn, 6) &&
            BeNat(SqnIn(u, rand, autn)) == sqn
  {
    var autn, s := Autn(u, rand, sqn), BigEndian(sqn, 6);
    var ak := Ts.F5(u.e, u.opc, rand);
    assert autn[..6] == Xor(s, ak);
    XorCancel(s, ak);
    assert autn[8..] == Ts.F1(u.e, u.opc, rand, s, u.amf);
    SetOfBytes(sqn);
  }

  /**
    Agreement: an honest challenge succeeds exactly when its SQN is not behind the UE's, and then
    UE and network hold the same SQN, KAMF and RES*.
   */
  lemma Agreement(u: Usim, a: AuthState, rand: Block, sqn: nat, abba: seq<byte>)
    requires |u.amf| == 2 && sqn <= SQN_MAX
    ensures var ue, autn := Challenged(a, rand), Autn(u, rand, sqn);
            var sqnXorAk := Xor(BigEndian(sqn, 6), Ts.F5(u.e, u.opc, rand));
            if sqn >= a.sqn then
              Outcome(u, ue, autn) == Success(ResStar(u, rand, rand)) &&
              AfterAuth(u, ue, autn, abba) == ue.(sqn := sqn, kamf := KamfChain(u, rand, sqnXorAk, abba))
            else
              Outcome(u, ue, autn) == SyncFailure(Auts(u, rand, a.sqn)) &&
              AfterAuth(u, ue, autn, abba) == ue
  {
    HonestAutn(u, rand, sqn);
    assert Autn(u, rand, sqn)[..6] == Xor(BigEndian(sqn, 6), Ts.F5(u.e, u.opc, rand));
  }

  /** A token whose MAC matches is the network's token for the SQN it conceals, but for its AMF field. */
  lemma MatchingIsHonest(u: Usim, rand: Block, autn: seq<byte>)
    requires |u.amf| == 2 && |autn| == 16 && MacMatches(u, rand, autn)
    ensures var sqn := BeNat(SqnIn(u, rand, autn));
            sqn <= SQN_MAX && SameButAmf(autn, Autn(u, rand, sqn))
  {
    var s, ak := SqnIn(u, rand, autn), Ts.F5(u.e, u.opc, rand);
    BytesOfSet(s);
    SetValueBound(s);
    assert s[..6] == s;
    XorCancel(autn[..6], ak);
    var honest := Autn(u, rand, BeNat(s));
    assert honest[..6] == Xor(s, ak);
    assert honest[8..] == Ts.F1(u.e, u.opc, rand, s, u.amf);
  }

  lemma AmfFieldIgnored(u: Usim, rand: Block, autn: seq<byte>, autn': seq<byte>)
    requires |autn| == |autn'| == 16 && SameButAmf(autn, autn')
    ensures MacMatches(u, rand, autn) <==> MacMatches(u, rand, autn')
    ensures SqnIn(u, rand, autn) == SqnIn(u, rand, autn')
  {
  }

  /** With a configured AMF of the wrong size only a token without a MAC passes. */
  lemma WrongAmfRefuses(u: Usim, rand: Block, autn: seq<byte>)
    requires |u.amf| != 2 && |autn| >= 8
    ensures MacMatches(u, rand, autn) <==> |autn| == 8
  {
  }

  ghost predicate HonestFor(u: Usim, rand: Block, autn: seq<byte>, sqn: nat)
    requires |u.amf| == 2 && |autn| == 16
  {
    sqn <= SQN_MAX && SameButAmf(autn, Autn(u, rand, sqn))
  }

  lemma HonestExactly(u: Usim, rand: Block, autn: seq<byte>, sqn: nat)
    requires |u.amf| == 2 && |autn| == 16
    ensures HonestFor(u, rand, autn, sqn) <==> MacMatches(u, rand, autn) && BeNat(SqnIn(u, rand, autn)) == sqn
  {
    if MacMatches(u, rand, autn) {
      MatchingIsHonest(u, rand, autn);
    }
    if HonestFor(u, rand, autn, sqn) {
      HonestAutn(u, rand, sqn);
      AmfFieldIgnored(u, rand, autn, Autn(u, rand, sqn));
    }
  }

  /** The three outcomes, decided by whether the token is the network's and how its SQN compares. */
  lemma OutcomesExactly(u: Usim, a: AuthState, autn: seq<byte>)
    requires |u.amf| == 2 && |autn| == 16
    ensures Outcome(u, a, autn).Success? <==> exists sqn: nat :: HonestFor(u, a.challenge, autn, sqn) && sqn >= a.sqn
    ensures Outcome(u, a, autn).SyncFailure? <==> exists sqn: nat :: HonestFor(u, a.challenge, autn, sqn) && sqn < a.sqn
    ensures Outcome(u, a, autn).MacFailure? <==> forall sqn: nat :: !HonestFor(u, a.challenge, autn, sqn)
  {
    var rand, own := a.challenge, BeNat(SqnIn(u, a.challenge, autn));
    forall sqn: nat
      ensures HonestFor(u, rand, autn, sqn) <==> MacMatches(u, rand, autn) && own == sqn
    {
      HonestExactly(u, rand, autn, sqn);
    }
    assert MacMatches(u, rand, autn) ==> HonestFor(u, rand, autn, own);
  }

  /** The network accepts the AUTS of the UE and recovers exactly the UE's SQN. */
  lemma AutsRecovered(u: Usim, rand: Block, sqn: nat)
    requires sqn <= SQN_MAX
    ensures CheckAuts(u.e, u.opc, Auts(u, rand, sqn), rand) == AutsCheck.Valid(BigEndian(sqn, 6))
  {
    var s, ak := BigEndian(sqn, 6), Ts.F5Star(u.e, u.opc, rand);
    var auts := Auts(u, rand, sqn);
    assert auts[..6] == Xor(s, ak) && auts[6..] == Ts.F1Star(u.e, u.opc, rand, s, [0, 0]);
    XorCancel(s, ak);
    assert Xor(ak, auts[..6]) == Xor(auts[..6], ak);
  }

  /** UE and home network; net is the network's sequence number for this UE. */
  datatype Pair = Pair(ue: AuthState, net: nat)

  /** One challenge: its RAND, and how often the network increments its SQN before issuing it. */
  datatype Round = Round(rand: Block, incs: nat)

  function Issue(p: Pair, r: Round): nat {
    NextN(p.net, r.incs)
  }

  function Answer(u: Usim, p: Pair, r: Round): AuthOutcome
    requires |u.amf| == 2
  {
    Outcome(u, Challenged(p.ue, r.rand), Autn(u, r.rand, Issue(p, r)))
  }

  predicate Accepted(u: Usim, p: Pair, r: Round)
    requires |u.amf| == 2
  {
    Answer(u, p, r).Success?
  }

  /** The network resets its SQN on a valid AUTS and otherwise keeps the one it issued. */
  function NetAfter(u: Usim, issued: nat, rand: Block, answer: AuthOutcome): nat {
    if answer.SyncFailure? then
      var check := CheckAuts(u.e, u.opc, answer.auts, rand);
      if check.Valid? then ResetValue(check.sqn) else issued
    else issued
  }

  /** The network challenges, the UE answers, and the network acts on the answer. */
  function Play(u: Usim, p: Pair, r: Round, abba: seq<byte>): Pair
    requires |u.amf| == 2
  {
    Pair(AfterAuth(u, Challenged(p.ue, r.rand), Autn(u, r.rand, Issue(p, r)), abba),
         NetAfter(u, Issue(p, r), r.rand, Answer(u, p, r)))
  }

  function PlayAll(u: Usim, p: Pair, rounds: seq<Round>, abba: seq<byte>): Pair
    requires |u.amf| == 2
  {
    if rounds == [] then p
    else
      var n := |rounds| - 1;
      Play(u, PlayAll(u, p, rounds[..n], abba), rounds[n], abba)
  }

  /** Which rounds of a run the UE accepts. */
  function Verdicts(u: Usim, p: Pair, rounds: seq<Round>, abba: seq<byte>): (v: seq<bool>)
    requires |u.amf| == 2
    ensures |v| == |rounds|
  {
    if rounds == [] then []
    else
      var n := |rounds| - 1;
      Verdicts(u, p, rounds[..n], abba) + [Accepted(u, PlayAll(u, p, rounds[..n], abba), rounds[n])]
  }

  /** Where the network's SQN restarts after resynchronising to a UE's SQN. */
  function Restart(sqn: nat): nat {
    if sqn + SQN_IND > SQN_MAX then 0 else sqn + SQN_IND
  }

  /** The same protocol on the two sequence numbers alone. */
  datatype Nums = Nums(ue: nat, net: nat)

  predicate Ahead(s: Nums, incs: nat) {
    NextN(s.net, incs) >= s.ue
  }

  function Count(s: Nums, incs: nat): Nums {
    if Ahead(s, incs) then Nums(NextN(s.net, incs), NextN(s.net, incs)) else Nums(s.ue, Restart(s.ue))
  }

  function CountAll(s: Nums, rounds: seq<Round>): Nums {
    if rounds == [] then s else Count(CountAll(s, rounds[..|rounds| - 1]), rounds[|rounds| - 1].incs)
  }

  function CountVerdicts(s: Nums, rounds: seq<Round>): (v: seq<bool>)
    ensures |v| == |rounds|
  {
    if rounds == [] then []
    else
      var n := |rounds| - 1;
      CountVerdicts(s, rounds[..n]) + [Ahead(CountAll(s, rounds[..n]), rounds[n].incs)]
  }

  function NumsOf(p: Pair): Nums {
    Nums(p.ue.sqn, p.net)
  }

  predicate InRange(s: Nums) {
    s.ue <= SQN_MAX && s.net <= SQN_MAX
  }

  lemma CountInRange(s: Nums, incs: nat)
    requires InRange(s)
    ensures InRange(Count(s, incs))
  {
    NextNIsModular(s.net, incs);
  }

  lemma NetRestarts(u: Usim, issued: nat, rand: Block, sqn: nat)
    requires sqn <= SQN_MAX
    ensures NetAfter(u, issued, rand, SyncFailure(Auts(u, rand, sqn))) == Restart(sqn)
  {
    AutsRecovered(u, rand, sqn);
    SetOfBytes(sqn);
  }

  /** One round of the protocol is one step on the numbers; a refused round changes no key. */
  lemma RoundExactly(u: Usim, p: Pair, r: Round, abba: seq<byte>)
    requires |u.amf| == 2 && InRange(NumsOf(p))
    ensures Accepted(u, p, r) <==> Ahead(NumsOf(p), r.incs)
    ensures NumsOf(Play(u, p, r, abba)) == Count(NumsOf(p), r.incs)
    ensures !Accepted(u, p, r) ==> Play(u, p, r, abba).ue.kamf == p.ue.kamf
  {
    var sqn := Issue(p, r);
    NextNIsModular(p.net, r.incs);
    Agreement(u, p.ue, r.rand, sqn, abba);
    NetRestarts(u, sqn, r.rand, p.ue.sqn);
  }

  /**
    The numbers of a run, and which of its rounds are accepted, follow from the numbers alone;
    a run without an accepted round leaves KAMF alone.
   */
  lemma {:induction false} RunExactly(u: Usim, p: Pair, rounds: seq<Round>, abba: seq<byte>)
    requires |u.amf| == 2 && InRange(NumsOf(p))
    ensures NumsOf(PlayAll(u, p, rounds, abba)) == CountAll(NumsOf(p), rounds)
    ensures InRange(CountAll(NumsOf(p), rounds))
    ensures Verdicts(u, p, rounds, abba) == CountVerdicts(NumsOf(p), rounds)
    ensures true !in CountVerdicts(NumsOf(p), rounds) ==> PlayAll(u, p, rounds, abba).ue.kamf == p.ue.kamf
  {
    if rounds != [] {
      var n := |rounds| - 1;
      RunExactly(u, p, rounds[..n], abba);
      RoundExactly(u, PlayAll(u, p, rounds[..n], abba), rounds[n], abba);
      CountInRange(CountAll(NumsOf(p), rounds[..n]), rounds[n].incs);
    }
  }

  /** After resynchronising to sqn, this many increments bring the network's SQN to sqn or above. */
  predicate RestartSuffices(sqn: nat, incs: nat) {
    (if sqn <= SQN_MAX - SQN_IND then sqn + SQN_IND + incs else incs) % (SQN_MAX + 1) >= sqn
  }

  lemma RestartReaches(sqn: nat, incs: nat)
    requires sqn <= SQN_MAX
    ensures NextN(Restart(sqn), incs) >= sqn <==> RestartSuffices(sqn, incs)
  {
    NextNIsModular(Restart(sqn), incs);
  }

  lemma RestartWithoutIncrements(sqn: nat)
    requires sqn <= SQN_MAX
    ensures RestartSuffices(sqn, 0) <==> sqn <= SQN_MAX - SQN_IND
  {
  }

  /**
    The round after a synchronisation failure, whatever its RAND: with no further increments it
    succeeds if and only if the UE's SQN is at most SQN_MAX - 32.
   */
  lemma ResynchronisationBound(u: Usim, p: Pair, refused: Round, next: Round, abba: seq<byte>)
    requires |u.amf| == 2 && InRange(NumsOf(p)) && !Ahead(NumsOf(p), refused.incs)
    ensures !Accepted(u, p, refused)
    ensures Accepted(u, Play(u, p, refused, abba), next) <==> RestartSuffices(p.ue.sqn, next.incs)
    ensures next.incs == 0 ==>
              (Accepted(u, Play(u, p, refused, abba), next) <==> p.ue.sqn <= SQN_MAX - SQN_IND)
  {
    RoundExactly(u, p, refused, abba);
    CountInRange(NumsOf(p), refused.incs);
    RoundExactly(u, Play(u, p, refused, abba), next, abba);
    RestartReaches(p.ue.sqn, next.incs);
    RestartWithoutIncrements(p.ue.sqn);
  }

  lemma CountTwo(s: Nums, rounds: seq<Round>)
    requires |rounds| >= 2
    ensures CountVerdicts(s, rounds)[0] == Ahead(s, rounds[0].incs)
    ensures CountVerdicts(s, rounds)[1] == Ahead(Count(s, rounds[0].incs), rounds[1].incs)
  {
    if |rounds| > 2 {
      var n := |rounds| - 1;
      CountTwo(s, rounds[..n]);
    } else {
      assert rounds[..1][..0] == [];
    }
  }

  /** The first round counts from the network's SQN and every later one from 0, and none reaches the UE's SQN. */
  ghost predicate NeverReaches(s: Nums, rounds: seq<Round>) {
    forall i :: 0 <= i < |rounds| ==> ((if i == 0 then s.net else 0) + rounds[i].incs) % (SQN_MAX + 1) < s.ue
  }

  lemma NeverReachesLast(s: Nums, rounds: seq<Round>)
    requires rounds != []
    ensures var n := |rounds| - 1;
            NeverReaches(s, rounds) <==>
              NeverReaches(s, rounds[..n]) && ((if n == 0 then s.net else 0) + rounds[n].incs) % (SQN_MAX + 1) < s.ue
  {
    var n := |rounds| - 1;
    assert forall i :: 0 <= i < n ==> rounds[..n][i] == rounds[i];
  }

  lemma RefusedAboveBound(ue: nat, net: nat, incs: nat)
    requires SQN_MAX - SQN_IND < ue && net <= SQN_MAX
    ensures Ahead(Nums(ue, net), incs) <==> (net + incs) % (SQN_MAX + 1) >= ue
    ensures !Ahead(Nums(ue, net), incs) ==> Count(Nums(ue, net), incs) == Nums(ue, 0)
  {
    NextNIsModular(net, incs);
  }

  lemma {:induction false} CountStuck(s: Nums, rounds: seq<Round>)
    requires InRange(s) && SQN_MAX - SQN_IND < s.ue
    ensures true !in CountVerdicts(s, rounds) <==> NeverReaches(s, rounds)
    ensures NeverReaches(s, rounds) && rounds != [] ==> CountAll(s, rounds) == Nums(s.ue, 0)
  {
    if rounds != [] {
      var n := |rounds| - 1;
      CountStuck(s, rounds[..n]);
      NeverReachesLast(s, rounds);
      RefusedAboveBound(s.ue, if n == 0 then s.net else 0, rounds[n].incs);
    }
  }

  /**
    Above the bound resynchronisation converges only by counting up from 0: challenges are refused for
    as long as no round's increments reach the UE's SQN, however many follow, and until then the
    network restarts from 0 each time and the UE keeps its SQN and KAMF.
   */
  lemma {:induction false} StuckExactly(u: Usim, p: Pair, rounds: seq<Round>, abba: seq<byte>)
    requires |u.amf| == 2 && InRange(NumsOf(p)) && SQN_MAX - SQN_IND < p.ue.sqn
    ensures true !in Verdicts(u, p, rounds, abba) <==> NeverReaches(NumsOf(p), rounds)
    ensures NeverReaches(NumsOf(p), rounds) && rounds != [] ==>
              NumsOf(PlayAll(u, p, rounds, abba)) == Nums(p.ue.sqn, 0) &&
              PlayAll(u, p, rounds, abba).ue.kamf == p.ue.kamf
  {
    RunExactly(u, p, rounds, abba);
    CountStuck(NumsOf(p), rounds);
  }

  ghost predicate NoIncrements(rounds: seq<Round>) {
    forall i :: 0 <= i < |rounds| ==> rounds[i].incs == 0
  }

  /**
    For a network that challenges with its stored SQN, any run of two or more rounds has an accepted
    one if and only if the network is not behind, or the UE's SQN is at most SQN_MAX - 32.
   */
  lemma {:induction false} ConvergesExactly(u: Usim, p: Pair, rounds: seq<Round>, abba: seq<byte>)
    requires |u.amf| == 2 && InRange(NumsOf(p))
    requires |rounds| >= 2 && NoIncrements(rounds)
    ensures true in Verdicts(u, p, rounds, abba) <==> p.net >= p.ue.sqn || p.ue.sqn <= SQN_MAX - SQN_IND
  {
    RunExactly(u, p, rounds, abba);
    CountConverges(NumsOf(p), rounds);
  }

  lemma CountConverges(s: Nums, rounds: seq<Round>)
    requires InRange(s) && |rounds| >= 2 && NoIncrements(rounds)
    ensures true in CountVerdicts(s, rounds) <==> s.net >= s.ue || s.ue <= SQN_MAX - SQN_IND
  {
    if s.ue > SQN_MAX - SQN_IND {
      CountStuck(s, rounds);
      StaysBehind(s, rounds);
    } else {
      CountTwo(s, rounds);
      assert CountVerdicts(s, rounds)[0] || CountVerdicts(s, rounds)[1];
    }
  }

  lemma StaysBehind(s: Nums, rounds: seq<Round>)
    requires InRange(s) && SQN_MAX - SQN_IND < s.ue && rounds != [] && NoIncrements(rounds)
    ensures NeverReaches(s, rounds) <==> s.net < s.ue
  {
    assert (s.net + rounds[0].incs) % (SQN_MAX + 1) == s.net;
  }

  // The keys written out.

  /**
    RES* and KAMF as digests of tagged strings: RES* is the second half of the digest over serving
    network, RAND and RES under FC 0x6B; KAMF is the last of three digests, under FC 0x6A, 0x6C, 0x6D.
   */
  lemma KeysWrittenOut(u: Usim, challenge: Block, rand: seq<byte>, sqnXorAk: seq<byte>, abba: seq<byte>)
    ensures var ckik := Ts.F3(u.e, u.opc, challenge) + Ts.F4(u.e, u.opc, challenge);
            var digest := u.hmac(ckik, [0x6B] + Kdf.Tagged([u.snn, rand, Ts.F2(u.e, u.opc, challenge)]));
            digest[..16] + ResStar(u, challenge, rand) == digest
    ensures var ckik := Ts.F3(u.e, u.opc, challenge) + Ts.F4(u.e, u.opc, challenge);
            var kausf := u.hmac(ckik, [0x6A] + Kdf.Tagged([u.snn, sqnXorAk]));
            var kseaf := u.hmac(kausf, [0x6C] + Kdf.Tagged([u.snn]));
            KamfChain(u, challenge, sqnXorAk, abba) == u.hmac(kseaf, [0x6D] + Kdf.Tagged([u.imsi, abba]))
  {
    Kdf.TaggedThree(u.snn, rand, Ts.F2(u.e, u.opc, challenge));
    Kdf.TaggedTwo(u.snn, sqnXorAk);
    Kdf.TaggedOne(u.snn);
    Kdf.TaggedTwo(u.imsi, abba);
  }

  /** The answer to an honest challenge and the keys it leaves, for SQN not behind, in digests. */
  lemma AgreementInDigests(u: Usim, a: AuthState, rand: Block, sqn: nat, abba: seq<byte>)
    requires |u.amf| == 2 && a.sqn <= sqn <= SQN_MAX
    ensures var o := Outcome(u, Challenged(a, rand), Autn(u, rand, sqn));
            var ckik := Ts.F3(u.e, u.opc, rand) + Ts.F4(u.e, u.opc, rand);
            var digest := u.hmac(ckik, [0x6B] + Kdf.Tagged([u.snn, rand, Ts.F2(u.e, u.opc, rand)]));
            o.Success? && digest[..16] + o.resStar == digest
    ensures var t := AfterAuth(u, Challenged(a, rand), Autn(u, rand, sqn), abba);
            var ckik := Ts.F3(u.e, u.opc, rand) + Ts.F4(u.e, u.opc, rand);
            var sqnXorAk := Xor(BigEndian(sqn, 6), Ts.F5(u.e, u.opc, rand));
            var kausf := u.hmac(ckik, [0x6A] + Kdf.Tagged([u.snn, sqnXorAk]));
            var kseaf := u.hmac(kausf, [0x6C] + Kdf.Tagged([u.snn]));
            t.sqn == sqn && t.kamf == u.hmac(kseaf, [0x6D] + Kdf.Tagged([u.imsi, abba]))
  {
    Agreement(u, a, rand, sqn, abba);
    KeysWrittenOut(u, rand, rand, Xor(BigEndian(sqn, 6), Ts.F5(u.e, u.opc, rand)), abba);
  }

  /** The network accepts a token as coming from a UE at sqn exactly when it is the AUTS of that UE. */
  lemma AutsAcceptedExactly(u: Usim, rand: Block, auts: seq<byte>, sqn: nat)
    requires |auts| == 14 && sqn <= SQN_MAX
    ensures CheckAuts(u.e, u.opc, auts, rand) == AutsCheck.Valid(BigEndian(sqn, 6)) <==> auts == Auts(u, rand, sqn)
  {
    AutsExactly(u.e, u.opc, auts, rand, BigEndian(sqn, 6));
  }
}
