/** The UE side of 5G-AKA: checking AUTN, answering, and deriving keys. */
module Auth {
  import opened Bytes
  import opened SqnCounter
  import opened MilenageObject
  import Kdf
  import Ts = Ts35206

  datatype Ksi = Ksi(id: nat, tsc: nat)

  /** What subscription and serving network fix for a UE; imsi is the SUPI after its "imsi-" prefix. */
  datatype Usim = Usim(e: Ts.Cipher, hmac: Kdf.Hmac, opc: Block, amf: seq<byte>, imsi: seq<byte>, snn: seq<byte>)

  /**
    What authentication changes: rand is the RAND of the last request as received,
    challenge the last RAND of the right size, which MILENAGE works on.
   */
  datatype AuthState = AuthState(sqn: nat, kamf: seq<byte>, rand: seq<byte>, challenge: Block, ngKsi: Ksi)

  datatype AuthOutcome = MacFailure | SyncFailure(auts: seq<byte>) | Success(resStar: seq<byte>)

  /** TS 33.501 Annex A.2, A.6 and A.7 on the CK || IK of a challenge. */
  function KamfChain(u: Usim, challenge: Block, sqnXorAk: seq<byte>, abba: seq<byte>): seq<byte> {
    var ckik := Ts.F3(u.e, u.opc, challenge) + Ts.F4(u.e, u.opc, challenge);
    var kausf := u.hmac(ckik, Kdf.SKausf(u.snn, sqnXorAk));
    var kseaf := u.hmac(kausf, Kdf.SKseaf(u.snn));
    u.hmac(kseaf, Kdf.SKamf(u.imsi, abba))
  }

  /** TS 33.501 Annex A.4: the 128 least significant bits. */
  function ResStar(u: Usim, challenge: Block, rand: seq<byte>): seq<byte> {
    var ckik := Ts.F3(u.e, u.opc, challenge) + Ts.F4(u.e, u.opc, challenge);
    u.hmac(ckik, Kdf.SResStar(u.snn, rand, Ts.F2(u.e, u.opc, challenge)))[16..]
  }

  /** TS 33.102 section 6.3.3: AUTS carries the UE's SQN concealed, and MAC-S over the dummy AMF. */
  function Auts(u: Usim, challenge: Block, sqn: nat): (auts: seq<byte>)
    ensures |auts| == 14
  {
    var s := BigEndian(sqn, 6);
    Xor(s, Ts.F5Star(u.e, u.opc, challenge)) + Ts.F1Star(u.e, u.opc, challenge, s, [0, 0])
  }

  /** The SQN concealed in AUTN. */
  function SqnIn(u: Usim, challenge: Block, autn: seq<byte>): (sqn: seq<byte>)
    requires |autn| >= 6
    ensures |sqn| == 6
  {
    Xor(autn[..6], Ts.F5(u.e, u.opc, challenge))
  }

  /** MAC-A is recomputed with the configured AMF; an AMF of the wrong size gives an empty MAC. */
  function ExpectedMac(u: Usim, challenge: Block, sqn: seq<byte>): seq<byte>
    requires |sqn| == 6
  {
    if |u.amf| == 2 then Ts.F1(u.e, u.opc, challenge, sqn, u.amf) else []
  }

  predicate MacMatches(u: Usim, challenge: Block, autn: seq<byte>)
    requires |autn| >= 8
  {
    ExpectedMac(u, challenge, SqnIn(u, challenge, autn)) == autn[8..]
  }

  /** With MAC-A right, the network's SQN decides: an equal one is accepted. */
  function SqnOutcome(u: Usim, a: AuthState, netSqn: seq<byte>): AuthOutcome {
    if a.sqn > BeNat(netSqn) then SyncFailure(Auts(u, a.challenge, a.sqn)) else Success(ResStar(u, a.challenge, a.rand))
  }

  /** Success takes over the network's SQN and derives KAMF; a synchronisation failure changes nothing. */
  function AfterSqn(u: Usim, a: AuthState, netSqn: seq<byte>, sqnXorAk: seq<byte>, abba: seq<byte>): AuthState {
    if a.sqn > BeNat(netSqn) then a
    else a.(sqn := BeNat(netSqn), kamf := KamfChain(u, a.challenge, sqnXorAk, abba))
  }

  /** The three outcomes: MAC failure, synchronisation failure, success. */
  function Outcome(u: Usim, a: AuthState, autn: seq<byte>): AuthOutcome
    requires |autn| >= 8
  {
    if MacMatches(u, a.challenge, autn) then SqnOutcome(u, a, SqnIn(u, a.challenge, autn)) else MacFailure
  }

  /** Only success changes anything: it adopts the network's SQN and derives KAMF from AUTN as received. */
  function AfterAuth(u: Usim, a: AuthState, autn: seq<byte>, abba: seq<byte>): AuthState
    requires |autn| >= 8
  {
    if MacMatches(u, a.challenge, autn) then AfterSqn(u, a, SqnIn(u, a.challenge, autn), autn[..6], abba) else a
  }

  class AuthContext {
    const hmac: Kdf.Hmac
    const supi: seq<byte>
    const amf: seq<byte>
    const sqn: Sqn
    const milenage: Milenage
    var snn: seq<byte>
    var kamf: seq<byte>
    var rand: seq<byte>
    var ngKsi: Ksi

    ghost predicate Valid()
      reads this, sqn, milenage.opc, milenage.randxor, milenage.rand
    {
      |supi| >= 5 && sqn.Valid() && milenage.Valid()
    }

    ghost function Subscription(): Usim
      requires milenage.Shape()
      reads this, milenage.opc
    {
      Usim(milenage.block, hmac, milenage.opc[..], amf, if |supi| >= 5 then supi[5..] else [], snn)
    }

    ghost function State(): AuthState
      requires milenage.Shape()
      reads this, sqn, milenage.rand
    {
      AuthState(sqn.value, kamf, rand, milenage.rand[..], ngKsi)
    }

    constructor (hmac: Kdf.Hmac, supi: seq<byte>, amf: seq<byte>, milenage: Milenage)
      requires |supi| >= 5 && milenage.Valid()
      ensures Valid() && fresh(sqn) && this.milenage == milenage
      ensures Subscription() == Usim(milenage.block, hmac, milenage.opc[..], amf, supi[5..], [])
      ensures State() == AuthState(0, [], [], milenage.rand[..], Ksi(0, 0))
    {
      this.hmac, this.supi, this.amf, this.milenage := hmac, supi, amf, milenage;
      sqn := new Sqn();
      snn, kamf, rand, ngKsi := [], [], [], Ksi(0, 0);
    }

    /** The serving network is named when the RRC connection is set up. */
    method SetServingNetwork(name: seq<byte>)
      requires Valid()
      modifies this`snn
      ensures Valid() && Subscription() == old(Subscription()).(snn := name) && State() == old(State())
    {
      snn := name;
    }

    /** The masking loop over the six octets of a sequence number. */
    method MaskSqn(a: seq<byte>, b: seq<byte>) returns (masked: seq<byte>)
      requires |a| == |b| == 6
      ensures masked == Xor(a, b)
    {
      var out := new byte[6];
      for i := 0 to 6
        invariant forall j :: 0 <= j < i ==> out[j] == a[j] ^ b[j]
      {
        out[i] := a[i] ^ b[i];
      }
      masked := out[..];
    }

    /** Step 4.1: conceal the UE's own SQN and authenticate it over the dummy AMF. */
    method PrepareAuts(ueSqn: seq<byte>) returns (auts: seq<byte>)
      requires Valid() && ueSqn == BigEndian(sqn.value, 6)
      ensures auts == Auts(Subscription(), milenage.rand[..], sqn.value)
    {
      var akStar := milenage.F5star();
      var _, macS, _ := milenage.F1(ueSqn, [0, 0]);
      var sqnXorAk := MaskSqn(ueSqn, akStar);
      auts := sqnXorAk + macS;
    }

    /** Step 5: the chain from CK || IK to KAMF. */
    method DeriveKamf(key: seq<byte>, netSqn: seq<byte>, ak: seq<byte>, abba: seq<byte>) returns (derived: seq<byte>)
      requires Valid() && |netSqn| == |ak| == 6
      ensures var kausf := hmac(key, Kdf.SKausf(snn, Xor(netSqn, ak)));
              derived == hmac(hmac(kausf, Kdf.SKseaf(snn)), Kdf.SKamf(supi[5..], abba))
    {
      var sqnXorAk := MaskSqn(netSqn, ak);
      var kAusf, _ := Kdf.KAUSF(hmac, key, snn, sqnXorAk);
      Kdf.TaggedOne(snn);
      var kSeaf, _ := Kdf.SeafKey(hmac, kAusf, [snn]);
      var kamf', _ := Kdf.KAMF(hmac, kSeaf, supi[5..], abba);
      return kamf';
    }

    /** Steps 2 and 3: unmask the network's SQN and compare MAC-A. */
    method VerifyMac(autn: seq<byte>, ak: seq<byte>) returns (netSqn: seq<byte>, ok: bool)
      requires Valid() && |autn| >= 8 && ak == Ts.F5(milenage.block, milenage.opc[..], milenage.rand[..])
      ensures netSqn == SqnIn(Subscription(), milenage.rand[..], autn)
      ensures ok == MacMatches(Subscription(), milenage.rand[..], autn)
    {
      var sqnXorAk := autn[..6];
      var netMacA := autn[8..];
      netSqn := MaskSqn(sqnXorAk, ak);
      var macA, _, _ := milenage.F1(netSqn, amf);
      ok := macA == netMacA;
    }

    /** Steps 4 to 6: compare sequence numbers, then answer with AUTS, or update SQN, KAMF and answer with RES*. */
    method CheckSqn(netSqn: seq<byte>, key: seq<byte>, res: seq<byte>, ak: seq<byte>, abba: seq<byte>)
      returns (outcome: AuthOutcome)
      requires Valid() && |netSqn| == |ak| == 6
      requires key == Ts.F3(milenage.block, milenage.opc[..], milenage.rand[..]) +
                      Ts.F4(milenage.block, milenage.opc[..], milenage.rand[..])
      requires res == Ts.F2(milenage.block, milenage.opc[..], milenage.rand[..])
      modifies this`kamf, sqn
      ensures Valid() && Subscription() == old(Subscription())
      ensures outcome == SqnOutcome(Subscription(), old(State()), netSqn)
      ensures State() == AfterSqn(Subscription(), old(State()), netSqn, Xor(netSqn, ak), abba)
    {
      var tmpSqn := new Sqn();
      tmpSqn.Set(netSqn);
      assert netSqn[..6] == netSqn;
      if sqn.value > tmpSqn.value {
        var ueSqn := sqn.Bytes();
        var auts := PrepareAuts(ueSqn);
        return SyncFailure(auts);
      }
      sqn.Set(netSqn);
      var derived := DeriveKamf(key, netSqn, ak, abba);
      kamf := derived;
      var _, output, _ := Kdf.ResstarXresstar(hmac, key, snn, rand, res);
      return Success(output);
    }

    method ProcessAuthenticationInfo(autn: seq<byte>, abba: seq<byte>) returns (outcome: AuthOutcome)
      requires Valid() && |autn| >= 8
      modifies this`kamf, sqn
      ensures Valid() && Subscription() == old(Subscription())
      ensures outcome == Outcome(Subscription(), old(State()), autn)
      ensures State() == AfterAuth(Subscription(), old(State()), autn, abba)
    {
      var res, ak := milenage.F2F5();
      var ck := milenage.F3();
      var ik := milenage.F4();
      var netSqn, ok := VerifyMac(autn, ak);
      if !ok {
        return MacFailure;
      }
      XorCancel(autn[..6], ak);
      outcome := CheckSqn(netSqn, ck + ik, res, ak, abba);
    }
  }
}
