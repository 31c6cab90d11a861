/** The 5G security context: access-stratum keys, the next-hop chain, and KAMF re-derivation. */
module SecurityContexts {
  import opened Bytes
  import opened Auth

  const ACCESS_3GPP: byte := 1
  const ACCESS_NON_3GPP: byte := 2
  const HDP_HANDOVER := 1
  const HDP_MOBILITY_UPDATE := 2

  datatype KeyResult = KeyResult(key: seq<byte>, err: bool)

  /** The key library: arbitrary functions that may fail, and whether a NAS context takes given keys. */
  datatype Library = Library(
    ranKey: (seq<byte>, seq<byte>, seq<byte>) -> KeyResult,
    nhKey: (seq<byte>, seq<byte>) -> KeyResult,
    kamfPrime: (seq<byte>, seq<byte>, seq<byte>) -> KeyResult,
    nasKeysTaken: (bool, nat, nat, seq<byte>) -> bool)

  datatype NasKeys = NasKeys(encAlg: nat, intAlg: nat, kamf: seq<byte>)

  /** requested is what keys were last asked for, whether or not the derivation succeeded. */
  datatype NasState = NasState(ul: nat, dl: nat, requested: Option<NasKeys>)

  datatype SecState = SecState(
    ngKsi: Ksi, kamf: seq<byte>, kgnb: seq<byte>, kn3iwf: seq<byte>, nh: seq<byte>, ncc: nat,
    gpp: NasState, nonGpp: NasState)

  datatype Step = Step(s: SecState, err: bool)

  /** Annex A.9: KgNB and KN3IWF from KAMF and the uplink NAS counts. */
  function AnKeys(lib: Library, s: SecState): Step {
    var k := lib.ranKey(s.kamf, BigEndian(s.gpp.ul, 4), [ACCESS_3GPP]);
    if k.err then Step(s.(kgnb := k.key), true)
    else
      var n := lib.ranKey(s.kamf, BigEndian(s.nonGpp.ul, 4), [ACCESS_NON_3GPP]);
      Step(s.(kgnb := k.key, kn3iwf := n.key), n.err)
  }

  /** Annex A.10: the first NH comes from KgNB. */
  function AsKeys(lib: Library, s: SecState): Step {
    var an := AnKeys(lib, s);
    if an.err then an
    else
      var n := lib.nhKey(an.s.kamf, an.s.kgnb);
      Step(an.s.(nh := n.key, ncc := 1), n.err)
  }

  function NextHop(lib: Library, s: SecState): Step {
    var n := lib.nhKey(s.kamf, s.nh);
    Step(s.(nh := n.key, ncc := (s.ncc + 1) % 8), n.err)
  }

  /** The KAMF a NAS key derivation works with; no horizontal derivation keeps the current one. */
  function NewKamf(lib: Library, s: SecState, hdp: nat): KeyResult {
    if hdp == HDP_HANDOVER then lib.kamfPrime(s.kamf, [1], BigEndian(s.gpp.dl, 4))
    else if hdp == HDP_MOBILITY_UPDATE then lib.kamfPrime(s.kamf, [0], BigEndian(s.gpp.ul, 4))
    else KeyResult(s.kamf, false)
  }

  /** KAMF is replaced only when both NAS contexts have taken their keys. */
  function DeriveNas(lib: Library, s: SecState, encAlg: nat, intAlg: nat, hdp: nat): Step {
    var k := NewKamf(lib, s, hdp);
    var keys := Some(NasKeys(encAlg, intAlg, k.key));
    if k.err then Step(s, true)
    else if !lib.nasKeysTaken(true, encAlg, intAlg, k.key) then Step(s.(gpp := s.gpp.(requested := keys)), true)
    else
      var s' := s.(gpp := s.gpp.(requested := keys), nonGpp := s.nonGpp.(requested := keys));
      if !lib.nasKeysTaken(false, encAlg, intAlg, k.key) then Step(s', true) else Step(s'.(kamf := k.key), false)
  }

  class NasContext {
    const isGpp: bool
    var ulCounter: nat
    var dlCounter: nat
    var requested: Option<NasKeys>

    ghost function State(): NasState
      reads this
    {
      NasState(ulCounter, dlCounter, requested)
    }

    constructor (isGpp: bool)
      ensures this.isGpp == isGpp && State() == NasState(0, 0, None)
    {
      this.isGpp, ulCounter, dlCounter, requested := isGpp, 0, 0, None;
    }

    method DeriveKeys(lib: Library, encAlg: nat, intAlg: nat, kamf: seq<byte>) returns (err: bool)
      modifies this`requested
      ensures requested == Some(NasKeys(encAlg, intAlg, kamf))
      ensures err <==> !lib.nasKeysTaken(isGpp, encAlg, intAlg, kamf)
    {
      requested := Some(NasKeys(encAlg, intAlg, kamf));
      err := !lib.nasKeysTaken(isGpp, encAlg, intAlg, kamf);
    }
  }

  class SecurityContext {
    const gppNas: NasContext
    const nonGppNas: NasContext
    const ngKsi: Ksi
    var kamf: seq<byte>
    var kgnb: seq<byte>
    var kn3iwf: seq<byte>
    var nh: seq<byte>
    var ncc: nat

    ghost predicate Valid()
      reads this
    {
      gppNas != nonGppNas && gppNas.isGpp && !nonGppNas.isGpp && ncc < 8
    }

    ghost function State(): SecState
      reads this, gppNas, nonGppNas
    {
      SecState(ngKsi, kamf, kgnb, kn3iwf, nh, ncc, gppNas.State(), nonGppNas.State())
    }

    constructor (ksi: Ksi, kamf: seq<byte>)
      ensures Valid() && fresh(gppNas) && fresh(nonGppNas)
      ensures State() == SecState(ksi, kamf, [], [], [], 0, NasState(0, 0, None), NasState(0, 0, None))
    {
      ngKsi, this.kamf, kgnb, kn3iwf, nh, ncc := ksi, kamf, [], [], [], 0;
      gppNas := new NasContext(true);
      nonGppNas := new NasContext(false);
    }

    method CreateAnKey(lib: Library) returns (err: bool)
      requires Valid()
      modifies this`kgnb, this`kn3iwf
      ensures Valid() && Step(State(), err) == AnKeys(lib, old(State()))
    {
      var p0 := BigEndian(gppNas.ulCounter, 4);
      var p1 := [ACCESS_3GPP];
      var r := lib.ranKey(kamf, p0, p1);
      kgnb, err := r.key, r.err;
      if err {
        return;
      }
      p1 := [ACCESS_NON_3GPP];
      p0 := BigEndian(nonGppNas.ulCounter, 4);
      r := lib.ranKey(kamf, p0, p1);
      kn3iwf, err := r.key, r.err;
    }

    method CreateNh(lib: Library, syncInput: seq<byte>) returns (err: bool)
      requires Valid()
      modifies this`nh
      ensures Valid() && State() == old(State()).(nh := lib.nhKey(old(kamf), syncInput).key)
      ensures err == lib.nhKey(old(kamf), syncInput).err
    {
      var r := lib.nhKey(kamf, syncInput);
      nh, err := r.key, r.err;
    }

    method DeriveAsKeys(lib: Library) returns (err: bool)
      requires Valid()
      modifies this
      ensures Valid() && Step(State(), err) == AsKeys(lib, old(State()))
    {
      err := CreateAnKey(lib);
      if err {
        return;
      }
      err := CreateNh(lib, kgnb);
      ncc := 1;
    }

    method UpdateNh(lib: Library) returns (err: bool)
      requires Valid()
      modifies this`nh, this`ncc
      ensures Valid() && Step(State(), err) == NextHop(lib, old(State()))
    {
      ncc := (ncc + 1) % 256;  // an 8-bit counter
      ncc := ncc % 8;          // masked with 7
      err := CreateNh(lib, nh);
    }

    method DeriveNasKeys(lib: Library, encAlg: nat, intAlg: nat, hdp: nat) returns (err: bool)
      requires Valid()
      modifies this`kamf, gppNas`requested, nonGppNas`requested
      ensures Valid() && Step(State(), err) == DeriveNas(lib, old(State()), encAlg, intAlg, hdp)
    {
      var k: KeyResult;
      if hdp == HDP_HANDOVER {
        k := lib.kamfPrime(kamf, [1], BigEndian(gppNas.dlCounter, 4));
      } else if hdp == HDP_MOBILITY_UPDATE {
        k := lib.kamfPrime(kamf, [0], BigEndian(gppNas.ulCounter, 4));
      } else {
        k := KeyResult(kamf, false);
      }
      if k.err {
        return true;
      }
      err := gppNas.DeriveKeys(lib, encAlg, intAlg, k.key);
      if err {
        return;
      }
      err := nonGppNas.DeriveKeys(lib, encAlg, intAlg, k.key);
      if err {
        return;
      }
      kamf := k.key;
    }
  }

  // Histories.

  /** What happens to a context after its access-stratum keys exist; Traffic moves the NAS counts. */
  datatype Event = Hop | NasDerivation(encAlg: nat, intAlg: nat, hdp: nat) | Traffic(ul: nat, dl: nat, nonGppUl: nat)

  function After(lib: Library, s: SecState, e: Event): SecState {
    match e
    case Hop => NextHop(lib, s).s
    case NasDerivation(encAlg, intAlg, hdp) => DeriveNas(lib, s, encAlg, intAlg, hdp).s
    case Traffic(ul, dl, nul) => s.(gpp := s.gpp.(ul := ul, dl := dl), nonGpp := s.nonGpp.(ul := nul))
  }

  function Run(lib: Library, s: SecState, h: seq<Event>): SecState {
    if h == [] then s else After(lib, Run(lib, s, h[..|h| - 1]), h[|h| - 1])
  }

  /** The KAMF in force at each hop of a history. */
  function KamfsAtHops(lib: Library, s: SecState, h: seq<Event>): seq<seq<byte>> {
    if h == [] then []
    else
      var before := h[..|h| - 1];
      KamfsAtHops(lib, s, before) + if h[|h| - 1].Hop? then [Run(lib, s, before).kamf] else []
  }

  /** The NH function applied once for each KAMF, first to last. */
  function NhChain(lib: Library, start: seq<byte>, kamfs: seq<seq<byte>>): seq<byte> {
    if kamfs == [] then start
    else lib.nhKey(kamfs[|kamfs| - 1], NhChain(lib, start, kamfs[..|kamfs| - 1])).key
  }

  /** The NH function under one KAMF, iterated. */
  function Iterate(lib: Library, kamf: seq<byte>, start: seq<byte>, n: nat): seq<byte> {
    if n == 0 then start else lib.nhKey(kamf, Iterate(lib, kamf, start, n - 1)).key
  }

  function Hops(h: seq<Event>): nat {
    if h == [] then 0 else Hops(h[..|h| - 1]) + if h[|h| - 1].Hop? then 1 else 0
  }

  lemma HopStep(lib: Library, s: SecState, e: Event)
    ensures var t := After(lib, s, e);
            t.kgnb == s.kgnb &&
            if e.Hop? then t.nh == lib.nhKey(s.kamf, s.nh).key && t.ncc == (s.ncc + 1) % 8
            else t.nh == s.nh && t.ncc == s.ncc
  {
  }

  lemma {:induction false} ChainGrows(lib: Library, s: SecState, h: seq<Event>)
    requires s.ncc < 8
    ensures var t := Run(lib, s, h);
            t.nh == NhChain(lib, s.nh, KamfsAtHops(lib, s, h)) && t.ncc == (s.ncc + Hops(h)) % 8 && t.kgnb == s.kgnb
    ensures |KamfsAtHops(lib, s, h)| == Hops(h)
  {
    if h != [] {
      var before, e := h[..|h| - 1], h[|h| - 1];
      ChainGrows(lib, s, before);
      HopStep(lib, Run(lib, s, before), e);
      if e.Hop? {
        ChainAppend(lib, s.nh, KamfsAtHops(lib, s, before), Run(lib, s, before).kamf);
        CountNext(s.ncc + Hops(before));
      } else {
        assert KamfsAtHops(lib, s, h) == KamfsAtHops(lib, s, before);
      }
    }
  }

  lemma ChainAppend(lib: Library, start: seq<byte>, kamfs: seq<seq<byte>>, kamf: seq<byte>)
    ensures NhChain(lib, start, kamfs + [kamf]) == lib.nhKey(kamf, NhChain(lib, start, kamfs)).key
  {
    assert (kamfs + [kamf])[..|kamfs|] == kamfs;
  }

  lemma CountNext(n: nat)
    ensures (n % 8 + 1) % 8 == (n + 1) % 8
  {
  }

  lemma {:induction false} ChainFromStart(lib: Library, start: seq<byte>, kamf: seq<byte>, kamfs: seq<seq<byte>>)
    ensures NhChain(lib, start, [kamf] + kamfs) == NhChain(lib, lib.nhKey(kamf, start).key, kamfs)
  {
    var all := [kamf] + kamfs;
    if kamfs == [] {
      assert all[..0] == [] && all == [kamf];
    } else {
      ChainFromStart(lib, start, kamf, kamfs[..|kamfs| - 1]);
      assert all[..|all| - 1] == [kamf] + kamfs[..|kamfs| - 1];
    }
  }

  /** Whatever happens between hops, NH is the chain over the KAMFs in force and NCC counts it modulo 8. */
  lemma NhChainOverHistory(lib: Library, s: SecState, h: seq<Event>)
    requires !AnKeys(lib, s).err
    ensures var s1 := AsKeys(lib, s).s;
            var t, kamfs := Run(lib, s1, h), [s.kamf] + KamfsAtHops(lib, s1, h);
            t.nh == NhChain(lib, s1.kgnb, kamfs) && t.ncc == |kamfs| % 8 && |kamfs| == Hops(h) + 1 &&
            t.kgnb == s1.kgnb
  {
    var s1 := AsKeys(lib, s).s;
    ChainGrows(lib, s1, h);
    ChainFromStart(lib, s1.kgnb, s.kamf, KamfsAtHops(lib, s1, h));
  }

  ghost predicate KamfKept(lib: Library, s: SecState, h: seq<Event>) {
    forall i :: 0 <= i <= |h| ==> Run(lib, s, h[..i]).kamf == s.kamf
  }

  lemma {:induction false} ConstantChain(lib: Library, s: SecState, h: seq<Event>, start: seq<byte>)
    requires KamfKept(lib, s, h)
    ensures NhChain(lib, start, [s.kamf] + KamfsAtHops(lib, s, h)) == Iterate(lib, s.kamf, start, Hops(h) + 1)
  {
    if h == [] {
      assert [s.kamf][..0] == [];
      assert Iterate(lib, s.kamf, start, 1) == lib.nhKey(s.kamf, Iterate(lib, s.kamf, start, 0)).key;
    } else {
      var n := |h| - 1;
      var before := h[..n];
      forall i | 0 <= i <= n ensures Run(lib, s, before[..i]).kamf == s.kamf {
        assert before[..i] == h[..i];
      }
      ConstantChain(lib, s, before, start);
      var kamfs := [s.kamf] + KamfsAtHops(lib, s, h);
      if h[n].Hop? {
        assert Run(lib, s, h[..n]).kamf == s.kamf;
        assert kamfs[..|kamfs| - 1] == [s.kamf] + KamfsAtHops(lib, s, before);
      } else {
        assert KamfsAtHops(lib, s, h) == KamfsAtHops(lib, s, before);
      }
    }
  }

  /** With KAMF unchanged, n hops leave NH iterated n + 1 times from KgNB, and NCC = (n + 1) mod 8. */
  lemma NextHopCount(lib: Library, s: SecState, h: seq<Event>)
    requires !AnKeys(lib, s).err && KamfKept(lib, AsKeys(lib, s).s, h)
    ensures var t := Run(lib, AsKeys(lib, s).s, h);
            t.nh == Iterate(lib, s.kamf, t.kgnb, Hops(h) + 1) && t.ncc == (Hops(h) + 1) % 8
  {
    NhChainOverHistory(lib, s, h);
    ConstantChain(lib, AsKeys(lib, s).s, h, AsKeys(lib, s).s.kgnb);
  }

  /** One horizontal derivation: its direction octet and the NAS count it used. */
  datatype Horizontal = Horizontal(direction: byte, count: nat)

  function FoldKamf(lib: Library, kamf: seq<byte>, ds: seq<Horizontal>): seq<byte> {
    if ds == [] then kamf
    else
      var d := ds[|ds| - 1];
      lib.kamfPrime(FoldKamf(lib, kamf, ds[..|ds| - 1]), [d.direction], BigEndian(d.count, 4)).key
  }

  /** The horizontal derivation an event completes without any error, if it does. */
  function Completed(lib: Library, s: SecState, e: Event): seq<Horizontal> {
    if e.NasDerivation? && !DeriveNas(lib, s, e.encAlg, e.intAlg, e.hdp).err then
      if e.hdp == HDP_HANDOVER then [Horizontal(1, s.gpp.dl)]
      else if e.hdp == HDP_MOBILITY_UPDATE then [Horizontal(0, s.gpp.ul)]
      else []
    else []
  }

  function Succeeded(lib: Library, s: SecState, h: seq<Event>): seq<Horizontal> {
    if h == [] then []
    else
      var before := h[..|h| - 1];
      Succeeded(lib, s, before) + Completed(lib, Run(lib, s, before), h[|h| - 1])
  }

  lemma KamfStep(lib: Library, s: SecState, e: Event)
    ensures var ds := Completed(lib, s, e);
            |ds| <= 1 &&
            After(lib, s, e).kamf ==
              if ds == [] then s.kamf
              else lib.kamfPrime(s.kamf, [ds[0].direction], BigEndian(ds[0].count, 4)).key
  {
  }

  /** KAMF is the fold of exactly the derivations that fully succeeded; half-done ones leave no trace in it. */
  lemma {:induction false} KamfIsFold(lib: Library, s: SecState, h: seq<Event>)
    ensures Run(lib, s, h).kamf == FoldKamf(lib, s.kamf, Succeeded(lib, s, h))
  {
    if h != [] {
      var before, e := h[..|h| - 1], h[|h| - 1];
      KamfIsFold(lib, s, before);
      KamfStep(lib, Run(lib, s, before), e);
      FoldAppend(lib, s.kamf, Succeeded(lib, s, before), Completed(lib, Run(lib, s, before), e));
    }
  }

  lemma FoldAppend(lib: Library, kamf: seq<byte>, ds: seq<Horizontal>, last: seq<Horizontal>)
    requires |last| <= 1
    ensures FoldKamf(lib, kamf, ds + last) ==
              if last == [] then FoldKamf(lib, kamf, ds)
              else lib.kamfPrime(FoldKamf(lib, kamf, ds), [last[0].direction], BigEndian(last[0].count, 4)).key
  {
    if last == [] {
      assert ds + last == ds;
    } else {
      assert (ds + last)[..|ds + last| - 1] == ds;
    }
  }

  ghost predicate InStep(s: SecState) {
    s.gpp.requested.Some? && s.nonGpp.requested == s.gpp.requested && s.gpp.requested.value.kamf == s.kamf
  }

  /**
    A NAS key derivation leaves both NAS contexts and the security context on one KAMF whenever it
    reports success; on failure KAMF stays, and the 3GPP context is ahead of it exactly when a
    derived KAMF' differs and reached it.
   */
  lemma DerivationKeepsStep(lib: Library, s: SecState, encAlg: nat, intAlg: nat, hdp: nat)
    ensures var r := DeriveNas(lib, s, encAlg, intAlg, hdp);
            (!r.err ==> InStep(r.s)) && (r.err ==> r.s.kamf == s.kamf)
    ensures var r, k := DeriveNas(lib, s, encAlg, intAlg, hdp), NewKamf(lib, s, hdp);
            InStep(s) && r.err ==> (r.s.gpp.requested.value.kamf != r.s.kamf <==> !k.err && k.key != s.kamf)
  {
  }

  /** Annexes A.9 and A.10 written out: which key comes from what, and what a failure leaves behind. */
  lemma AccessKeysExactly(lib: Library, s: SecState)
    ensures var g := lib.ranKey(s.kamf, BigEndian(s.gpp.ul, 4), [1]);
            var n := lib.ranKey(s.kamf, BigEndian(s.nonGpp.ul, 4), [2]);
            var first := lib.nhKey(s.kamf, g.key);
            var r := AsKeys(lib, s);
            (r.err <==> g.err || n.err || first.err) && r.s.kgnb == g.key &&
            r.s.kn3iwf == (if g.err then s.kn3iwf else n.key) &&
            (r.s.nh, r.s.ncc) == (if g.err || n.err then (s.nh, s.ncc) else (first.key, 1)) &&
            r.s.kamf == s.kamf && r.s.ngKsi == s.ngKsi && r.s.gpp == s.gpp && r.s.nonGpp == s.nonGpp
  {
  }

  /** Annex A.13: direction 1 with the downlink count in a handover, 0 with the uplink count in a mobility update. */
  lemma HorizontalExactly(lib: Library, s: SecState, encAlg: nat, intAlg: nat, hdp: nat)
    ensures var k := if hdp == 1 then lib.kamfPrime(s.kamf, [1], BigEndian(s.gpp.dl, 4))
                     else if hdp == 2 then lib.kamfPrime(s.kamf, [0], BigEndian(s.gpp.ul, 4))
                     else KeyResult(s.kamf, false);
            var r := DeriveNas(lib, s, encAlg, intAlg, hdp);
            (r.err <==> k.err || !lib.nasKeysTaken(true, encAlg, intAlg, k.key) ||
                        !lib.nasKeysTaken(false, encAlg, intAlg, k.key)) &&
            (!r.err ==> r.s.kamf == k.key && r.s.gpp.requested == Some(NasKeys(encAlg, intAlg, k.key)) &&
                        r.s.nonGpp.requested == Some(NasKeys(encAlg, intAlg, k.key)))
  {
  }
}
