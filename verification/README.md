# Verified model of the DU and UE simulator

A Dafny model of the protocol logic of the simulator, with proofs. `dafny verify dfyconfig.toml` checks all of it.

Every modelled operation that updates fields in the Go code is a method of a class with those fields. Its contract ties the
result and the whole new state to a function on values. What the code promises is proved about those functions:
over every message history, every interleaving and every input.

| files | content |
|---|---|
| `Bytes`, `Ts35206`, `Milenage` | octet strings; MILENAGE as TS 35.206 section 4.1 defines it, on bits; the index loops that refine it, and the AUTS check |
| `Sqn`, `Kdf`, `Auth`, `Aka` | the 48-bit counter; the KDF of TS 33.220 Annex B.2.0; AUTN verification; UE and home network composed, with resynchronisation |
| `SecCtx`, `Gmm`, `GmmRuns` | the security context and its NH chain; 5GMM message handling; histories of 5GMM messages |
| `Sessions`, `SessionRuns`, `SessionLocks`, `SessionAtomic`, `SessionRequests` | the PDU session table; runs of whole handlers; all interleavings of critical sections; their agreement with the whole handlers; release requests per activation |
| `Nas` | dispatch of NAS messages to 5GMM and sessions, and mixed histories of both |
| `Du`, `DuRuns`, `DuSetters` | handover role and state, measurement-driven trigger, uplink forwarder; runs of DU events; interleavings of single checks and setters |

AES under a key and HMAC-SHA-256 are arbitrary functions with results of the right size, so every theorem holds for any of them.
A fatal error or a run-time panic ends the process: `halted` in the UE, `crashed` in the DU.

Whether a message encodes, whether a send fails, what the random source delivers and what the network sends are inputs.

## Main results

- **MILENAGE.** The scatter loops compute f1 to f5* of the standard for all inputs, with the bit rotations and constants of the standard defined on bits.
- **Agreement.** `Aka.Agreement`, `Aka.MatchingIsHonest` and `Aka.OutcomesExactly` decide the three outcomes in both directions.
- **Resynchronisation.** It converges exactly up to an SQN of 2^48 - 1 - 32. Above that the network restarts from 0, and the UE refuses every challenge that does not count up from there to its own SQN.
- **KDF input.** Reading the parameters back works exactly when each is shorter than 65536 octets; a colliding pair shows why.
- **Answers and keys.** `Aka.AgreementInDigests` gives RES* and KAMF as digests of tagged strings, `Ts35206.F1InOctets` to `F5StarInOctets` the MILENAGE functions as octets.
- **5GMM histories.** When a context exists, whose KAMF it holds, when a command is completed, with which container, and when it panics, and the registration state are each settled for all histories. A resynchronisation ends in a registration, up to the bound.
- **Session table.** Whole-handler runs keep the life cycle and conserve slots. Slot ownership holds for every interleaving. The life cycle of removed sessions does not: `SessionLocks.RemovedExactly` and `MarkDecides` give the condition on the state, and `OvertakenCreate` a run. Nor is one release request per activation kept: `SessionRequests.DuplicatesExactly` says exactly when an activation draws two, `RequestsPerActivation` balances the whole run, and `DuplicateSent` is a run.
- **DU.** Role and state stay consistent, and handovers are requested once per idle period. A prepared target completes its handover exactly when no reset and no effective confirm intervenes. The uplink is forwarded in order and exactly once up to the first message whose handling dereferences nil; `DuRuns.FatalExactly` says which those are. The downlink queue is exactly the containers passed on, in order (`DuRuns.DownlinkInOrder`). Between goroutines the role and state invariant and the bound on requests survive, and a reset does not always (`DuSetters.TargetAgainExactly`).
- **Whole UE.** Each part is the run of its own events (`Nas.PartsRunAlone`), so the theorems about the parts hold of every mixed history.

## Where the code departs from its documents

The model follows the code.

- MAC-A is checked with the configured AMF, not with the field in AUTN (`internal/uecontext/auth.go:39-47`).
- A SQN equal to that of the UE is accepted (`internal/uecontext/auth.go:56`).
- `reset` falls to 0 instead of wrapping modulo 2^48 (`internal/uecontext/sec/sqn.go:44-48`).
- ngKSI and RAND are stored before AUTN is verified (`internal/uecontext/handle_n1mm.go:124-126`). `GmmRuns.KsiInStepExactly` says when the stored ngKSI still names the keys in use.
- A Security Mode Command naming the stored ngKSI without a security context dereferences nil (`internal/uecontext/handle_n1mm.go:209`).
- A Registration Accept whose identity is no 5G-GUTI formats the stored GUTI all the same, which is nil on a UE that has none (`internal/uecontext/handle_n1mm.go:234-236`, `internal/uecontext/ue.go:165-173`). The body of the library's method is not visible; formatting nil is taken to panic.
- An Establishment Accept does not look at the session's state (`internal/uecontext/handle_n1sm.go:93`); `SessionRuns.RevivedExactly` says when a session comes back by it.
- A Modification Confirm with a container makes any DU a source in execution, whatever its role (`internal/du/f1ap_handover.go:220-223`); `DuRuns.ConfirmLosesCompletion` is the target that loses its handover by it.
- A measurement report without a serving RSRP, or with an unreadable NR neighbour, ends the process (`internal/du/du_rrc_handler.go:97-123`).
- Checking and writing the state of a session are two critical sections (`internal/uecontext/trigger_pdu_session.go:64-70`).
- `test/handover_test.go:255-264` expects preparation after RACH monitoring starts; the code moves to execution (`internal/du/du_rach.go:45`).

## Model

| member | source | states |
|---|---|---|
| `SqnCounter.SetValueBound` | `internal/uecontext/sec/sqn.go:33-37` | Whatever octets `Set` is given, short or long, the counter stays within 2^48 - 1 |
| `SqnCounter.SetOfAny` | `internal/uecontext/sec/sqn.go:33-37` | `Set` on any string: the first six octets as a number, or, of a shorter one, its number times 256 for each missing octet |
| `SqnCounter.SetOfBytes` | `internal/uecontext/sec/sqn.go:19-37` | `Set` after `Bytes` is the identity on every 48-bit value |
| `SqnCounter.BytesOfSet` | `internal/uecontext/sec/sqn.go:19-37` | `Bytes` after `Set` is the identity on every string of six octets |
| `SqnCounter.OrderOfBytes` | `internal/uecontext/sec/sqn.go:19-41` | Comparing two counters as numbers is comparing their encodings as octet strings, lexicographically |
| `SqnCounter.NextNIsModular` | `internal/uecontext/sec/sqn.go:26-31` | n increments add n modulo 2^48 |
| `SqnCounter.ResetVersusIncrements` | `internal/uecontext/sec/sqn.go:44-48` | `reset` equals 32 increments after `Set` exactly when that does not pass 2^48; beyond, it falls to 0 instead of wrapping |
| `SqnCounter.Sqn.constructor` | `internal/uecontext/sec/sqn.go:14-16` | A new counter is 0 and in range |
| `SqnCounter.Sqn.Bytes` | `internal/uecontext/sec/sqn.go:19-23` | The last six of eight octets are exactly the 48-bit big-endian encoding |
| `SqnCounter.Sqn.Inc` | `internal/uecontext/sec/sqn.go:26-31` | From any 64-bit word, the counter is back in range; it wraps to 0 after 2^48 - 1 |
| `SqnCounter.Sqn.Set` | `internal/uecontext/sec/sqn.go:33-37` | The value is the number written by the first six octets, missing ones counting as 0 on the right |
| `SqnCounter.Sqn.Reset` | `internal/uecontext/sec/sqn.go:44-48` | Adding 31 in a 64-bit word and incrementing gives 32 more, or 0 when that does not fit in 48 bits |
| `Ts35206.RotateOctets` | `internal/uecontext/sec/milenage.go:145-149` | The left bit rotation by 8m positions of TS 35.206 moves octets by m places |
| `Ts35206.ConstantsInLastOctet` | `internal/uecontext/sec/milenage.go:123-144` | c2 to c5, defined by the bit position of their single one, are 1, 2, 4, 8 in octet 15 |
| `Ts35206.F1InOctets` | `internal/uecontext/sec/milenage.go:95-121` | MAC-A followed by MAC-S is one encryption, masked with OPc, of TEMP XOR the masked SQN, AMF, SQN, AMF turned left by eight octets |
| `Ts35206.F2F5InOctets` | `internal/uecontext/sec/milenage.go:123-126` | AK is octets 0 to 5 and RES octets 8 to 15 of one encryption of TEMP XOR OPc, not turned, XOR 1 in the last octet |
| `Ts35206.F3InOctets` | `internal/uecontext/sec/milenage.go:128-130` | CK: turned left by four octets, XOR 2 in the last octet |
| `Ts35206.F4InOctets` | `internal/uecontext/sec/milenage.go:132-134` | IK: turned left by eight octets, XOR 4 in the last octet |
| `Ts35206.F5StarInOctets` | `internal/uecontext/sec/milenage.go:136-139` | AK* is octets 0 to 5: turned left by twelve octets, XOR 8 in the last octet |
| `MilenageObject.ScatterStep` | `internal/uecontext/sec/milenage.go:107-111` | The write for octet n goes to a place no earlier one used, so each output octet is written once |
| `MilenageObject.ScatterRotates` | `internal/uecontext/sec/milenage.go:146-149` | Scattering octet i to (i + rot) mod 16 for all i is the rotation of the standard by 8(16 - rot) bits to the left (none for rot 0), XOR the constant |
| `MilenageObject.ScatterForF1` | `internal/uecontext/sec/milenage.go:106-111` | The f1 loop builds TEMP XOR rot(IN1 XOR OPc, 64) XOR c1, masks in the order of the standard |
| `MilenageObject.LastChallenge` | `internal/uecontext/sec/milenage.go:67-180` | Over any calls of `Refresh`, `SetRand` and `ValidateAuts`, the challenge is the last one set whole, wrong-sized calls notwithstanding |
| `MilenageObject.RefreshOctets` | `internal/uecontext/sec/milenage.go:67-68` | Octet by octet: a short delivery replaces the front of RAND and keeps the rest |
| `MilenageObject.AutsExactly` | `internal/uecontext/sec/milenage.go:159-180` | A token of 14 octets is accepted with a SQN if and only if it is that SQN concealed by f5* followed by f1* of it over AMF 0 |
| `MilenageObject.Milenage.NewMilenageEx` | `internal/uecontext/sec/milenage.go:34-64` | Fails exactly on a key or operator value that is not 16 octets; otherwise OPc is E(OP) XOR OP, or the OPc given, and the cached E(RAND XOR OPc) is right |
| `MilenageObject.Milenage.Refresh` | `internal/uecontext/sec/milenage.go:67-74` | A delivery of any length replaces the front of RAND, and the cache follows |
| `MilenageObject.Milenage.SetRand` | `internal/uecontext/sec/milenage.go:77-88` | An error exactly on a wrong size, which changes nothing; otherwise RAND is replaced, and the cache is right afterwards on either path |
| `MilenageObject.Milenage.MaskChallenge` | `internal/uecontext/sec/milenage.go:82-86` | The loop and encryption re-establish the cache E(RAND XOR OPc) |
| `MilenageObject.Milenage.FillIn1` | `internal/uecontext/sec/milenage.go:101-104` | The three copies build IN1 = SQN, AMF, SQN, AMF |
| `MilenageObject.Milenage.F1` | `internal/uecontext/sec/milenage.go:95-121` | f1 and f1* of TS 35.206 section 4.1 as the two halves of OUT1; an error exactly on wrong sizes; the object is unchanged |
| `MilenageObject.Milenage.ScatterIn1` | `internal/uecontext/sec/milenage.go:106-111` | The f1 loop, on the three arrays, gives the input of the second encryption in TS 35.206 |
| `MilenageObject.Milenage.XorInto` | `internal/uecontext/sec/milenage.go:115-117` | The loop XORs OPc into every octet |
| `MilenageObject.Milenage.EncryptAndMask` | `internal/uecontext/sec/milenage.go:113-117` | E(c) XOR OPc |
| `MilenageObject.Milenage.Operation` | `internal/uecontext/sec/milenage.go:141-157` | OUT2 to OUT5 of TS 35.206 for the rotation that the scatter amounts to and the constant in octet 15 |
| `MilenageObject.Milenage.F2F5` | `internal/uecontext/sec/milenage.go:123-126` | f2 and f5 of TS 35.206 (r2 = 0, c2) |
| `MilenageObject.Milenage.F3` | `internal/uecontext/sec/milenage.go:128-130` | f3 of TS 35.206 (r3 = 32, c3) |
| `MilenageObject.Milenage.F4` | `internal/uecontext/sec/milenage.go:132-134` | f4 of TS 35.206 (r4 = 64, c4) |
| `MilenageObject.Milenage.F5star` | `internal/uecontext/sec/milenage.go:136-139` | f5* of TS 35.206 (r5 = 96, c5) |
| `MilenageObject.Milenage.ValidateAuts` | `internal/uecontext/sec/milenage.go:159-180` | The three outcomes of a resynchronisation check against f1* and f5* of the standard with AMF 0; a token of the right size leaves its RAND set, with the cache right |
| `Kdf.KdfLen` | `internal/uecontext/sec/ueauth.go:22-26` | Two octets that read back as the length modulo 65536 |
| `Kdf.KDF` | `internal/uecontext/sec/ueauth.go:32-49` | The digest of FC, P0, L0, P1, L1, ... as TS 33.220 Annex B.2.0 writes it; an error exactly when FC is not hexadecimal |
| `Kdf.UntagTagged` | `internal/uecontext/sec/ueauth.go:22-42` | A parameter list of any length whose lengths fit in 16 bits can be read back from the tagged string, from its end |
| `Kdf.TaggedUntag` | `internal/uecontext/sec/ueauth.go:22-42` | Whatever reads back as parameters is the tagged string of exactly those |
| `Kdf.RoundTripExactly` | `internal/uecontext/sec/ueauth.go:22-42` | A list survives tagging and reading back if and only if every length fits in 16 bits |
| `Kdf.InputInjective` | `internal/uecontext/sec/ueauth.go:22-42` | Two FC codes with two parameter lists, of any counts, give the same string S only if they are equal |
| `Kdf.LongParameterCollides` | `internal/uecontext/sec/ueauth.go:22-27` | The bound is needed: one parameter of 65536 zero octets gives the string of 32769 empty parameters |
| `Kdf.FcCodes` | `internal/uecontext/sec/ueauth.go:10-20` | The four FC strings of the authentication chain decode to 0x6A, 0x6B, 0x6C, 0x6D |
| `Kdf.HexDecodesExactly` | `internal/uecontext/sec/ueauth.go:35-38` | An FC string decodes if and only if it is an even number of hexadecimal digits |
| `Kdf.HexDigitValue` | `internal/uecontext/sec/ueauth.go:35-38` | Each digit, upper or lower case, has its value |
| `Kdf.SeafKey` | `internal/uecontext/sec/ueauth.go:51-54` | TS 33.501 Annex A.6: never fails, FC 0x6C |
| `Kdf.KAMF` | `internal/uecontext/sec/ueauth.go:69-72` | TS 33.501 Annex A.7: never fails, the string S written out over SUPI and ABBA |
| `Kdf.KAUSF` | `internal/uecontext/sec/ueauth.go:78-81` | TS 33.501 Annex A.2: never fails, the string S written out over serving network name and SQN XOR AK |
| `Kdf.ResstarXresstar` | `internal/uecontext/sec/ueauth.go:93-101` | TS 33.501 Annex A.4: the two halves of the digest; RES* is the second |
| `Auth.AuthContext.constructor` | `internal/uecontext/ue.go:72-89` | A new context has SQN 0, no KAMF, the configured subscription, and no serving network yet |
| `Auth.AuthContext.SetServingNetwork` | `internal/uecontext/init.go:154-155` | RRC setup names the serving network, which enters every later key; SQN, KAMF and challenge stay |
| `Auth.AuthContext.MaskSqn` | `internal/uecontext/auth.go:42-44` | The six-octet XOR loop |
| `Auth.AuthContext.VerifyMac` | `internal/uecontext/auth.go:37-51` | Recovers the SQN concealed in AUTN and compares MAC-A computed with the configured AMF |
| `Auth.AuthContext.PrepareAuts` | `internal/uecontext/auth.go:58-69` | AUTS of TS 33.102 section 6.3.3 for the UE's own SQN |
| `Auth.AuthContext.DeriveKamf` | `internal/uecontext/auth.go:76-87` | The chain CK, IK to KAUSF, KSEAF, KAMF of TS 33.501 Annexes A.2, A.6, A.7 |
| `Auth.AuthContext.CheckSqn` | `internal/uecontext/auth.go:53-91` | With MAC-A right, the SQN comparison decides between AUTS and no change, or new SQN, KAMF and RES* |
| `Auth.AuthContext.ProcessAuthenticationInfo` | `internal/uecontext/auth.go:28-92` | Outcome and whole new state for every AUTN: MAC failure and sync failure change nothing, success takes over the SQN and derives KAMF from the first six octets of AUTN as received (masking twice cancels) |
| `Aka.HonestAutn` | `internal/uecontext/auth.go:37-51` | AUTN built as in TS 33.102 section 6.3.2 passes the MAC check and reveals exactly the SQN put in |
| `Aka.MatchingIsHonest` | `internal/uecontext/auth.go:37-51` | Conversely, a token whose MAC matches is the network's token for the SQN it conceals, in every octet but the AMF field |
| `Aka.AmfFieldIgnored` | `internal/uecontext/auth.go:39-47` | The AMF field of AUTN changes neither the verdict nor the SQN |
| `Aka.WrongAmfRefuses` | `internal/uecontext/auth.go:47-51` | With a configured AMF that is not two octets no token carrying a MAC is accepted |
| `Aka.Agreement` | `internal/uecontext/auth.go:28-91` | An honest challenge succeeds exactly when its SQN is not below the UE's (an equal one is accepted), and then SQN, KAMF and RES* are those of a network running the same chain on its own SQN |
| `Aka.KeysWrittenOut` | `internal/uecontext/auth.go:76-90` | RES* is the second half of the digest under CK, IK over FC 0x6B, serving network, RAND and RES; KAMF is the third of three digests, over FC 0x6A with SQN XOR AK, 0x6C, and 0x6D with SUPI and ABBA |
| `Aka.AgreementInDigests` | `internal/uecontext/auth.go:28-91` | For every honest challenge not behind, the answer and the KAMF left are those digests, with the SQN of the network |
| `Aka.OutcomesExactly` | `internal/uecontext/auth.go:46-74` | Each outcome if and only if: success for a token honest for some SQN >= the UE's, sync failure for one below, MAC failure for a token honest for none |
| `Aka.AutsRecovered` | `internal/uecontext/sec/milenage.go:159-180` | For every SQN and RAND, the AUTS of the UE passes `ValidateAuts`, which recovers exactly the SQN of the UE |
| `Aka.AutsAcceptedExactly` | `internal/uecontext/sec/milenage.go:159-180` | The network takes a token as coming from a UE at some SQN if and only if it is the AUTS of that UE |
| `Aka.NetRestarts` | `internal/uecontext/sec/sqn.go:44-48` | On that AUTS the network restarts at the SQN of the UE plus 32, or at 0 when this exceeds 2^48 - 1 |
| `Aka.RoundExactly` | `internal/uecontext/auth.go:53-74` | One round of challenge, answer and resynchronisation is one step on the two sequence numbers; a refused round leaves KAMF |
| `Aka.RunExactly` | `internal/uecontext/auth.go:53-74` | Over any sequence of rounds with any RANDs, which rounds are accepted and where both numbers end follows from the numbers alone |
| `Aka.ResynchronisationBound` | `internal/uecontext/sec/sqn.go:26-48` | After a sync failure the next honest challenge, any RAND, is accepted if and only if the UE's SQN is at most 2^48 - 1 - 32 (and, with increments in between, exactly when they reach it) |
| `Aka.StuckExactly` | `internal/uecontext/sec/sqn.go:26-48` | Above the bound a run of any length refuses every challenge if and only if no round counts up to the UE's SQN, the first from the network's number and each later one from 0; meanwhile the network restarts from 0 each time and the UE keeps SQN and KAMF |
| `Aka.ConvergesExactly` | `internal/uecontext/auth.go:53-74` | For a network that does not increment, a run of two or more challenges contains an accepted one if and only if the network was not behind or the UE is within the bound |
| `SecurityContexts.SecurityContext.constructor` | `internal/uecontext/sec/secctx.go:38-48` | Copies ngKSI and KAMF; no access-stratum key, NCC 0, fresh NAS contexts |
| `SecurityContexts.SecurityContext.CreateAnKey` | `internal/uecontext/sec/secctx.go:78-91` | KgNB and KN3IWF from KAMF and the uplink counts of the two accesses; a failure of the first leaves KN3IWF |
| `SecurityContexts.SecurityContext.CreateNh` | `internal/uecontext/sec/secctx.go:94-97` | NH is overwritten even by a failed derivation, and nothing else changes |
| `SecurityContexts.SecurityContext.DeriveAsKeys` | `internal/uecontext/sec/secctx.go:99-107` | First NH from KgNB and NCC 1; an access key failure leaves NH and NCC |
| `SecurityContexts.SecurityContext.UpdateNh` | `internal/uecontext/sec/secctx.go:109-113` | NH from NH, NCC one more modulo 8 although kept in eight bits |
| `SecurityContexts.SecurityContext.DeriveNasKeys` | `internal/uecontext/sec/secctx.go:116-150` | KAMF is replaced only when both NAS contexts took their keys; every failure point and what it leaves behind |
| `SecurityContexts.ChainGrows` | `internal/uecontext/sec/secctx.go:109-113` | Over any history of hops, NAS derivations and traffic, NH is the NH function applied once per hop under the KAMF then in force, and NCC counts hops modulo 8 |
| `SecurityContexts.NhChainOverHistory` | `internal/uecontext/sec/secctx.go:94-113` | The same from `DeriveAsKeys` on: the chain starts at KgNB and has one link more than hops |
| `SecurityContexts.NextHopCount` | `internal/uecontext/sec/secctx.go:94-113` | With KAMF unchanged, after n updates NH is the NH function iterated n + 1 times from KgNB and NCC = (n + 1) mod 8 (TS 33.501 Annex A.10) |
| `SecurityContexts.KamfIsFold` | `internal/uecontext/sec/secctx.go:116-150` | Over every history KAMF is the fold of exactly the horizontal derivations that fully succeeded |
| `SecurityContexts.DerivationKeepsStep` | `internal/uecontext/sec/secctx.go:137-149` | A reported success leaves both NAS contexts and the security context on one KAMF; a failure leaves the 3GPP context ahead exactly when a different KAMF' had reached it |
| `SecurityContexts.AccessKeysExactly` | `internal/uecontext/sec/secctx.go:78-107` | Which key comes from what: KgNB and KN3IWF from KAMF, the uplink counts in four octets and access types 1 and 2, NH from KgNB; and what each failure leaves behind |
| `SecurityContexts.HorizontalExactly` | `internal/uecontext/sec/secctx.go:116-150` | Direction 1 and downlink count in a handover, 0 and uplink count in a mobility update; both NAS contexts get the algorithms and KAMF asked for |
| `Gmm.UeContext.constructor` | `internal/uecontext/ue.go:57-98` | A new UE is deregistered, without security context or GUTI |
| `Gmm.UeContext.ResetSecurityContext` | `internal/uecontext/ue.go:141-146` | No context, ngKSI 7, the type of context flag kept |
| `Gmm.UeContext.TriggerInitRegistration` | `internal/uecontext/trigger.go:8-36` | Keeps the encoded request and registers; an encoding error changes nothing; nothing is sent |
| `Gmm.UeContext.HandleAuthenticationReject` | `internal/uecontext/handle_n1mm.go:88-93` | Deregistered, context dropped, ngKSI 7, nothing else changed or sent |
| `Gmm.UeContext.HandleRegistrationReject` | `internal/uecontext/handle_n1mm.go:95-99` | The same for a Registration Reject of any cause |
| `Gmm.UeContext.StoreChallenge` | `internal/uecontext/handle_n1mm.go:124-126` | ngKSI and RAND are stored unconditionally; a RAND of the wrong size leaves the MILENAGE challenge |
| `Gmm.UeContext.Authenticate` | `internal/uecontext/handle_n1mm.go:128-168` | Check, then exactly one answer per outcome, and a new context on success only |
| `Gmm.UeContext.Respond` | `internal/uecontext/handle_n1mm.go:131-168` | The switch on the outcome: which message goes out, and that only a success replaces the context |
| `Gmm.UeContext.HandleAuthenticationRequest` | `internal/uecontext/handle_n1mm.go:105-169` | Halts exactly on ngKSI 7, empty ABBA, missing RAND or AUTN (nothing stored), or an AUTN below eight octets (already stored); otherwise the whole new state and the one message sent |
| `Gmm.UeContext.HandleSecurityModeCommand` | `internal/uecontext/handle_n1mm.go:171-228` | Refused unless both parts of ngKSI match; panics without a context; otherwise Complete is sent, with the stored request exactly if asked for and present |
| `Gmm.UeContext.HandleRegistrationAccept` | `internal/uecontext/handle_n1mm.go:230-260` | Stores a 5G-GUTI only; panics, before anything is sent, exactly when an identity of another kind comes to a UE without GUTI; otherwise sends Registration Complete and starts the default session |
| `Gmm.UeContext.HandleIdentityRequest` | `internal/uecontext/handle_n1mm.go:262-287` | Answers for SUCI only, protected exactly when a context exists |
| `Gmm.UeContext.EndRegistration` | `internal/uecontext/handle_n1mm.go:54-66` | An accept registers after its handler has returned, not if it panicked; both rejects deregister, whatever state the handlers left |
| `Gmm.UeContext.HandleNas_n1mm` | `internal/uecontext/handle_n1mm.go:35-80` | For every 5GMM message and state the class moves to the state, and sends the messages, of the history model |
| `GmmRuns.AcceptExactly` | `internal/uecontext/handle_n1mm.go:154-164` | Only a complete Authentication Request is ever answered with an Authentication Response |
| `GmmRuns.StepByMark` | `internal/uecontext/handle_n1mm.go:28-99` | What any input does to SQN, KAMF, ngKSI and context: a success moves all four, a reject drops the context, anything else keeps SQN, KAMF and context keys |
| `GmmRuns.ContextExactly` | `internal/uecontext/handle_n1mm.go:88-165` | Over every message history a security context exists if and only if some authentication has succeeded since the last reject |
| `GmmRuns.ContextIsLatest` | `internal/uecontext/handle_n1mm.go:131-165` | It then carries the ngKSI of the most recent success and the KAMF the chain of TS 33.501 gives for the RAND, AUTN and ABBA of that request |
| `GmmRuns.NoCompleteAfterReject` | `internal/uecontext/handle_n1mm.go:88-177` | After any reject no run sends a Security Mode Complete before another Authentication Request arrives |
| `GmmRuns.CompleteUsesLatestKamf` | `internal/uecontext/handle_n1mm.go:208-227` | Every Security Mode Complete is sent under the KAMF of the most recent success, with no reject since |
| `GmmRuns.ContainerExactly` | `internal/uecontext/handle_n1mm.go:199-223` | A Complete carries the stored registration request if and only if RINMR is set and the request is not empty |
| `GmmRuns.StoredRequest` | `internal/uecontext/trigger.go:8-36` | Over every history the stored request is the last one encoded by a live UE |
| `GmmRuns.ContainerOverHistory` | `internal/uecontext/handle_n1mm.go:199-223` | Over every history a Complete carries a container if and only if the command asks for it and the last request encoded is not empty, and then that request |
| `GmmRuns.CommandPanicsExactly` | `internal/uecontext/handle_n1mm.go:171-209` | A Security Mode Command panics exactly when it names the stored ngKSI (not 7) and no success stands since the last reject |
| `GmmRuns.CommandExactly` | `internal/uecontext/handle_n1mm.go:171-228` | The three answers of a live UE to a command: refusal with deregistration, panic, or completion with the commanded algorithms under the KAMF of the context |
| `GmmRuns.HaltsExactly` | `internal/uecontext/handle_n1mm.go:105-236` | A live UE ends the process on exactly four kinds of message: an incomplete request, an AUTN below eight octets, a command naming the stored ngKSI without a context, an accept that formats a nil GUTI |
| `GmmRuns.RejectExactly` | `internal/uecontext/ue.go:135-146` | A reject deregisters, drops the context and sets the ngKSI id to 7; SQN, KAMF, GUTI and stored request stay, nothing is sent |
| `GmmRuns.RegisteredExactly` | `internal/uecontext/handle_n1mm.go:230-260` | An accept registers, sends one Registration Complete, starts one session, stores a 5G-GUTI and no other identity |
| `GmmRuns.RequestStores` | `internal/uecontext/handle_n1mm.go:123-126` | A complete request leaves its ngKSI and RAND, accepted or not; only a RAND of 16 octets becomes the challenge |
| `GmmRuns.ContextIsNew` | `internal/uecontext/handle_n1mm.go:154-164` | An answered request puts a context in place that has its ngKSI, the KAMF just derived, no access-stratum key, NCC 0 and NAS counts 0 |
| `GmmRuns.OthersExactly` | `internal/uecontext/handle_n1mm.go:28-80` | Identity requests are answered for SUCI only; the remaining messages change and send nothing |
| `GmmRuns.StateOverHistory` | `internal/uecontext/handle_n1mm.go:28-80` | Over every history the registration state is the last one decided, by an accept, a reject, a refused command or an own attempt |
| `GmmRuns.NewUePanics` | `internal/uecontext/handle_n1mm.go:171-236` | A new UE panics on a command that names ngKSI 0, and on an accept whose identity is no 5G-GUTI |
| `GmmRuns.SqnOverHistory` | `internal/uecontext/handle_n1mm.go:124-165` | Over every history accepted SQNs never decrease, and the stored one is the last, hence largest, of them or the initial one |
| `GmmRuns.KamfOverHistory` | `internal/uecontext/handle_n1mm.go:124-165` | Over every history the stored KAMF is that of the last success; failures and rejects leave it |
| `GmmRuns.KsiInStepExactly` | `internal/uecontext/handle_n1mm.go:123-165` | The stored ngKSI names the context's keys if and only if the last complete request, successful or not, carried the ngKSI of the last success |
| `GmmRuns.RefusedNameCompletes` | `internal/uecontext/handle_n1mm.go:123-227` | After any request, refused or not, every command naming its ngKSI, with any algorithms and any RINMR, is completed under the standing context's KAMF |
| `GmmRuns.FailedRequestNamesOldKeys` | `internal/uecontext/handle_n1mm.go:123-227` | That does happen: an accepted request with one ngKSI, a spoiled one with another, and the UE completes any command naming the second under the keys of the first |
| `GmmRuns.HonestStep` | `internal/uecontext/handle_n1mm.go:105-168` | In any live state an honest request with SQN not behind gives the network's KAMF and SQN, its ngKSI, a fresh context, and RES* as the answer |
| `GmmRuns.HonestRunRegisters` | `internal/uecontext/handle_n1mm.go:105-260` | From any live state an honest request, any matching command and any accept answer RES* and secure NAS under the network's KAMF; the UE is then registered, or has panicked, the latter exactly when the accept formats a nil GUTI |
| `GmmRuns.ResynchronisedRegisters` | `internal/uecontext/handle_n1mm.go:105-260` | Resynchronisation in messages: from any live UE ahead of the network and within the bound, a request behind draws AUTS, the request at the SQN the network restarts from is answered, and command and accept register the UE under the network's KAMF |
| `GmmRuns.ResynchronisationRefused` | `internal/uecontext/handle_n1mm.go:105-169` | Above the bound the request at the restarted SQN draws AUTS again, and SQN, KAMF and context stay |
| `Nas.UeNas.constructor` | `internal/uecontext/ue.go:57-98` | A UE starts with an empty session table |
| `Nas.UeNas.HandleSession` | `internal/uecontext/handle_n1mm.go:29-33` | A session message has its effect on the table and none on 5GMM |
| `Nas.UeNas.HandleMobility` | `internal/uecontext/handle_n1mm.go:35-80` | A 5GMM message has its effect there and none on the table or any session object |
| `Nas.UeNas.HandleTransport` | `internal/uecontext/handle_n1mm.go:289-309` | The payload of a DL NAS Transport reaches the sessions only if it is N1 SM, has a session id and decodes; 5GMM is left alone |
| `Nas.UeNas.HandleNas` | `internal/uecontext/handle_n1mm.go:28-80` | Every NAS message takes effect in exactly one part of the UE, with the state and messages of the models of the two parts |
| `Nas.DispatchExactly` | `internal/uecontext/handle_n1mm.go:28-80` | For a live UE, by kind of message: a session message acts on the table, a 5GMM message on the 5GMM part, and a DL NAS Transport on the table exactly when it is N1 SM, has an id and decodes |
| `Nas.AcceptInTransport` | `internal/uecontext/handle_n1mm.go:289-309` | A concrete one: an accept in a DL NAS Transport makes session 1 active |
| `Nas.PartsRunAlone` | `internal/uecontext/handle_n1mm.go:28-80` | Over every interleaving of 5GMM messages, session messages and triggers, each part of the UE is the run of its own events |
| `Nas.WholeUe` | `internal/uecontext/handle_n1mm.go:28-80` | So the session life cycle and the security context theorem hold of every history of the whole UE |
| `Sessions.FirstFree` | `internal/uecontext/trigger_pdu_session.go:153-163` | The result is free, or 16, and every id below it is used |
| `Sessions.PduSession.constructor` | `internal/uecontext/pdu_session.go:41-53` | A new session is inactive and has no address |
| `Sessions.PduSession.SetIp` | `internal/uecontext/pdu_session.go:101-114` | Only an address of 4 or 16 octets is taken |
| `Sessions.UeSessions.constructor` | `internal/uecontext/ue.go:25-98` | The table starts empty |
| `Sessions.UeSessions.CreatePDUSession` | `internal/uecontext/trigger_pdu_session.go:149-164` | The lowest free id gets a fresh, inactive session; no session and no change exactly when all 15 are used |
| `Sessions.UeSessions.GetPduSession` | `internal/uecontext/trigger_pdu_session.go:167-174` | Looks a known session up by its id, and nil for 0, above 15 and empty slots |
| `Sessions.UeSessions.ReleasePduSession` | `internal/uecontext/trigger_pdu_session.go:177-188` | Empties an occupied slot in range and nothing else |
| `Sessions.UeSessions.GetActivePduSessions` | `internal/uecontext/trigger_pdu_session.go:191-202` | Exactly the active sessions, in ascending id order |
| `Sessions.UeSessions.TriggerInitPduSessionRequest` | `internal/uecontext/trigger_pdu_session.go:10-28` | A pending session in the lowest free slot even when the request does not encode; an error exactly when the table is full |
| `Sessions.UeSessions.TriggerInitPduSessionReleaseRequest` | `internal/uecontext/trigger_pdu_session.go:61-79` | Only an active session is released |
| `Sessions.UeSessions.TriggerInitPduSessionReleaseComplete` | `internal/uecontext/trigger_pdu_session.go:82-101` | An inactive session is neither answered for nor removed |
| `Sessions.UeSessions.TriggerReleasePduSession` | `internal/uecontext/trigger_pdu_session.go:122-130` | An unknown id changes nothing |
| `Sessions.UeSessions.TriggerReleaseAllPduSessions` | `internal/uecontext/trigger_pdu_session.go:133-144` | The loop over the snapshot of active sessions is the release of each in turn |
| `Sessions.UeSessions.HandleAccept` | `internal/uecontext/handle_n1sm.go:41-96` | PTI and session type 1 only; makes a known session active whatever its state |
| `Sessions.UeSessions.HandleReject` | `internal/uecontext/handle_n1sm.go:99-118` | A known session becomes inactive and leaves the table |
| `Sessions.UeSessions.HandleReleaseCommand` | `internal/uecontext/handle_n1sm.go:121-138` | A known session is answered for and removed, unless inactive |
| `Sessions.UeSessions.HandleNas_n1sm` | `internal/uecontext/handle_n1sm.go:8-38` | For every message the array of objects moves to the table of the history model |
| `SessionRuns.Lifecycle` | `internal/uecontext/handle_n1sm.go:41-138` | Over every run of handlers and triggers, a session in the table is pending, active or release-pending and a removed one is inactive |
| `SessionRuns.LowestFreeExactly` | `internal/uecontext/trigger_pdu_session.go:152-163` | The allocator returns an id if and only if it is free and all lower ones are used, and fails if and only if all 15 are |
| `SessionRuns.CreationExactly` | `internal/uecontext/trigger_pdu_session.go:10-28` | Creation changes that one slot; the request goes out unless it does not encode |
| `SessionRuns.ReleaseExactly` | `internal/uecontext/trigger_pdu_session.go:122-130` | A release trigger makes an active session release-pending and sends one request; any other session, and an unknown id, keep their state |
| `SessionRuns.FullTable` | `internal/uecontext/trigger_pdu_session.go:149-164` | With all 15 ids used an establishment changes and sends nothing |
| `SessionRuns.AcceptExactly` | `internal/uecontext/handle_n1sm.go:41-96` | For any table and accept: PTI 1, session type 1 and a known id make the session active, with an address of 4 or 16 octets kept; anything else changes nothing |
| `SessionRuns.EndExactly` | `internal/uecontext/handle_n1sm.go:99-138` | For any table: a reject removes a known session, a command removes and answers it unless it is inactive; anything else changes nothing |
| `SessionRuns.RemovalExactly` | `internal/uecontext/handle_n1sm.go:99-138` | In reachable tables a reject or command for a known id frees that slot only, and only a command is answered |
| `SessionRuns.EventOccupied` | `internal/uecontext/trigger_pdu_session.go:149-188` | Every event changes the number of occupied slots by exactly its creation or removal |
| `SessionRuns.Conservation` | `internal/uecontext/trigger_pdu_session.go:149-188` | Over every run occupied slots = successful creations - handled rejects - handled release commands for known ids |
| `SessionRuns.ActiveIdsExactly` | `internal/uecontext/trigger_pdu_session.go:191-202` | An id is listed if and only if its session is active |
| `SessionRuns.ReleaseAllExactly` | `internal/uecontext/trigger_pdu_session.go:133-144` | Release-all sends one request per active session in ascending id order, moves exactly those to release-pending, and changes nothing else |
| `SessionRuns.ReleaseAllLeavesNone` | `internal/uecontext/trigger_pdu_session.go:133-144` | Afterwards no session is active, and a second call sends and changes nothing |
| `SessionRuns.AcceptRevives` | `internal/uecontext/handle_n1sm.go:41-96` | An accept after a release request makes the session active again, so a second request goes out: the edge is real |
| `SessionRuns.RevivedExactly` | `internal/uecontext/handle_n1sm.go:41-138` | Over every run, a session whose release was requested becomes active again if and only if an accept with PTI 1 and session type 1 that names it arrives before a reject or command for it |
| `SessionRuns.RequestsPerAccept` | `internal/uecontext/handle_n1sm.go:41-138` | Over every run of whole handlers, each effective accept for an id is used up by one release request, wasted on an active session or by a removal, or still open; so requests number at most the effective accepts |
| `SessionLocks.TaskHeld` | `internal/uecontext/trigger_pdu_session.go:149-188` | No step of a trigger goroutine moves the session the listener is working on |
| `SessionLocks.StepHeld` | `internal/uecontext/trigger_pdu_session.go:149-202` | Every step of every goroutine keeps slot 0 nil, slot i for sessions of id i, and the listener's session in place |
| `SessionLocks.SlotOwnership` | `internal/uecontext/handle_n1sm.go:99-138` | Under every interleaving of one listener and any number of triggers those hold, and each slot cleared held the very object the handler had looked up |
| `SessionLocks.StepBalanced` | `internal/uecontext/trigger_pdu_session.go:149-188` | Every step keeps creations of an id equal to its clearings plus one while its slot is taken |
| `SessionLocks.CreationsBalanced` | `internal/uecontext/trigger_pdu_session.go:149-188` | The same over every interleaving |
| `SessionLocks.CreationsSeparated` | `internal/uecontext/trigger_pdu_session.go:149-188` | Two creations of one id always have a clearing of that id between them, so concurrent creates never share one |
| `SessionLocks.SessionsDistinct` | `internal/uecontext/trigger_pdu_session.go:149-188` | No session object is in two slots, and sessions in the table at once differ in id |
| `SessionLocks.MarksOverRun` | `internal/uecontext/handle_n1sm.go:99-138` | Under every interleaving a session the listener set inactive has left the table, or is just being cleared, and every cleared session had been set inactive |
| `SessionLocks.ArmedWrites` | `internal/uecontext/trigger_pdu_session.go:10-79` | A trigger between creating or checking a session and writing its state makes it pending with its next step, marked or not |
| `SessionLocks.MarkDecides` | `internal/uecontext/handle_n1sm.go:99-138` | Whether a session ends inactive is decided when the listener marks it: after any continuation it is inactive with no writer pending if and only if it was so at any state since the marking |
| `SessionLocks.RemovedExactly` | `internal/uecontext/handle_n1sm.go:99-138` | A removed session stays inactive under every continuation if and only if it is inactive and no trigger stands between creating, or checking, it and writing its state |
| `SessionLocks.OvertakenCreate` | `internal/uecontext/trigger_pdu_session.go:10-27` | A concrete interleaving with such a trigger: a reject overtakes the creating trigger, which then sets the removed session pending |
| `SessionAtomic.CreateAlone` | `internal/uecontext/trigger_pdu_session.go:10-28` | A creating trigger that runs without interruption has exactly the effect of the whole trigger on the table and the messages sent |
| `SessionAtomic.ReleaseRound` | `internal/uecontext/trigger_pdu_session.go:61-79` | So has one round of a release, on the first of the sessions to do |
| `SessionAtomic.FoundAgrees` | `internal/uecontext/trigger_pdu_session.go:191-202` | The sessions collected are those the whole handler lists, in the same order |
| `SessionAtomic.ScanEnds` | `internal/uecontext/trigger_pdu_session.go:191-202` | The scan of release-all collects exactly these and then releases the mutex |
| `SessionAtomic.AcceptAlone` | `internal/uecontext/handle_n1sm.go:41-96` | A listener that handles an accept without interruption has exactly the effect of the whole handler |
| `SessionAtomic.RejectAlone` | `internal/uecontext/handle_n1sm.go:99-118` | So has one that handles a reject |
| `SessionAtomic.CommandAlone` | `internal/uecontext/handle_n1sm.go:121-138` | So has one that handles a release command for a session that is not inactive |
| `SessionAtomic.CommandIgnored` | `internal/uecontext/handle_n1sm.go:121-138` | A command for an unknown or inactive session has no effect |
| `SessionAtomic.ScanExcludes` | `internal/uecontext/trigger_pdu_session.go:191-202` | While a scan keeps the UE mutex whoever needs it waits, and no slot changes |
| `SessionRequests.StepLedger` | `internal/uecontext/trigger_pdu_session.go:61-79` | The balance of every single step, with an activation lost exactly when it repeats one not used up, or when a removal or a creating trigger overwrites it |
| `SessionRequests.RequestsPerActivation` | `internal/uecontext/trigger_pdu_session.go:61-79` | Under every interleaving requests sent or owed, open activations and lost ones balance with activations and overlaps; so requests exceed activations if and only if overlaps exceed the activations lost or still open |
| `SessionRequests.DuplicatesExactly` | `internal/uecontext/trigger_pdu_session.go:61-79` | From an active session on, until the next activation, two requests or more are issued if and only if some trigger passes the check while another stands between check and write (two such triggers if one stood there at the start) |
| `SessionRequests.CollisionDuplicates` | `internal/uecontext/trigger_pdu_session.go:61-79` | A trigger checks an active session, no activation follows, and a second one arrives before the first has written: an interleaving then issues two requests for that one activation |
| `SessionRequests.CollisionReached` | `internal/uecontext/trigger_pdu_session.go:61-130` | Such a collision is reachable with exactly one activation |
| `SessionRequests.DuplicateSent` | `internal/uecontext/trigger_pdu_session.go:61-130` | A complete run with one session, one activation and two release requests sent |
| `Du.DU.constructor` | `internal/du/du.go:41-65` | A new DU is idle, without role, channel or UE ids |
| `Du.DU.InitUE` | `internal/du/du.go:69-96` | Without a UE configuration an error and no change; otherwise a fresh channel and one more forwarder, both in place even when creating the UE fails |
| `Du.DU.OnF1SetupResponse` | `internal/du/du.go:146-163` | The first response opens the channel, if the UE is configured; a repeated one leaves channel and forwarders alone |
| `Du.DU.InitHandoverContext` | `internal/du/du_handover_state.go:38-43` | A fresh context, idle and without role |
| `Du.DU.SetSourceHandoverState` | `internal/du/du_handover_state.go:45-60` | Role and state of the existing context, or of a fresh one; the RACH flag is kept |
| `Du.DU.SetTargetHandoverState` | `internal/du/du_handover_state.go:62-77` | The same in the target role |
| `Du.DU.GetHandoverState` | `internal/du/du_handover_state.go:79-87` | A DU without context is idle |
| `Du.DU.GetHandoverRole` | `internal/du/du_handover_state.go:89-97` | A DU without context has no role |
| `Du.DU.ResetHandoverContext` | `internal/du/du_handover_state.go:128-138` | Role, state and RACH flag cleared in place; without a context nothing |
| `Du.DU.SendUeContextModificationRequired` | `internal/du/f1ap_handover.go:133-186` | One attempt; an encoding error is not reported as an error |
| `Du.DU.TriggerHandover` | `internal/du/du_rrc_handler.go:142-153` | Source in preparation, then one attempt; failed exactly when the send reports an error |
| `Du.DU.HandleMeasurementReport` | `internal/du/du_rrc_handler.go:82-139` | The neighbour loop, with its nil dereferences, sends at most one handover request, to the cell an independent choice function names |
| `Du.DU.HandleRrcReconfigurationComplete` | `internal/du/du_rrc_handler.go:71-79` | Completes the handover in the target role only |
| `Du.DU.DispatchRrcMessage` | `internal/du/du_rrc_handler.go:42-67` | Only measurement reports and reconfiguration completions have an effect |
| `Du.DU.HandleRrcFromUE` | `internal/du/du_rrc_handler.go:9-39` | The receive loop over any message sequence equals the one-message step folded over it |
| `Du.DU.StartRachMonitoring` | `internal/du/du_rach.go:29-51` | Refuses outside the target role; otherwise moves to execution from any state |
| `Du.DU.CreateTargetHandoverUeContext` | `internal/du/ue_context_setup.go:86-102` | Opens a channel and starts a forwarder only if there is none |
| `Du.DU.SendUeContextSetupResponse` | `internal/du/ue_context_setup.go:128-200` | One attempt; unlike in the handover request, an encoding error is reported like a sending error |
| `Du.DU.HandleTargetHandoverSetup` | `internal/du/ue_context_setup.go:52-76` | Adopts the ids of the request, opens the channel, starts RACH monitoring, answers; a failed answer is reported and undoes none of it |
| `Du.DU.HandleUeContextSetupRequest` | `internal/du/ue_context_setup.go:12-49` | Both malformed cases leave the DU alone; in preparation the ids are adopted, otherwise the container is passed on and the ids are only echoed; a failed answer is reported |
| `Du.DU.HandleUeContextModificationConfirm` | `internal/du/f1ap_handover.go:191-229` | The three error cases leave the DU alone; a container moves any DU with a context, whatever its role, to source in execution |
| `Du.ScanStep` | `internal/du/du_rrc_handler.go:114-138` | One more neighbour triggers exactly if it qualifies and the state is still idle; one that dereferences nil ends the scan |
| `Du.ChoiceStops` | `internal/du/du_rrc_handler.go:114-138` | Neighbours after one that dereferences nil do not matter |
| `DuRuns.StepFits` | `internal/du/du_handover_state.go:45-77` | Every event keeps role and state consistent, and only a reset leads back to idle |
| `DuRuns.RoleAndState` | `internal/du/du_handover_state.go:45-138` | Over every run: no role exactly while idle, failed only as source, completed only as target |
| `DuRuns.OnlyResetReturnsToIdle` | `internal/du/du_handover_state.go:128-138` | No history without a reset returns to idle |
| `DuRuns.ResetExactly` | `internal/du/du_handover_state.go:128-138` | A reset clears role, state and RACH flag and nothing else |
| `DuRuns.SourceKeepsRole` | `internal/du/ue_context_setup.go:25-76` | A source in preparation that gets a setup request keeps role and state, because RACH monitoring refuses, yet adopts the ids and answers with success |
| `DuRuns.PlainSetupExactly` | `internal/du/ue_context_setup.go:12-49` | Outside preparation: the container goes to the channel if there is one, the answer carries the ids of the request without keeping them; a malformed request changes nothing |
| `DuRuns.PreparedSetupExactly` | `internal/du/ue_context_setup.go:52-102` | In preparation: ids kept, channel opened if absent, container not passed on, only a target moves to execution |
| `DuRuns.ConfirmExactly` | `internal/du/f1ap_handover.go:191-229` | An effective confirm puts its container on the channel and makes the DU a source in execution; any other changes nothing |
| `DuRuns.TargetStep` | `internal/du/f1ap_handover.go:191-229` | A target stays one if and only if the event is neither a reset nor a confirm that carries a container and finds a channel; no event but preparation makes one |
| `DuRuns.TargetKeptExactly` | `internal/du/du_handover_state.go:45-138` | Over every run from its preparation on, a DU is a target if and only if no such event has come |
| `DuRuns.TargetCompletes` | `internal/du/du_rrc_handler.go:71-79` | Preparation, then any events, then the completion of the UE on a live channel: the handover is completed if and only if nothing in between took the role away, and the completion is transferred either way |
| `DuRuns.CellTests` | `internal/du/du_rrc_handler.go:114-135` | The scan's test is an RSRP more than 3 above that of the serving cell, on a cell that can be read |
| `DuRuns.ScriptCompletes` | `internal/du/ue_context_setup.go:52-102` | Preparation, setup, completion: ends completed; the answer and the transfer are all that is sent |
| `DuRuns.ConfirmLosesCompletion` | `internal/du/f1ap_handover.go:208-223` | With a confirm after the setup the DU ends a source in execution, and the completion of the UE completes nothing |
| `DuRuns.ChoiceSound` | `internal/du/du_rrc_handler.go:114-138` | The first neighbour stronger than serving + 3, with every earlier one readable, is the one chosen |
| `DuRuns.ChoiceWitness` | `internal/du/du_rrc_handler.go:114-138` | Conversely, whatever is chosen is such a neighbour |
| `DuRuns.ReportExactly` | `internal/du/du_rrc_handler.go:82-153` | For any serving list with a first RSRP and any neighbour list: one request, to the first qualifying neighbour, if idle and there is one; none otherwise (intent of TS 38.331 section 5.5.4.4) |
| `DuRuns.ForwardAppends` | `internal/du/du_rrc_handler.go:24-36` | One message appends at most one handover request, and that comes before its own transfer |
| `DuRuns.FatalExactly` | `internal/du/du_rrc_handler.go:82-138` | Handling a message panics if and only if it is a report without the first serving RSRP, or with an NR neighbour that cannot be read |
| `DuRuns.PlainExactly` | `internal/du/du_rrc_handler.go:42-67` | A message with nothing to intercept is transferred with the ids of its kind of transfer and changes nothing else |
| `DuRuns.CompletionExactly` | `internal/du/du_rrc_handler.go:71-79` | A completion completes the handover of a target, leaves any other DU alone, and is transferred |
| `DuRuns.RequestedOncePerIdle` | `internal/du/du_rrc_handler.go:130-153` | Over every run the handover requests attempted are at most 1 + the resets |
| `DuRuns.StepTransfers` | `internal/du/du_rrc_handler.go:9-39` | Each event adds exactly the transfer of the message it forwards, initial if and only if it is the first |
| `DuRuns.UplinkInOrder` | `internal/du/rrc_transfer.go:21-96` | Over every run the containers transferred are the messages that reached a live forwarder and were not fatal, in order and once each; the first as Initial UL RRC Message Transfer, all others as UL RRC Message Transfer |
| `DuRuns.ForwardedExactly` | `internal/du/du_rrc_handler.go:9-39` | These are exactly the arrivals before the first fatal message, and the process has ended if and only if there was one |
| `DuRuns.HarmlessAllForwarded` | `internal/du/du_rrc_handler.go:9-39` | In a history without fatal messages every message that arrives once the channel exists is transferred, in order and once |
| `DuRuns.DownlinkInOrder` | `internal/du/f1ap_handover.go:208-214` | Over every run what is queued for the UE is exactly the containers of effective confirms and of setup requests outside preparation that found a channel, in order and once each |
| `DuRuns.OneForwarder` | `internal/du/du.go:146-163` | Over every run at most one forwarder is started, exactly when the channel exists |
| `DuRuns.LoopIsRun` | `internal/du/du_rrc_handler.go:9-39` | The receive loop is the run of its messages as single events, so what holds of runs holds of it |
| `DuSetters.ConsistentUnderInterleaving` | `internal/du/du_handover_state.go:45-138` | With every check and every setter a step of its own, one forwarder and a goroutine per F1AP message: role and state still fit, and the handover requests attempted are at most 1 + the resets |
| `DuSetters.TargetAgainExactly` | `internal/du/du_rach.go:29-51` | A DU that is no target can become one without a new preparation if and only if a goroutine still holds an earlier check of the target role |
| `DuSetters.ResetUndone` | `internal/du/du_rach.go:29-51` | That does happen: a reset between the check of RACH monitoring and its setter is undone |
| `DuSetters.TriggerAlone` | `internal/du/du_rrc_handler.go:130-153` | A trigger that runs without interruption has exactly the effect of the whole handler on role, state and requests |
| `DuSetters.CompletionAlone` | `internal/du/du_rrc_handler.go:71-79` | So has a completion |
| `DuSetters.SetupAlone` | `internal/du/ue_context_setup.go:52-76` | So has a setup request |

## Left out

- AES, HMAC-SHA-256 and the random source: arbitrary functions and inputs, so nothing is said about secrecy or unforgeability.
- ASN.1, NAS, F1AP and RRC encoding and decoding: messages are decoded datatypes, and whether one encodes is an input. The Security Mode Complete, Registration Complete and authentication answers are taken to encode; `RegistrationComplete(false)` and `IdentityResponse(false)` mark those built without a security context.
- NAS ciphering and counters: a NAS context keeps the keys last asked for, and counts are inputs that do not advance with messages in `Gmm`.
- The SCTP client, `ReadLoop`, `main.go`, configuration files, logging and sleeps.
- RRC handling on the UE side: mostly nil checks around library structures. A second listener, `handleRrcFromDU`, is not part of this model either.
- PLMN and NR cell identity packing, the PTI counter, cause texts, the RAR octets: finite or trivial domains. IP addresses stay octets.
- Whether attempted transfers succeed: attempts are logged; their errors are only logged by the code too. The `State` field of the DU is not modelled.
- Full channels: sending to a channel never blocks, and queued containers are only appended.
- The UE is split into its 5GMM part (`Gmm.UeContext`) and its session table (`Sessions.UeSessions`), joined in `Nas.UeNas`; that an accept starts a default session is logged, and the trigger is an event of its own. The package-level UE ids of the DU are fields of the DU.
- UE Context Modification Request, UE Context Release Command and `SimulateRachReception`: they move no handover state that the runs depend on.
- Data races on the DU outside the handover context: in `DuRuns` events are atomic, in `DuSetters` only role, state and the number of requests are modelled. That a nil channel is checked and replaced without a lock is not.
- `KamfPrime`, `AlgKey`, `RanKey`, `NhKey` and `CkPrimeIkPrime` of `ueauth.go`: not used by the modelled code, which calls an external library of the same purpose.
- The slice that `GetRand` returns aliases the object; callers that write to it are not modelled.
- The fields `marked` and `cleared` of `SessionLocks`, and `retired` of `Sessions`, are history kept for the statements; the Go code has no such state.
- Auth.AuthContext.ProcessAuthenticationInfo: takes AUTN of at least eight octets; the panic on a shorter one is modelled in its caller, `Gmm.UeContext.HandleAuthenticationRequest`.
- Setters that exist for tests only.
