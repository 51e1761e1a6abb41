# Blind signatures from hashes: a Dafny model

The repository proves "I hold an XMSS signature on a commitment that opens to this message" with several
proof systems. This project models the parts written for it and proves what they promise.

* `Words`, `Sharing`, `Gates`, `Engine`, `Mpc`: masked 32-bit words, the AND and packed ADD gates, and circuits as
  gate lists, evaluated by a prover on N shares, by a verifier on N-1 shares and the hidden party's broadcasts, and in
  the clear. `Mpc` runs the same evaluations with the program's buffers and gate counter.
* `Builder`, `Blake3`, `Gf128`, `Pool`, `Statement`: gadgets that append gates to a circuit, each proved to carry its
  native counterpart on every input, up to the whole statement circuit. A gadget X is a function `XNet` (its gates), a
  lemma `XIs` or `XAre` (what its wires carry) and a method `EmitX` (the program's loops, proved to build `XNet`).
  Message and key seed are inputs that no party masks, so one gate list serves every statement.
* `ChunkBinding`, `MachineWords`, `DeriveKey`: what the chunk hash is bound to, and where its tables come from. The context
  key is computed on machine words, `MachineWords` step by step, which `DeriveKey` proves to be the model's compression.
* `Wots`, `Codeword`, `Xmss`, `Tree`, `Keypair`, `SignatureCodec`: chains, the target-sum codeword, verification, the full
  tree, and the two-level cached traversal that stands for it. `HashInputs` and `XmssBinding`: every hash call as the bytes
  it feeds in, and what a signature and a commitment are bound to.
* `KkwCodec`, `Kkw`, `KkwTheorems`, `KkwReader`, `KkwRun`, `FsExpand`: the cut-and-choose protocol, its proof stream,
  prover and verifier, and the challenge expansion. The tagged hash and the extendable-output function are uninterpreted.
* `KkwBinding`, `FsReach`, `KkwSeeds`, `Hiding`, `KkwHiding`: what the challenge is bound to, which challenges can come out,
  that no random byte is used twice, and that an opened instance shows nothing of the witness but its outputs.
* `StatementProof`, `WitnessCodec`: the protocol on the statement circuit, from witness to verdict and from verdicts back to a witness.
* `Schedule`, `Longfellow`, `Voleith`, `VoleithCircuit`: the three ways of pooling 42 variable-length chains into 99
  step slots.
* `Keccak`, `KeccakRun`, `KeccakTrace`, `Fips202`: the Keccak round, its inverse by sparse passes, certified permutation
  traces, and the standard's own round with generated rotations and constants.
* `Signer`: the reserve, persist, release discipline over all runs.

Machine words are bit sequences, least significant bit first; `Words` ties them to the integers. Party count, circuit,
instance count, tree height and split are parameters everywhere.

`dafny verify dfyconfig.toml` checks the whole project.

One promise of the code holds only under a condition. `voleith/src/protocol.cpp:78` accepts an empty persist
function, and with it the run start, sign, crash, start, sign releases leaf 0 twice. Over all runs, leaves are unique if
and only if no call comes without persist (`Signer.UniqueIffPersisted`), and a single call keeps every persisted
continuation unique if and only if it has persist itself (`Signer.CallIsSafe`).

## Model

| member | source | states |
|---|---|---|
| Words.AddIsModular | kkw/src/MPC_prove_functions.c:62-64 | the bitwise ripple-carry sum of two words is the sum of their values modulo 2^32, for all words |
| Words.PrefixXorShiftBits | kkw/src/MPC_prove_functions.c:40-44 | the five shift-XORs and the final shift give, at bit i, the parity of the bits below i |
| Sharing.ApplyXor | kkw/src/MPC_prove_functions.h:16-38 | every free word operation distributes over XOR, so acting share by share acts on the shared value |
| Gates.AndUnmasks | kkw/src/MPC_prove_functions.c:10-38 | public word XOR all shares of the AND gate is the AND of the unmasked operands, for any number of parties, tapes and masks |
| Gates.AndVerifierAgrees | kkw/src/MPC_verify_functions.c:12-33 | fed the hidden party's broadcast, the verifier's AND returns the prover's public word, visible shares and visible broadcasts |
| Gates.AddUnmasks | kkw/src/MPC_prove_functions.c:46-80 | the packed ADD gate unmasks to 32-bit addition of the unmasked operands |
| Gates.RebuiltIsHonest | kkw/src/MPC_verify_functions.c:64-75 | carry reconstruction: the 31-round bit loop, fed party e's broadcast, ends with the prover's masked carry for every party count, hidden party, mask and tape |
| Gates.AddVerifierAgrees | kkw/src/MPC_verify_functions.c:41-86 | the verifier's ADD returns the prover's public word, every visible output share and every visible broadcast |
| Gates.AndExtracts | kkw/src/MPC_verify_functions.c:12-33 | a broadcast column that two AND verifiers hiding different parties both reproduce, with the honest correction, is the honest column |
| Gates.AddExtracts | kkw/src/MPC_verify_functions.c:41-86 | the same for ADD: agreement of two reconstructed carries with one column pins the column to the honest one |
| Engine.ProverUnmasks | kkw/src/circuits.c:142-381 | on every circuit, every wire of the prover's run unmasks to the plain evaluation of the unmasked inputs |
| Engine.VerifierReplays | kkw/src/circuits.c:445-716 | on every circuit and for every hidden party, the verifier fed that party's broadcasts holds exactly the prover's wires and broadcasts with the hidden party left out; corrections are needed only if party 0 is visible |
| Engine.PreprocessingIndependent | kkw/src/shared.c:69-104 | two circuits that differ in public constants only, on inputs with the same masks, give the same corrections and the same mask shares on every wire |
| Engine.TwoTranscripts | kkw/src/circuits.c:445-716 | by induction over the gates, a broadcast matrix reproduced by verifiers hiding two different parties, with honest corrections, is the honest prover's matrix |
| Engine.Extraction | kkw/src/kkw_verify.c:204-213 | then any output whose visible shares match recombines, with all shares, to the plain circuit on masked input XOR all mask shares |
| Mpc.Prover.MpcAnd | kkw/src/MPC_prove_functions.c:10-38 | writes exactly gate slot gateCount: the correction and every party's broadcast of the AND formula; returns its masked output and leaves all other slots alone |
| Mpc.Prover.MpcAdd | kkw/src/MPC_prove_functions.c:46-80 | the same for ADD, with the carry computed in the clear |
| Mpc.Prover.Evaluate | kkw/src/circuits.c:142-381 | running a circuit in place leaves the wires, corrections and broadcasts of the functional run |
| Mpc.Verifier.MpcAndVerify | kkw/src/MPC_verify_functions.c:12-33 | writes the visible broadcasts of one AND gate and returns the verifier's output word and shares |
| Mpc.Verifier.RebuildCarry | kkw/src/MPC_verify_functions.c:48-75 | the bit loop computes the reconstructed carry from the totals of the visible shares, tapes and the revealed word |
| Mpc.Verifier.MpcAddVerify | kkw/src/MPC_verify_functions.c:41-86 | writes the visible broadcasts of one ADD gate on the reconstructed carry and returns the verifier's output |
| Mpc.Verifier.Evaluate | kkw/src/circuits.c:445-716 | running a circuit in place leaves the wires and visible broadcasts of the functional replay |
| Blake3.CompressIs | kkw/src/MPC_prove_functions.c:102-131 | on every input the compression gadget, whose rounds EmitCompress loops over, adds exactly 336 non-linear gates, and its wires carry the native compression of the chaining value and block words, rounds and permutation included |
| Blake3.WordIs | kkw/src/blake3_th_mpc.h:17-36 | the message word gadget carries the framed word at that offset: length prefix, domain, data, then zero padding |
| Blake3.ThIs | kkw/src/MPC_prove_functions.c:133-174 | for every allowed size the hash gadget carries the framed single-chunk hash built from the native compression, at 336 gates a block |
| Blake3.EmitTh | kkw/src/MPC_prove_functions.c:133-174 | the block loop builds that gadget for the allowed sizes; other sizes are refused and emit nothing |
| ChunkBinding.HashBinds | kkw/src/blake3_th.c:29-58 | equal 32-byte hashes come from one domain and one message, if no two blocks compressed for them collide: block number, lengths, chaining and flags leave no second preimage of the framing |
| ChunkBinding.FlagsTell | kkw/src/MPC_prove_functions.c:161-163 | two blocks carry the same flags iff both or neither start their chunk and both or neither end it |
| ChunkBinding.IvAreRoots | kkw/src/blake3_th.c:5-8 | the eight initial words are the first 32 binary digits after the point of the square roots of 2, 3, 5, 7, 11, 13, 17 and 19 |
| DeriveKey.ContextKeyDerived | kkw/src/blake3_th.c:29-63 | the tabled context key is what the modelled compression, with its permutation, rotations and initial words, makes of the context string of blake3_th.h:14-19 under the flags for deriving keys |
| HashInputs.InputInjective | kkw/src/xmss.c:15-98 | no two calls of the signature scheme or the commitment, of any kinds and with any arguments, feed the same bytes to the hash |
| Gf128.ReduceIsResidue | kkw/src/gf128.c:15-37 | the reduction leaves a polynomial of degree below 128 that differs from its input by a multiple of x^128 + x^7 + x^2 + x + 1 |
| Gf128.ResidueUnique | kkw/src/gf128.c:15-37 | there is only one such polynomial, so the residue is well defined |
| Gf128.ReduceLinear | kkw/src/gf128.c:15-37 | reduction is XOR-linear, which is what lets it act share by share |
| Gf128.MulMeaning | kkw/src/gf128.c:39-52 | r is the product exactly if r is the residue of the carry-less product |
| Gf128.WordShiftXor | kkw/src/gf128.c:5-13 | XORs a shifted word into the accumulator in place, across the limb boundary |
| Gf128.ReduceLimbs | kkw/src/gf128.c:15-37 | the in-place bit loop on eight limbs computes the reduction |
| Gf128.MulWords | kkw/src/gf128.c:39-52 | the limb loops compute the field product |
| Gf128.MulIs | kkw/src/circuits.c:112-140 | on every input the share-wise multiplication gadget, whose bit loop is EmitMul, adds 512 non-linear gates and carries the field product |
| Wots.ChainSplits | kkw/src/xmss.c:136-160 | m + n steps of a chain are m steps followed by n from there: signing and completing meet |
| Wots.CountsTotal | kkw/src/pooled_chains.inc:112-138 | if every schedule entry is a chain index, the per-chain counts add up to the number of entries |
| Wots.RemainingTotal | kkw/src/xmss.h:63-68 | coordinates and remaining steps add up to 294, so a codeword of sum 195 leaves exactly 99 steps |
| Codeword.ExtractCoords | kkw/src/xmss.c:100-115 | the loop returns all 42 coordinates and refuses exactly the digests with a leftover bit set |
| Codeword.CodewordInjective | kkw/src/xmss.c:100-115 | two digests with both leftover bits clear and the same coordinates agree on all 128 bits |
| Codeword.CodewordsIncomparable | kkw/src/xmss.c:459-473 | two accepted digests whose coordinates are componentwise ordered are the same on all 128 bits |
| Xmss.HashChain | kkw/src/xmss.c:54-67 | the step loop computes the chain function |
| Xmss.WalkAuthPath | kkw/src/xmss.c:360-377 | the loop that halves the index computes the climb by bits of the leaf index |
| Xmss.Verify | kkw/src/xmss.c:459-485 | returns true exactly for verifying signatures: accepted digest, and completed chains that climb to the root |
| Codeword.CoordsAreDigits | kkw/src/xmss.c:100-115 | the 21 coordinates of each 64-bit half are its octal digits, least significant first, and the leftover bit is what is left |
| XmssBinding.ClimbBinds | kkw/src/xmss.c:360-377 | two leaves of one index that climb to one root are one leaf with one path, if the hashed inputs do not collide |
| XmssBinding.TipsOnOneChain | kkw/src/xmss.c:459-485 | two signatures that one leaf verifies under one root share their path, and on every chain the lower tip walks up to the higher one |
| XmssBinding.SignatureUnique | kkw/src/xmss.c:459-485 | one leaf, nonce and message verify under one root with one signature only |
| XmssBinding.SecondDigestInverts | kkw/src/xmss.c:459-485 | a verifying signature for another digest of the same leaf holds, for some chain, a node that is walked forward to the known one: it inverts the chain |
| XmssBinding.CommitmentBinds | kkw/src/commitment.c:10-54 | equal commitment digests have one message, one randomness and one matrix, if the inputs hashed do not collide |
| Pool.MatchIsEqual | kkw/src/pooled_chains.inc:119-132 | eight bit tests in a row hold in a lane iff the index byte equals that lane's candidate |
| Pool.PackedAdds | kkw/src/pooled_chains.inc:84-92 | one 32-bit addition to four packed positions below 255 adds lane by lane: no counter carries into its neighbour |
| Pool.StepIs | kkw/src/pooled_chains.inc:112-226 | one of the 99 steps, on every input: 711 gates, and the state afterwards is the selected chain advanced by one hash at its new position, with the failure bit kept |
| Pool.ChainsAre | kkw/src/pooled_chains.inc:76-240 | both directions, on every input: for any schedule the check word is zero iff all indices are below 42 and chain c is stepped exactly 7 - coord(c) times; the node wires are the chains as far as they were stepped |
| Pool.EmitChains | kkw/src/pooled_chains.inc:76-240 | the loops over groups, steps, words and chains build exactly that gadget |
| Pool.CompleteMeaning | kkw/src/pooled_chains.inc:87-92 | a complete schedule ends every chain at its native endpoint, and forces coordinate sum plus steps to 294, so 99 steps mean sum 195 |
| Statement.StatementDecides | kkw/src/circuits.c:142-381 | there is one gate list, with witness, message and key seed as inputs: it has exactly 94186 AND and ADD gates, and on every witness, message, key seed and root its eight outputs are the public output of the root iff the witness satisfies the statement |
| Statement.BuildStatement | kkw/src/circuits.c:142-381 | the program's loops build that gate list, without being given any of the four |
| Statement.ChecksAreStatement | kkw/src/circuits.c:344-376 | root, sum 195, clear leftover bits and zero pool check together are exactly: opens a commitment to the message, carries a verifying signature on it, and schedules its chains completely |
| WitnessCodec.PartsMakeWitness | kkw/src/circuits.h:11-24 | the witness fields of an opening, a signature and a schedule are those given exactly if the witness is their bytes one after the other: no gap and no overlap |
| StatementProof.NewSystem | kkw/src/circuits.c:142-381 | the built circuit meets everything the protocol theorems ask of a circuit, for any hashes, party count, instance counts and grinding |
| StatementProof.SeedsAlone | kkw/src/shared.c:69-111 | corrections and output shares of the statement circuit are the same for every message, key seed and masked witness: the seeds settle them |
| StatementProof.ProveStatement | kkw/src/kkw_prove.c:50-287 | on the statement circuit the prover refuses exactly the witnesses that do not satisfy the statement (if there is an instance to check), and every stream it writes is accepted |
| StatementProof.StatementCompleteness | kkw/src/kkw_verify.c:11-229 | an honest proof of the statement is accepted under the challenge it derives iff the witness satisfies the statement (or nothing is opened) |
| StatementProof.StatementSoundness | kkw/src/kkw_verify.c:11-229 | three accepted proofs with one first message, two opening an instance with different parties hidden and one leaving it closed, give a witness that satisfies the statement, if the hash inputs of the three verifications are free of collisions |
| StatementProof.StatementHides | kkw/src/kkw_prove.c:253-287 | for any two witnesses of one statement, what an opened instance shows of the one is exactly what it shows of the other under another tape and input share of the hidden party |
| StatementProof.ProveAndCheck | kkw/src/circuits.c:445-716 | one honest instance of the statement, any hidden party: the verifier recomputes the prover's digests, and its verdict is whether the witness satisfies the statement |
| StatementProof.CheckTwice | kkw/src/kkw_verify.c:204-213 | checks two openings of one instance with different hidden parties, one seed, masked witness, output shares and broadcasts; when both pass, masked witness XOR all shares satisfies the statement |
| StatementProof.FillSchedule | kkw/src/circuits.c:54-73 | a witness completed by the schedule builder satisfies the statement iff its signature verifies; when the builder refuses, no root verifies it |
| KkwCodec.EncodeInjective | kkw/src/kkw_prove.c:253-287 | the stream determines the proof, corrections left out for hidden party 0 included |
| KkwReader.ReadOpened | kkw/src/kkw_verify.c:129-151 | reads exactly the bytes of one opened instance, decodes what encodes to them, and fails only when too few are left |
| KkwReader.ReadClosed | kkw/src/kkw_verify.c:71-81 | reads seed and digest of each closed instance in order, or fails only when the stream is too short |
| Kkw.InputUnmasks | kkw/src/kkw_prove.c:14-33 | masked witness and the parties' shares stand for the witness, unmasked message and key seed for themselves |
| KkwTheorems.SeedsDetermine | kkw/src/shared.c:69-111 | on every circuit, the run on zero witness, zero message and zero key seed has the corrections and output mask shares of every run under the same seeds |
| KkwTheorems.ReplayIsHiddenRun | kkw/src/circuits.c:445-716 | the verifier's replay from the opened seeds is the full run with one party hidden |
| KkwTheorems.OpenedHonestDigests | kkw/src/kkw_verify.c:169-198 | an honestly opened instance gives the verifier the prover's three digests |
| KkwTheorems.ClosedIsHonest | kkw/src/kkw_verify.c:93-102 | so does a closed one, from its seed alone |
| KkwTheorems.OutputsArePlain | kkw/src/kkw_prove.c:122-129 | the prover's own output check compares the plain circuit's output with the public words |
| KkwTheorems.Completeness | kkw/src/kkw_prove.c:108-287 | for all witnesses, seeds, nonces, counters and the challenge they derive, the verifier accepts the honest proof iff the plain output is the public one (or nothing is opened) |
| KkwTheorems.OpenedFollowsClosed | kkw/src/kkw_verify.c:181-192 | without hash collisions among the inputs at hand, equal commitments force the opened seeds and corrections to be those of the closed seed |
| KkwTheorems.OpenedAgree | kkw/src/kkw_verify.c:169-213 | two accepted openings with one set of digests have one masked witness, one set of output shares, one broadcast matrix and one salt |
| KkwTheorems.OpeningsExtract | kkw/src/kkw_verify.c:169-213 | two accepted openings of one honestly preprocessed instance, hiding different parties, give a witness whose plain output is the public one |
| KkwTheorems.SpecialSoundness | kkw/src/kkw_verify.c:11-229 | three accepted proofs with the same first message, two opening an instance with different parties hidden and one leaving it closed, yield a witness, if the hash inputs of the three verifications are free of collisions |
| KkwBinding.FsLayout | kkw/src/shared.c:156-177 | the Fiat-Shamir input is message, eight public words big-endian, key seed, nonce and first message, each at its offset, 144 bytes in all |
| KkwBinding.SeedBinds | kkw/src/shared.c:156-192 | without collisions among the four inputs hashed, one challenge seed belongs to one message, key seed, public output, nonce, first message h_star and counter |
| KkwBinding.ChallengeBinds | kkw/src/shared.c:156-221 | the same of one challenge, if the expansion does not collide on the two seeds at hand |
| KkwBinding.AcceptedBinds | kkw/src/kkw_verify.c:35-57 | two proofs accepted under one challenge are for one statement and have one nonce, one first message and one counter |
| KkwBinding.GroundIsMultiple | kkw/src/shared.c:188-191 | the grinding loop passes iff the seed, read as a big-endian number, is a multiple of 2^W |
| KkwBinding.AcceptedIsGround | kkw/src/kkw_verify.c:50-54 | every accepted proof has a challenge seed that is such a multiple |
| KkwBinding.HeaderBinds | kkw/src/kkw_verify.c:11-33 | proof headers that are equal have the same party count, instance counts, circuit size and grinding target, as 32-bit words |
| KkwBinding.TagsApart | kkw/src/kkw_prove.c:152-162 | any choice of one digest for each hash domain comes from some tagged hash: every digest of the protocol is made under a domain of its own |
| KkwSeeds.SeedsAreCut | kkw/src/shared.c:32-38 | the party seeds one after the other are the first 32 N bytes of the instance's stream |
| KkwSeeds.TapeIsCut | kkw/src/shared.c:26-30 | the two halves of a party's tape one after the other are the first 8 ySize bytes of that party's stream |
| KkwSeeds.StreamsIndependent | kkw/src/shared.c:26-44 | for every choice of N seeds for every instance, a tape and an input share for every party seed, some extendable output yields all of them at once: no byte is used twice |
| Hiding.RunHides | kkw/src/circuits.c:142-381 | change the masks of any inputs in one party's shares only, and that party has a tape under which every public word, every correction, every broadcast and every other share of the whole run stay as they were |
| KkwHiding.OpeningHides | kkw/src/kkw_prove.c:213-287 | for any two witnesses with the same outputs and any hidden party whose seed is its own, an extendable output that differs on that seed only opens the second exactly as the first was opened, digests included |
| KkwRun.Grinding | kkw/src/kkw_prove.c:176-178 | the counter returned is the first that meets the target |
| KkwRun.KkwVerify | kkw/src/kkw_verify.c:11-229 | accepts a byte stream iff it is exactly the encoding of a proof whose rounds, outputs and top digest check under the challenge derived from it; trailing data, short reads, wrong header and parameters are refused. What that challenge is bound to: AcceptedBinds |
| KkwRun.KkwProve | kkw/src/kkw_prove.c:50-287 | refuses exactly the witnesses whose plain output is not the public one; every stream it writes is accepted; otherwise no counter or no challenge exists to be found. What its seeds, tapes and shares are: StreamsIndependent; what an opening shows: OpeningHides |
| Schedule.FilledComplete | kkw/src/circuits.c:65-72 | laying chains out in order gives 99 slots iff the coordinates sum to 195, and always steps every chain exactly as often as it needs |
| Schedule.BuildSchedule | kkw/src/circuits.c:54-73 | succeeds exactly on the digests a signer may use, with a complete 99-byte schedule |
| Longfellow.PoolIsSound | longfellow/src/circuit/blind_stmt.h:329-451 | every assignment meeting the constraints has pk[c] equal to the chain from sig[c] for all 42 chains, and steps each chain exactly 7 - coord(c) times |
| Longfellow.OneRunEach | longfellow/src/circuit/blind_stmt.h:378-451 | no chain has two complete runs, and a chain already at 7 has none |
| Longfellow.FillParts | longfellow/src/native_witness.cc:91-116 | succeeds iff the endpoints are the chains' ends, and then the slots it writes meet all constraints |
| Voleith.PoolIsSound | voleith/src/circuit.hpp:389-453 | sorted indices, restarts only at 7, no overflow, last position 7 and sum 195 force every end to be the full chain and every chain to be stepped completely: none can be skipped |
| Voleith.PoolOkExactly | voleith/src/circuit.hpp:391-453 | the constraints hold iff the sum is 195, the schedule is the one filled chain by chain, and every end is the full chain from its start |
| VoleithCircuit.ChainFlags | voleith/src/circuit.hpp:278-295 | the shared prefix tree yields 42 flags, each set iff the low six bits name that chain, and constrains the two high bits away |
| VoleithCircuit.Less | voleith/src/circuit.hpp:297-304 | the committed bit is the unsigned comparison of the two bit strings |
| VoleithCircuit.AddBits | voleith/src/circuit.hpp:306-315 | the sum modulo 2^n, and with the overflow check the constraint that it stays below 2^n |
| VoleithCircuit.PoolStatement | voleith/src/circuit.hpp:391-453 | on any offered bits, if all constraints hold the pool conditions do; and a native run on inputs that meet them violates none |
| Keccak.PassSquared | voleith/src/keccak_constraints.hpp:163-190 | squaring a trinomial pass doubles its power |
| Keccak.PassFull | voleith/src/keccak_constraints.hpp:163-165 | L^64 followed by L^128 is the identity on parities |
| Keccak.PassesInvert | voleith/src/keccak_constraints.hpp:175-183 | the seven passes 1, 2, 4, 8, 16, 32, 128 invert the parity map from both sides |
| Keccak.ThetaInverse | voleith/src/keccak_constraints.hpp:163-190 | inverse_theta is a two-sided inverse of theta on every 1600-bit state |
| Keccak.PiRhoInverse | voleith/src/keccak_constraints.hpp:338-354 | the backward lane order and rotations undo pi and rho, both ways round |
| Keccak.ChiInverse | voleith/src/keccak_constraints.hpp:207-336 | the five degree-3 polynomials invert chi on every row, both ways round |
| Keccak.RoundInverse | voleith/src/keccak_constraints.hpp:192-357 | for every round and state, the backward round undoes the forward round and is undone by it |
| Keccak.ForwardIsRnd | voleith/src/keccak_constraints.hpp:79-161 | the fused forward round is iota after chi after pi after rho after theta, the step mappings of section 3.2 of FIPS 202 |
| Keccak.OffsetsAreTriangular | voleith/src/keccak_constraints.hpp:13-16 | the rotation table is the one of section 3.2.2 of FIPS 202: the lane visited at step t is rotated by (t + 1)(t + 2) / 2 |
| Fips202.ConstantsAreGenerated | voleith/src/keccak_constraints.hpp:17-26 | bit z of the constant of every round is set iff z is 2^j - 1 for a j up to 6 and the shift register of section 3.2.5 of FIPS 202 gives rc(j + 7 round) |
| Fips202.ForwardIsStandard | voleith/src/keccak_constraints.hpp:79-161 | on every state the fused round is Rnd of section 3.3 of FIPS 202, written on a state array with walked rotations and generated constants |
| Fips202.RoundsAreStandard | voleith/src/keccak_constraints.hpp:79-161 | and so is every number of rounds up to the 24 of Keccak-f[1600] |
| KeccakRun.KeccakForward | voleith/src/keccak_constraints.hpp:79-161 | leaves theta of the input in the input buffer and writes the forward round to every lane below the output bound, and to no other; that round is the standard one by ForwardIsStandard |
| KeccakRun.InverseThetaInPlace | voleith/src/keccak_constraints.hpp:166-190 | the in-place loops compute the inverse of theta |
| KeccakRun.KeccakBackward | voleith/src/keccak_constraints.hpp:192-357 | leaves the input with its round constant added and writes the backward round |
| KeccakTrace.MeetsIffImage | voleith/src/circuit.hpp:173-191 | forward rounds of the old state meet backward rounds of the new one iff the new state is the image under all of them |
| KeccakTrace.AuthContext.Meet | voleith/src/circuit.hpp:173-191 | allocates 1600 bits and adds 1600 constraints that hold iff the forward state equals the backward rounds of the allocated one |
| KeccakTrace.AuthContext.Permute | voleith/src/circuit.hpp:193-228 | at each of the three degrees all constraints hold iff the committed bits are the true snapshots of Keccak-f, the standard one by RoundsAreStandard, and then the result is its image (kept bits only at degree 64) |
| KeccakTrace.NativeContext.Permute | voleith/src/circuit.hpp:98-118 | appends exactly those snapshots and returns the image |
| Tree.PathClimbs | kkw/src/xmss.c:360-446 | for every height up to 32 and every leaf, the siblings in the one full tree and the fixed upper ones climb to the published root |
| Tree.SignedVerifies | kkw/src/xmss.c:404-485 | the signature a leaf makes verifies under the root iff its nonce gives an accepted digest |
| Keypair.BuildSubtree | kkw/src/xmss.c:188-218 | every level of the rebuilt subtree holds that stretch of the full tree's level |
| Keypair.BuildTop | kkw/src/xmss.c:220-233 | every level of the top tree is the whole level of the full tree |
| Keypair.KeyPair.constructor | kkw/src/xmss.c:281-323 | after construction the top tree is complete, the cache holds the subtree it is marked with, and the root is the full tree's |
| Keypair.KeyPair.ReadPath | kkw/src/xmss.c:418-443 | whatever the cache held, the path is that of the full tree, and the cache then holds the leaf's subtree |
| Keypair.KeyPair.Sign | kkw/src/xmss.c:404-446 | signs iff the leaf exists and some offered nonce has an accepted digest; the signature verifies under the root, carries the first such nonce and is a function of key, leaf, message and nonces alone; the cache invariant holds after it |
| Keypair.NewSplit | kkw/src/xmss.c:281-323 | a key pair exists iff the height is 1 to 32 and the split 1 to the height |
| Keypair.NewKeyPair | kkw/src/xmss.c:274-279 | without a split it is the height, but at most 16, and only the height can be refused |
| Keypair.SignTwice | kkw/src/xmss.c:404-446 | two key pairs over one key, with any splits and histories, return the same signature |
| SignatureCodec.SignatureRoundTrip | kkw/src/xmss.c:487-528 | reading undoes writing, and any 1212 bytes are the writing of what they read as; other lengths are refused |
| FsExpand.SampledExactly | kkw/src/shared.c:143-149 | sampling returns v with the stream at q iff the word just before q is an accepted word of residue v and every word before that one is rejected |
| FsExpand.EveryResidueAlike | kkw/src/shared.c:143-149 | those accepted words are as many for each residue: 2^32 / bound, rounded down |
| FsExpand.PartySampledExactly | kkw/src/shared.c:208-220 | the hidden party drawn is v with the stream at q iff the byte just before q is an accepted byte of residue v and every byte before it is rejected |
| FsExpand.EveryPartyAlike | kkw/src/shared.c:208-220 | 256 / N bytes, rounded down, give each party |
| FsReach.EveryChallengeReached | kkw/src/shared.c:194-221 | every challenge that meets the demands (N at most 256) is the expansion of every seed under some block hash: all selections and hidden parties can come out |
| FsExpand.SelectionInjective | kkw/src/shared.c:200-206 | different draws select different ordered instances |
| FsExpand.SelectionSurjective | kkw/src/shared.c:200-206 | every ordered choice of distinct instances is reached by some draws |
| FsExpand.ExpandGood | kkw/src/shared.c:194-221 | whenever the expansion returns, the instances are strictly increasing, tau in number and below M, and every party is below N |
| FsExpand.ExpandStable | kkw/src/shared.c:143-149 | allowing more rejections never changes a challenge that was found |
| FsExpand.ExpansionGood | kkw/src/shared.c:194-221 | the unbounded expansion meets what the protocol demands of its challenge, and is what any large enough bound finds |
| FsExpand.ShuffleInPlace | kkw/src/shared.c:198-206 | the swaps in place leave the arrangement that the drawn positions determine, and consume the stream exactly as far |
| FsExpand.FsExpand | kkw/src/shared.c:194-221 | the generator, shuffle, sort and party sampling together compute the expansion function, whose draws SampledExactly and PartySampledExactly characterise and which reaches every challenge |
| Signer.SignerProcess.Sign | voleith/src/protocol.cpp:73-85 | exhausted iff the key is used up, and otherwise the leaf stays spent in memory whatever follows; a persist that threw releases nothing; a released leaf is the one reserved, stored first if persist saved; all as in the step function the run theorems use |
| Signer.LeavesUnique | voleith/src/protocol.cpp:50-85 | with persist supplied, over every interleaving of signing, failures, crashes and restarts, released leaves are distinct and below 2^height |
| Signer.UniqueIffPersisted | voleith/src/protocol.cpp:73-85 | exactly when leaves are unique: whatever outcomes of persist can occur, no run of any length releases a leaf twice iff a call without persist is not among them |
| Signer.CallIsSafe | voleith/src/protocol.cpp:73-85 | call by call: after a persisted run, a released signature lets no persisted continuation repeat a leaf iff that call had persist |
| Signer.UnpersistedRepeats | voleith/src/protocol.cpp:73-77 | after any such run, one release without persist can be followed by a crash and a restart that release the same leaf again |
| Signer.Load | voleith/src/protocol.cpp:50-55 | a process starts from a stored key iff the key is valid, and holds it, as the restart step of a run does |

## Left out

- The verifier's copies of the gadgets (`kkw/src/circuits.c:445-716`, `kkw/src/MPC_verify_functions.c:91-193`) are not transcribed gate by gate. Prover and verifier run one gate list, which `Engine.VerifierReplays` covers for every list.
- KkwRun.Grinding: stops after all 2^32 counter values, where the original wraps around and searches for ever.
- FsExpand.FsExpand: takes a bound on rejections per sample; the original's loops are unbounded. `ExpandStable` and `ExpansionGood` say what the bound does not change.
- FsExpand.Sort: stands for the C library's sort.
- KkwTheorems.SpecialSoundness: freedom from collisions is assumed of the inputs hashed by the three verifications only. No probabilistic soundness is claimed. The same holds of `StatementProof.StatementSoundness`, and of the binding theorems.
- KkwHiding.OpeningHides: hiding is shown of one opened instance at a time, where the hidden party's seed differs from the other seeds. Zero knowledge of whole proofs is a statement about distributions and is not made.
- KkwRun.KkwVerify: parsing happens before the closed instances are recomputed; the original interleaves them, with the same verdict.
- Blake3.ThIs: inputs beyond one chunk are outside the allowed sizes and are not modelled. That the upstream BLAKE3 library equals this single-chunk hash is taken as given; the streaming context with its poisoned flag is not modelled.
- Keypair.KeyPair.Sign: nonces come as a list standing for the random source, and the search gives up when the list ends. Secret chain starts and upper siblings are parameters of the key.
- Longfellow.PoolIsSound: the hash of each step, the message hash, the commitment part and the Merkle part of the statement are not modelled; the step hash is a parameter, and selection by field sums of one-hot products is read as selection.
- VoleithCircuit.PoolStatement: the hash gadget is a parameter; the commitment and Merkle parts of the statement, and packing of bits into field elements, are not modelled.
- KeccakTrace.AuthContext.Permute: constraints are read as equations between bits; the polynomial degrees, MACs and the consistency check of the proof system are not modelled. Padding and absorption of SHAKE are left out.
- KeccakTrace.NativeContext.Permute: the trace routine `pomfrit_permute_trace` patches a library that is not part of this model (`voleith/cmake/pomfrit-trace.patch`); the round function and a snapshot after every stride stand for it.
- Signer.LeavesUnique: one process at a time; file locks and synchronisation are outside the model, and persisting is one step that may fail before or after it takes effect.
- The C++ and Rust copies of the traversal (`longfellow/src/xmss.cc`, `binius64/src/xmss.rs`) and `voleith/src/native`, which repeat the modelled code.
- The proof systems fetched from elsewhere and their adapters, command lines, benchmarks, file formats of keys and user state, parallel loops, allocation failures and wiping of secrets.
