# ECC circuit synthesis, modelled in Dafny

The error-correcting-code (ECC) mapper of the QMAP library lowers a logical
quantum circuit over `n` qubits to a physical circuit protected by a code.
Copy `j` of logical qubit `i` sits at physical index `i + j·n`. The mapped
circuit has three parts:

1. the code's **encoding**;
2. the **transversal translation** of the logical gates, in input order
   (each copyable gate is applied to copies 0, 1 and 2 of its first target);
3. the code's **decoding**, where CNOTs undo the encoding and a 16-gate
   Toffoli macro repairs each block by majority vote.

Two codes are modelled: the three-qubit repetition code (Q3) and Shor's
nine-qubit code (Q9).

Files:

- `circuit.dfy` (module `Circuit`) defines:
  - gate kinds, logical gates and physical operations;
  - the affine layout (`Copy`, `Owner`, `CopyNumber`, `Block`);
  - the `unsigned short` index width (`Wire`);
  - loops that append one block per logical qubit;
  - CNOT counting.
- `primitives.dfy` (module `Primitives`): `writeCnot` and `writeToffoli`.
- `semantics.dfy` (module `Semantics`): a basis-state semantics for X, CNOT
  and the diagonal phase gates (Z, S, Sdag, T, Tdag). Phases are counted in
  eighths of a turn. It is used to prove that the 14 gates of the Toffoli
  macro other than its two H gates on the target (positions 1-8 and 10-15)
  act together as a doubly-controlled Z.
- `q3_shor.dfy` (module `Q3Shor`): the repetition code's encoding and
  decoding. The base mapper's `writeEncoding`/`writeDecoding`
  (src/ecc/EccMapper.cpp:72-87) are the same loops, so this module models
  both.
- `q9_shor.dfy` (module `Q9Shor`): Shor's code. Its blocks are defined as the
  repetition code applied twice. `EncodeSlices`/`DecodeSlices` spell out
  every gate in the order the source appends them.
- `ecc_mapper.dfy` (module `EccMapper`) defines:
  - the gate-kind dispatch;
  - translation with its error case;
  - `initResults` (the register size and output name);
  - `map`.

Behaviour of the code worth knowing:

- The Toffoli macro is 16 gates (src/ecc/EccMapper.cpp:91-106).
- A measurement, like every kind the dispatch does not list, throws
  `QMAPException("Gate not possible to encode in error code!")`
  (src/ecc/EccMapper.cpp:60). The message is the same for every gate.
  Nothing is decoded for a circuit containing one.
- Controls of translated gates are dropped. Only the first target is used
  (src/ecc/EccMapper.cpp:40-43).
- The dispatch is shared by both codes. Under Shor's code too, a copyable
  gate goes to copies `i`, `i+n` and `i+2n`.
- Rotations, SWAP, iSWAP, Peres, compound and classically controlled gates
  are skipped without output and without error
  (src/ecc/EccMapper.cpp:46-59).

## Model

| member | source | states |
|---|---|---|
| `Circuit.Wire` | src/ecc/EccMapper.cpp:132-134 | an index passed to the CNOT/Toffoli writers is reduced below 65536, and left unchanged when it already fits |
| `Circuit.LayoutRoundTrip` | src/ecc/EccMapper.cpp:40-43 | the layout `i + j·n` is invertible: owner `q mod n` and copy number `q div n` recover `(i, j)`, and every index is the copy of its owner |
| `Circuit.BlocksDisjoint` | src/ecc/EccMapper.cpp:40-43 | the copies of two distinct logical qubits never coincide |
| `Circuit.CopyBelow` | src/ecc/EccMapper.cpp:120-121 | copy `j < r` of a logical qubit `i < n` lies in a register of `r·n` qubits |
| `Circuit.LoopChunks` | src/ecc/EccMapper.cpp:74-77 | a per-qubit loop whose body appends `w` gates appends `m·w` gates, and its `i`-th piece of width `w` is exactly iteration `i`'s gates (increasing order) |
| `Circuit.LoopCountCX` | src/ecc/EccMapper.cpp:82-86 | a per-qubit loop whose body holds `c` CNOTs holds `m·c` |
| `Primitives.ToffoliShape` | src/ecc/EccMapper.cpp:89-107 | the macro is 16 gates: CNOTs exactly at positions 1, 3, 5, 7, 11, 13, other gates are H/T/Tdag/S; it touches only its three arguments; positions 0 and 9 are H on the target; the CNOTs before position 9 hit the target; when the target is distinct from the controls, no single-qubit gate after position 9 acts on it |
| `Primitives.ToffoliCountCX` | src/ecc/EccMapper.cpp:89-107 | the macro holds six CNOTs and ten single-qubit gates |
| `Semantics.RunCnot` | src/ecc/EccMapper.cpp:132-134 | a written CNOT is one X on the target with a single positive control: on a basis state it flips the target iff the control is set, and changes nothing else |
| `Semantics.ToffoliIsConjugatedCcz` | src/ecc/EccMapper.cpp:89-107 | for three distinct qubits, the macro is H on the target, then 14 gates that act on every basis state as a doubly-controlled Z (bits unchanged, phase shifted by half a turn exactly when both controls and the target are set), then H on the target, with nothing after it on the target; this is H·CCZ·H, a doubly-controlled X |
| `Q3Shor.EncodeLayout` | src/ecc/Q3ShorEccMapper.cpp:9-12 | the encoding is `2n` gates; for each `i` in increasing order, `CNOT(i→i+n)` then `CNOT(i→i+2n)` |
| `Q3Shor.EncodeCnotsFromPrimaries` | src/ecc/EccMapper.cpp:72-78 | every encoding gate is a CNOT whose control is a logical index `i < n` and whose target is `i+n` or `i+2n` |
| `Q3Shor.DecodeLayout` | src/ecc/Q3ShorEccMapper.cpp:18-22 | the decoding is `18n` gates; qubit `i`'s block begins with exactly the encoding's two CNOTs for `i`, so the decoding starts each block with the encoding's pair, and ends with the Toffoli whose controls are `i+n`, `i+2n` and whose target is `i` |
| `Q3Shor.BlockCounts` | src/ecc/EccMapper.cpp:80-87 | one decoding block is 18 gates with 8 CNOTs; one encoding block is 2 CNOTs |
| `Q3Shor.CnotCounts` | src/ecc/Q3ShorEccMapper.cpp:9-22 | the encoding holds `2n` CNOTs and the decoding `8n` |
| `Q3Shor.Support` | src/ecc/Q3ShorEccMapper.cpp:9-22 | within the index width, the encoding and decoding gates of qubit `i` touch only `{i, i+n, i+2n}` |
| `Q3Shor.InRegister` | src/ecc/Q3ShorEccMapper.cpp:9-22 | within the index width, all encoding and decoding indices are below `3n` |
| `Q3Shor.EncodeRun` | src/ecc/Q3ShorEccMapper.cpp:9-12 | on basis states, the encoding XORs each primary into its two copies and leaves everything else unchanged (on zeroed copies: `b → bbb`) |
| `Q3Shor.EncodeInvolution` | src/ecc/Q3ShorEccMapper.cpp:10-11 | applying the encoding's CNOT pairs twice is the identity on basis states |
| `Q3Shor.MajorityVote` | src/ecc/Q3ShorEccMapper.cpp:19-21 | when at most one of the three copies is flipped, after the decoding's two CNOTs both redundant copies are set exactly when the primary was the flipped one, and a doubly-controlled X on the primary restores the logical value |
| `Q9Shor.EncodeSlices` | src/ecc/Q9ShorEccMapper.cpp:10-22 | one encoding block is 11 gates: `CNOT(i→i+3n)`, `CNOT(i→i+6n)`, H on `i`, `i+3n`, `i+6n`, then each head `h` CNOTs into `h+n` and `h+2n` |
| `Q9Shor.DecodeSlices` | src/ecc/Q9ShorEccMapper.cpp:28-46 | one decoding block is 75 gates: per head, its partner CNOTs then the Toffoli `(h+n, h+2n → h)`; H on the heads; `CNOT(i→i+3n)`, `CNOT(i→i+6n)`, then the Toffoli `(i+3n, i+6n → i)` |
| `Q9Shor.Mirror` | src/ecc/Q9ShorEccMapper.cpp:11-44 | decoding reverses encoding level by level with the same gates: the inner CNOT pairs equal the encoding's, the H layer is on the same heads, the final outer pair equals the encoding's first pair |
| `Q9Shor.Counts` | src/ecc/Q9ShorEccMapper.cpp:10-46 | the encoding is `11n` gates with `8n` CNOTs; the decoding is `75n` gates with `32n` CNOTs |
| `Q9Shor.Layout` | src/ecc/Q9ShorEccMapper.cpp:10-46 | the loops append the blocks of qubits `0..n-1` in increasing order, 11 and 75 gates each |
| `Q9Shor.Support` | src/ecc/Q9ShorEccMapper.cpp:10-46 | within the index width, qubit `i`'s encoding and decoding touch only its nine copies `i + j·n` (`j < 9`); these lie below `9n` and are disjoint from every other qubit's |
| `Q9Shor.InRegister` | src/ecc/Q9ShorEccMapper.cpp:10-46 | within the index width, every encoding and decoding index is below `9n` |
| `EccMapper.TranslateGate` | src/ecc/EccMapper.cpp:26-60 | X, H, Y, Z, S, Sdag, T, Tdag, V, Vdag become exactly three uncontrolled gates of the same kind on copies 0, 1, 2 of the first target, in that order; I and the rotation/SWAP/Peres/compound/classically controlled kinds become nothing; every other kind, and only those, raises the exception with the fixed message `Gate not possible to encode in error code!` |
| `EccMapper.FirstReject` | src/ecc/EccMapper.cpp:24-62 | locates the first gate the dispatch rejects: all earlier gates are accepted |
| `EccMapper.Translate` | src/ecc/EccMapper.cpp:24-62 | the loop succeeds iff no gate is rejected, and fails exactly when the first rejected position `FirstReject` lies inside the input, with the fixed exception; on success the output has three gates per copied gate |
| `EccMapper.TranslateAppend` | src/ecc/EccMapper.cpp:24-62 | translation follows input order: translating `a + b` is translating `a` then `b`, the first failure winning, the outputs concatenated |
| `EccMapper.TranslateOne` | src/ecc/EccMapper.cpp:24-62 | the loop over a single gate produces exactly that gate's dispatch result |
| `EccMapper.TranslateStep` | src/ecc/EccMapper.cpp:24-62 | each iteration appends the current gate's translation to the output of the earlier gates, unless an earlier gate or this one raised the exception |
| `EccMapper.TranslateIgnoresControls` | src/ecc/EccMapper.cpp:39-43 | two gates with the same kind and first target translate identically, whatever their controls and other targets |
| `EccMapper.TranslateInRegister` | src/ecc/EccMapper.cpp:40-43 | with first targets below `n`, the translation is uncontrolled single-qubit gates below `3n` |
| `EccMapper.InitResults` | src/ecc/EccMapper.cpp:112-123 | the output name is the input name followed by `_mapped`; the register has room for every copy of every logical qubit under the code |
| `EccMapper.InitResultsAsWritten` | src/ecc/EccMapper.cpp:120-121 | as written, the output register is `3n` qubits whatever the code |
| `EccMapper.AsWrittenFitsQ3` | src/ecc/Q3ShorEccMapper.cpp:3 | the Q3 mapper's redundancy of three makes the register as written equal to the corrected one |
| `EccMapper.AsWrittenTooSmallForQ9` | src/ecc/EccMapper.cpp:121 | under Shor's code the `3n` register does not hold the encoding, whose first gate targets `3n`; the corrected `9n` register does |
| `EccMapper.Map` | src/ecc/EccMapper.cpp:11-70 | the mapping succeeds iff no gate is rejected, fails with the fixed exception exactly when `FirstReject` lies inside the input, and on success carries the results of `initResults` |
| `EccMapper.MeasurementAborts` | src/ecc/EccMapper.cpp:60-64 | a measurement anywhere in the input makes the mapping raise the exception, the loop stopping at or before the measurement, so no decoding is produced |
| `EccMapper.MapStructure` | src/ecc/EccMapper.cpp:22-64 | a successful mapping is exactly the encoding, then the translated gates, then the decoding |
| `EccMapper.MapLength` | src/ecc/EccMapper.cpp:22-64 | with `k` copied gates the mapping is `20n + 3k` gates under Q3 and `86n + 3k` under Q9 |
| `EccMapper.MapInRegister` | src/ecc/EccMapper.cpp:18-64 | with logical targets and indices within the writers' width, every index of a successful mapping lies in the output register |

## Left out

- Timing (`results.time`, `timeout`) and the architecture, calibration, layering, method, seed and teleportation fields of the results: bookkeeping with no logic.
- `stripIdleQubits` and `createLayers`: library calls that are not part of this model. The input is taken to have exactly `n` qubits.
- The qubit-count argument of each emitted operation: a constructor detail of the circuit library. Operations are modelled by kind and indices only.
- Truncation of translated-gate indices and of the Q9 H layer: these go straight to the library's operation constructor, whose index type is not part of this model. So only the `unsigned short` parameters of `writeCnot`/`writeToffoli` are truncated (`Wire`).
- Amplitudes and the unitary action of H: the semantics covers basis states under X, CNOT and diagonal phase gates. The macro's correctness is stated through its 14 non-H gates, proved to act as a doubly-controlled Z; those after the second H do not touch the target, so they commute with it and the macro is H, doubly-controlled Z, H.
- Q3Shor.MajorityVote: states the correction with the reference doubly-controlled X (`Q3Shor.Ccx`) in place of the 16-gate macro, because H is not modelled. The macro's link to it is `Semantics.ToffoliIsConjugatedCcz`.
- Q9Shor: no error-correction semantics for Shor's code. The phase-flip level needs H. The model proves its structure, counts, mirroring and support; the inner level reuses the repetition blocks.
- Exceptions: the thrown `QMAPException` is modelled as `Failure` carrying its message. Stack unwinding and the partially written output of an aborted run are not modelled.
- EccMapper.TranslateGate: for a copyable gate with an empty target list the source reads `getTargets()[0]` unchecked, so the model requires at least one target (`Targeted`).
- The command-line application (`apps/ecc_app.cpp`): argument parsing, file input/output and printing. The code-name lookup is the `Code` datatype.
- The Python wrapper (`jkq/qmap/compile.py`): it contains no ECC logic.
- The constructors and the class hierarchy: the four-argument constructor declared in include/ecc/EccMapper.hpp:18 and called by src/ecc/Q3ShorEccMapper.cpp:3 with redundancy 3 (Q9ShorEccMapper.cpp:4 calls a three-argument form) has no body among the `.cpp` files, and the stored redundancy is not read by the modelled code. The headers also declare `writeEccEncoding`/`writeEccDecoding`, which no `.cpp` file defines. The hierarchy is replaced by the `Code` tag.

## Findings

| source | as written | input that shows it | evidently intended | confidence | as-written member | corrected member |
|---|---|---|---|---|---|---|
| src/ecc/EccMapper.cpp:121 | the output register is `n·3` qubits for every code | the Q9 mapper with `n = 1`: the first encoding gate is `CNOT(0→3)` in a register of 3 qubits (indices 0..2) | a register of `redundancy·n` qubits (`9n` for Shor's code) | not executed | `EccMapper.InitResultsAsWritten`, shown too small by `EccMapper.AsWrittenTooSmallForQ9` | `EccMapper.InitResults`, used by `EccMapper.Map`, with `EccMapper.MapInRegister` proving every index fits |
