# rust-quantum register core in Dafny

This project models the state-vector quantum simulator at the core of
`rust-quantum`:

- **Register.** A shared register (`State`) holds the amplitude vector of every
  qubit allocated so far, plus the count of those qubits.
- **Allocation.** Each allocation takes the Kronecker product of the vector
  with the new qubit's basis column.
- **Gates.** A single-qubit gate is a 2×2 matrix. It is lifted to the whole
  register by a Kronecker fold over all positions and then multiplied into the
  vector.
- **Measurement.** `measure_all_z` samples a basis state and reports its
  outcome tuple. `measure_one_z` samples one qubit's outcome and zeroes the
  amplitudes that disagree with it.
- **Handles and operations.** Qubit handles (`Qubit`) share the register.
  Operations (`MatrixOperation`) are unitary 2×2 matrices. They compose with
  `then`, invert with `adjoint`, and are checked with `is_unitary`.
- **Helpers.** The algebra helpers build permutation matrices and `ket`/`bra`
  vectors.

Modules:

- `Scalars`: exact complex numbers and their ring laws.
- `Linear`: vectors, matrices, products, conjugate transpose, Kronecker
  products with a 2-wide right factor, and total weight.
- `Bits`: powers of two and the bits of a basis index.
- `Faults`: the panics of the source, as values.
- `Algebra`: `permutation_smatrix`/`permutation_dmatrix`, `is_unitary`, `ket`
  and `bra`.
- `Types`: `Measurement`, `From<bool>`, `MatrixOperation` with `new`,
  `identity`, `matrix`, `adjoint` and `then`.
- `Engine`: allocation, the operator fold, and the gate action it must agree
  with (`GateAt`).
- `Measure`: the outcome enumeration, outcome weights, and single-qubit
  collapse.
- `Register`: the classes `State` and `Qubit` and `Operation::apply`. It is
  imperative: fields updated in place, loops with invariants.
- `Written`: the register operations exactly as the source writes them, with
  concrete inputs on which they go wrong (see Findings).

The `State` class implements the register's evident intent:

- It starts from the one-entry vector `[1]`.
- It allocates in logical zero.
- It folds from the 1×1 identity.
- It collapses onto the sampled basis state.
- It keeps the amplitudes that agree with the measured outcome.

Qubit `j` of an `n`-qubit register is bit `n - 1 - j` of a basis index. This
order comes from two parts of the code:

- allocation appends the new qubit as the least significant factor;
- `multi_cartesian_product` enumerates outcome tuples with the first qubit
  slowest.

`measure_one_z` alone counts bits from the least significant end
(`i & (1 << idx)`, src/state.rs:82), so there qubit `j` is bit `j`. The
model follows the order of allocation and enumeration; see Findings.

The random draws are parameters:

- `measure_all_z` receives the index the weighted sampler returns.
- `measure_one_z` receives the Boolean `random_bool` returns.

Each comes with the precondition that the sampler can return it.

## Model

| member | source | states |
|---|---|---|
| Register.State.constructor | src/state.rs:30-34 | a register without qubits holds the single amplitude 1, of total weight 1 |
| Register.State.AllocateQubit | src/state.rs:36-47 | the handle gets the next index and shares this register; the vector becomes `v ⊗ [1, 0]`; the qubit count grows by one; total weight is unchanged |
| Register.State.ApplyOperation | src/state.rs:49-58 | the loop builds exactly the Kronecker fold; its product with the vector is the gate acting on bit `size-1-idx` (GateAt); an index past the register leaves the vector unchanged |
| Register.State.MeasureAllZ | src/state.rs:60-72 | a weightless vector makes the sampler panic and changes nothing; otherwise the register collapses onto basis state `k` and the result is the outcome tuple of `k` |
| Register.State.ZeroSide | src/state.rs:75-89 | the pass over the vector returns the total weight of the basis states with qubit `q` at zero, and collects exactly those basis indices (corrected: the index, not the qubit number) |
| Register.State.MeasureOneZ | src/state.rs:74-107 | the result is ZERO exactly when the draw is true; the new vector keeps exactly the amplitudes of the basis states whose bit `size-1-q` agrees with the result and zeroes the rest; the qubit count is unchanged |
| Register.Qubit.constructor | src/qubit.rs:20-22 | a handle records its index and its register |
| Register.Qubit.ApplyOperation | src/qubit.rs:28-30 | the shared register's vector becomes the gate acting on this handle's qubit |
| Register.Apply | src/types.rs:55-57 | applying an operation to a handle acts on the handle's qubit of the shared register |
| Register.MeasureFreshRegister | src/state.rs:30-72 | `n` fresh qubits measured together read all ZERO and leave the register where it was |
| Register.FlippedFreshQubit | src/state.rs:36-107 | a fresh qubit after the bit-flip gate is `[0, 1]`; the only allowed draw reports ONE; that measurement leaves it unchanged |
| Register.BasisStateDrawsItself | src/state.rs:60-65 | on a basis state the vector has weight one, so the sampler succeeds, and the index it returns is the state's own; this is the draw the fresh register receives |
| Register.BitFlipPassesNew | src/types.rs:36-39 | the bit-flip gate is the operation `new` builds from `[[0, 1], [1, 0]]`, since that matrix passes the unitarity test |
| Register.FlipFreshQubit | src/state.rs:36-107 | allocating, flipping and measuring one qubit through the classes yields ONE and the state `[0, 1]` |
| Register.FlipOneQubit | src/state.rs:49-58 | the bit-flip gate exchanges the two amplitudes of a one-qubit register |
| Engine.GrowLogicalZero | src/state.rs:39-44 | allocation in logical zero puts amplitude `v[i]` at `2i` and zero at `2i+1` |
| Engine.GrowLogicalOne | src/state.rs:39-44 | allocation in logical one puts zero at `2i` and `v[i]` at `2i+1` |
| Engine.GrowKeepsWeight | src/state.rs:39-44 | allocating in a basis state keeps the total weight |
| Engine.GrowManyLength | src/state.rs:36-47 | `n` allocations multiply the vector length by `2^n` |
| Engine.GrowManyLogicalZero | src/state.rs:36-47 | `n` allocations in logical zero from `[1]` give basis state 0 of `2^n` |
| Engine.GrowManyLogicalOne | src/state.rs:40-43 | `n` allocations in logical one from `[1]` give basis state `2^n - 1` |
| Engine.EmptySeedStaysEmpty | src/state.rs:30-34 | allocating from the empty vector keeps it empty |
| Engine.OperatorShape | src/state.rs:50-56 | the fold over `n` positions multiplies both dimensions of the seed by `2^n` |
| Engine.EmptyOperator | src/state.rs:50-56 | the fold seeded with the 0×0 matrix stays 0×0 |
| Engine.OperatorOfIdentities | src/state.rs:50-56 | when the target lies past the register, the fold is the identity of size `2^n` |
| Engine.OperatorAction | src/state.rs:49-58 | for every vector of length `2^n`, multiplying by the fold equals GateAt: entry `r` mixes the two entries that differ only in bit `n-1-idx`, using the row of the gate that the bit selects |
| Engine.GateIdentity | src/types.rs:41-43 | the identity operation leaves every register unchanged |
| Engine.GateCompose | src/types.rs:28-30 | applying `a` and then `b` to a qubit equals applying their product `b·a` (`then`) |
| Engine.GateUndo | src/types.rs:51-53 | applying a unitary operation and then its adjoint restores the register |
| Measure.OutcomesLength | src/state.rs:63-64 | the enumeration of outcome tuples has `2^n` entries |
| Measure.OutcomesDecode | src/state.rs:63-71 | entry `k` of the enumeration is the outcome tuple of basis index `k`: qubit `j` reads bit `n-1-j` |
| Measure.DecodeZero | src/state.rs:63-64 | basis index 0 reads ZERO on every qubit |
| Measure.DecodeAllOnes | src/state.rs:63-64 | basis index `2^n - 1` reads ONE on every qubit |
| Measure.AllZerosReadsZero | src/state.rs:60-107 | on the basis state 0, every qubit measured alone reads ZERO with certainty |
| Measure.AllOnesReadsOne | src/state.rs:60-107 | on the basis state `2^n - 1`, every qubit measured alone reads ONE with certainty |
| Measure.WeightsPartition | src/state.rs:76-89 | the weight of ZERO plus the weight of ONE is the total weight |
| Measure.Outcome | src/state.rs:90-106 | the reported outcome is ZERO exactly when the Bernoulli draw is true |
| Measure.Remeasure | src/state.rs:74-107 | after the collapse, the only draw allowed for the same qubit is the same one, so measuring again repeats the outcome |
| Measure.BasisStateMeasuresAsDecoded | src/state.rs:60-107 | on a basis state, measuring qubit `q` alone is certain and agrees with entry `q` of that state's outcome tuple |
| Types.Discriminant | src/types.rs:12-15 | ZERO has discriminant 0 and ONE has discriminant 1 |
| Types.FromBool | src/types.rs:17-21 | `true` converts to ONE and `false` to ZERO |
| Types.New | src/types.rs:36-39 | construction succeeds exactly on unitary matrices and panics otherwise; the operation keeps the given matrix |
| Types.NewRejectsShear | src/types.rs:36-39 | the shear `[[1, 1], [0, 1]]` is refused |
| Types.IdentityOperationIsUnitary | src/types.rs:41-43 | the identity operation is unitary and passes `new` |
| Types.UnitaryByRows | src/algebra.rs:25-27 | `m · mᴴ = I` holds exactly when the rows are orthonormal |
| Types.ConjTransposeUnitary | src/types.rs:51-53 | the adjoint of a unitary matrix is unitary |
| Types.AdjointInvolutive | src/types.rs:51-53 | the adjoint of the adjoint is the operation itself |
| Types.AdjointUndoes | src/types.rs:51-53 | a unitary operation composed with its adjoint, in either order, is the identity, and the adjoint is unitary |
| Types.ThenIdentity | src/types.rs:28-30 | composing with the identity operation on either side changes nothing |
| Types.ThenAssociative | src/types.rs:28-30 | composition is associative |
| Types.AdjointOfThen | src/types.rs:28-30 | the adjoint of `a then b` is `adjoint(b) then adjoint(a)` |
| Types.ThenUnitary | src/types.rs:28-30 | the composition of unitary operations is unitary |
| Algebra.PermutationMatrix | src/algebra.rs:7-23 | construction succeeds exactly when the list is non-empty and every entry is a row index of the identity; an out-of-range entry panics, and an empty list panics in `from_rows`; row `i` is identity row `p[i]` |
| Algebra.PermutationIsUnitary | src/algebra.rs:7-27 | the matrix of a genuine non-empty permutation passes the unitarity test |
| Algebra.Ket | src/algebra.rs:29-40 | the column has two entries per bit |
| Algebra.KetPair | src/algebra.rs:29-40 | entries `2k` and `2k+1` are `[1, 0]` for bit 0 and `[0, 1]` for bit 1 |
| Algebra.KetSum | src/algebra.rs:29-40 | the entries add up to the number of bits |
| Algebra.KetShorterThanBasis | src/algebra.rs:29-40 | from three bits on, `ket` is shorter than the `2^n` amplitudes of an `n`-qubit register: it is a concatenation, not a tensor product |
| Algebra.Bra | src/algebra.rs:42-53 | the row is one row by two entries per bit |
| Algebra.BraIsAdjointOfKet | src/algebra.rs:29-53 | `bra` is the conjugate transpose of `ket` taken as a column |
| Written.AllocateWritten | src/state.rs:36-47 | allocation as written doubles the vector |
| Written.ApplyWritten | src/state.rs:49-58 | the product as written succeeds exactly when the fold's column count matches the vector |
| Written.ApplyWrittenPanics | src/state.rs:50-57 | with the 0×0 seed, every gate on a vector with entries panics with a dimension mismatch |
| Written.MeasureAllWritten | src/state.rs:60-72 | as written, a weightless vector makes the sampler panic |
| Written.MeasureOneWritten | src/state.rs:74-107 | as written, the outcome follows the draw and the vector keeps its length |
| Written.EmptyRegisterStaysEmpty | src/state.rs:30-34 | as written, the vector stays empty through allocation and gates, and `measure_all_z` always panics |
| Written.FreshQubitsReadOneWritten | src/state.rs:40-43 | as written, every freshly allocated qubit reads ONE |
| Written.FreshQubitsReadZero | src/state.rs:40-43 | with logical zero, every freshly allocated qubit reads ZERO |
| Written.CollapseMisplacedWritten | src/state.rs:66-70 | as written, on basis state 1 of two qubits the result is `[ZERO, ONE]`, but the state collapses onto basis state 2, which reads `[ONE, ZERO]` |
| Written.CollapseOutOfBoundsWritten | src/state.rs:68 | as written, on basis state 3 of two qubits the collapse indexes past the vector and panics |
| Written.MeasureOneWipesWritten | src/state.rs:81-106 | as written, one qubit in state one has no ZERO weight, and its measurement wipes every amplitude; the intended collapse keeps the state |
| Written.MeasureOneWrongBitWritten | src/state.rs:82 | as written, on two qubits in basis state 1, qubit 0 reports ONE, although all the weight has qubit 0 at ZERO |

## Left out

- Floating point: amplitudes are exact complex numbers with real parts, and
  the unitarity test compares exactly. `f64` rounding is not modelled.
- Normalisation: `normalize_mut` after `measure_one_z` needs a square root.
  The stored vector is the un-normalised collapse. The preconditions on the
  draws are stated on un-normalised weights, which is equivalent.
- Randomness: `rng()`, `WeightedIndex::sample` and `random_bool` are
  parameters of the measurement methods. The sampler's other failures are not
  modelled: negative or non-finite weights, too many weights.
- `Rc`/`RefCell`/`Cell` aliasing: the shared register is a Dafny object
  reference, and run-time borrow checks are not modelled.
- The `Qubit::state` accessor is the handle's `state` field.
- The generic `Operation` trait: only `MatrixOperation` implements it, and
  `then` and `apply` are modelled on it. `MatrixOperation::matrix` is the
  datatype's field `m`.
- Machine integers: `usize` overflow of `1 << idx`, of `2usize.pow(idx)` and
  of the qubit count is not modelled; integers are unbounded.
- `multi_cartesian_product` over zero qubits: the enumeration is modelled as
  the one empty tuple.
- `permutation_smatrix`'s const-generic array is a sequence of length `N`.
  Both permutation builders share one definition.
- Algebra.BraIsAdjointOfKet: requires at least one bit, because a matrix
  without rows records no column count in this model.
- Register.State.ApplyOperation: norm preservation of a unitary gate on the
  whole register is not proved. What is proved: the gate action, the identity
  law, composition, and undoing by the adjoint.
- Register.State.ApplyOperation, Register.Qubit.ApplyOperation and
  Register.Apply accept any `MatrixOperation`, although the source can only
  hold ones built by `new` (unitary) or `identity`. Their contracts do not
  depend on unitarity; the bit-flip gate used with them passes `new`
  (Register.BitFlipPassesNew).
- Register.State.MeasureOneZ: the set loop of the ONE branch visits `idxs`
  in an arbitrary order. Every order gives the same result.

## Findings

| source | as written | input that shows it | evidently intended | confidence | as-written member | corrected member |
|---|---|---|---|---|---|---|
| src/state.rs:30-34 | the default amplitude vector is empty, so allocation keeps it empty and `measure_all_z` always panics | `State::new()`, `qubit()`, `measure_all_z()` | start from the one-entry vector `[1]` | not executed | Written.EmptyRegisterStaysEmpty | Register.MeasureFreshRegister |
| src/state.rs:50 | the operator fold starts from the 0×0 matrix, so the operator is 0×0 and the product panics on any non-empty vector | any gate applied to a register with entries | start the fold from the 1×1 identity | not executed | Written.ApplyWrittenPanics | Engine.OperatorAction |
| src/state.rs:40-43 | a new qubit enters as `[0, 1]`, logical one | allocate one qubit and measure it: ONE | logical zero `[1, 0]` | not executed | Written.FreshQubitsReadOneWritten | Written.FreshQubitsReadZero |
| src/state.rs:68 | the collapse writes 1 at index `2^k` rather than at the sampled index `k` | two qubits in basis state 1 (collapse onto state 2) or basis state 3 (index 8 of 4) | collapse onto basis state `k` | not executed | Written.CollapseMisplacedWritten | Register.State.MeasureAllZ |
| src/state.rs:83 | `idxs.insert(idx)` records the qubit number, not the basis index; the ZERO branch then zeroes `idxs` and the ONE branch keeps it | one qubit in state `[0, 1]`, `measure_one_z(0)`: the draw is false and every amplitude is wiped | record `i`; ZERO keeps the zero set, ONE zeroes it | not executed | Written.MeasureOneWipesWritten | Register.State.MeasureOneZ |
| src/state.rs:82 | `i & (1 << idx)` tests the least significant bits, but allocation and `measure_all_z` put qubit 0 at the most significant bit | two qubits in basis state 1, `measure_one_z(0)` reports ONE | test bit `size - 1 - idx` | not executed | Written.MeasureOneWrongBitWritten | Measure.BasisStateMeasuresAsDecoded |
