/** The ways the register's operations abort. The source panics (an `assert!`,
    an out-of-bounds index, a failed `unwrap`, a dimension mismatch in a
    matrix product); the model returns the panic as a value instead. */
module Faults {

  datatype Fault =
    | NotUnitary               // `MatrixOperation::new` on a non-unitary matrix
    | PermutationOutOfRange    // an identity-row lookup past the last row
    | NoRows                   // a matrix built from an empty list of rows
    | DimensionMismatch        // operator and amplitude vector of different sizes
    | DegenerateWeights        // no weight to sample from: empty or all zero
    | IndexOutOfBounds         // writing an amplitude past the end of the vector
    | ProbabilityOutOfRange    // a Bernoulli draw with p outside [0, 1]
    | NoSuchOutcome            // the outcome enumeration has no entry at the index

  datatype Result<+T> = Ok(value: T) | Panic(fault: Fault)
}
