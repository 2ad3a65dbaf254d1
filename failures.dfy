/** The exceptions the phase-space code raises, and a result type that carries either a
    value or one of them. */
module Failures {

  datatype Error =
    | NoUniqueRoot          // ValueError: no sign change on the bracket
    | DerivativeTooSmall    // ValueError: Newton slope below epsilon
    | NegativeInvariant     // ValueError: s needs to be always positive
    | BelowThreshold        // ValueError: COM energy not above the sum of masses
    | MassCountMismatch     // AssertionError: len(masses) != nparticles
    | GammaDomain           // ValueError from math.gamma at a non-positive integer
    | NotImplemented        // NotImplementedError
    | NotSubscriptable      // TypeError: a mapping object indexed as if it were its inputs
    | NotATensor            // TypeError: torch.sum applied to a Python list
    | UnpackMismatch        // ValueError: a tensor unpacked into a different number of names
    | ShapeMismatch         // RuntimeError: a contraction over axes of different lengths

  datatype Result<T> = Ok(value: T) | Err(error: Error)

  /** An optional argument: Python's None or a value. */
  datatype Option<T> = None | Some(value: T)
}
