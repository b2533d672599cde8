/** Failure-compatible wrappers used across the model: a nullable value and a result with an error. */
module Wrappers {

  /** A value that may be absent; stands for a Java reference that may be null. */
  datatype Option<+T> = None | Some(value: T)

  /** The exceptions the modelled code can raise. */
  datatype Error =
    /** subList asked for a range whose end precedes its start. */
    InvalidSubListRange
    /** setFirstResult or setMaxResults was given a negative value. */
  | NegativePageBound

  /** Either a value or the exception that interrupted the computation. */
  datatype Result<+T> = Ok(value: T) | Err(error: Error)
}
