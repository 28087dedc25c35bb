/** Shared vocabulary of the volume driver registry: the fixed error values of
    the volume package, the two result shapes its functions return, the
    factory handle a backend registers, and the driver instance the registry
    hands out. */
module Volume {

  /** The package's error values, plus `Other` for any error a backend's
      factory produces itself. Go compares these by identity, so an `Other`
      error is never equal to a named one, whatever its text. */
  datatype Error =
    | ErrExist
    | ErrDriverNotFound
    | ErrDriverInitializing
    | ErrEnoEnt
    | ErrEnomem
    | ErrEinval
    | ErrVolDetached
    | ErrVolAttached
    | ErrVolHasSnaps
    | ErrNotSupported
    | Other(message: string)

  /** A value-or-error pair, as `(VolumeDriver, error)` in Go. */
  datatype Result<T> = Ok(value: T) | Err(error: Error)

  /** An error-only return, as a Go `error` that may be nil. */
  datatype Outcome = Pass | Fail(error: Error)

  /** Driver configuration handed verbatim to a factory. */
  type Config = map<string, string>

  /** An opaque handle for a backend's initialisation function. The registry
      only stores it; what calling it produces is supplied to `New` as a
      parameter. */
  datatype Factory = Factory(id: nat)

  /** A live driver instance. Its capability methods (I/O, lifecycle,
      enumeration, block attach) are not modelled; the registry only ever
      calls `Shutdown`, and `shutdowns` counts those calls. */
  class Driver {
    // Records the calls the registry makes to `Shutdown`; it has no
    // counterpart in a real driver, whose shutdown has effects of its own.
    var shutdowns: nat

    /** Release the backend's resources; observed here as one more call. */
    method Shutdown()
      modifies this
      ensures shutdowns == old(shutdowns) + 1
    {
      shutdowns := shutdowns + 1;
    }
  }
}
