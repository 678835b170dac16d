/** The material grid has no recovery path: every error aborts the whole run.
    An abort is modelled as an error value that the caller passes on. */
module Fatal {

  datatype Abort =
    | SymmetryNeedsCartesian   // a non-trivial symmetry on anything but a 2D cartesian volume
    | OddGridPoints            // a symmetry-broken axis with an odd number of grid points
    | UnsupportedDimension     // sampling permittivity on a grid that is not 1D, 2D or cylindrical
    | MismatchedChunkTopology  // blending two grids with different chunk counts

  datatype Option<T> = None | Some(value: T)

  datatype Result<T> = Ok(value: T) | Aborted(reason: Abort)

  datatype Outcome = Done | Failed(reason: Abort)
}
