/** Small shared datatypes: optional values, the engine's error results, vectors. */
module Types {

  datatype Option<+T> = None | Some(value: T)

  /** The one error the instance registry reports ("Instance not found"). */
  datatype Error = InstanceNotFound

  /** A `Result` as returned by the registry's fallible operations. */
  datatype Result<+T> = Ok(value: T) | Err(error: Error)

  /** `ultraviolet::Vec3`.  Floats are modelled as reals; the model never computes with them. */
  datatype Vec3 = Vec3(x: real, y: real, z: real)
}
