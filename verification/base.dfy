/** Values shared by every part of the model: optional values, the outcome
    of a call that may raise, 3-vectors, rendered frames and the
    path-suffix test the loaders and writers dispatch on. */
module Base {

  /** Python's `None` or a value. */
  datatype Option<+T> = None | Some(value: T) {
    function GetOr(default: T): T
    {
      match this
      case Some(v) => v
      case None => default
    }
  }

  /** The outcome of a library call that either returns or raises an
      exception carrying a message. */
  datatype Attempt<+T> = Returned(value: T) | Raised(reason: string)

  /** A 3-vector: a position, an RGB colour or a normal. */
  datatype Vec3 = Vec3(x: real, y: real, z: real)

  /** A captured colour frame. Only its shape (numpy's `shape[0]` and
      `shape[1]`) matters to the logic; pixel values are left out. */
  datatype Frame = Frame(height: nat, width: nat)

  /** Python's `str.endswith` for one suffix: case-sensitive, exact. */
  predicate EndsWith(s: string, suffix: string)
  {
    |suffix| <= |s| && s[|s| - |suffix|..] == suffix
  }
}
