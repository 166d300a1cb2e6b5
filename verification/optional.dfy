/** A value that may be missing: the model's stand-in for a C# reference
    that may be null, such as an actor without a condition ledger or an owner
    without a prerequisite manager. */
module Optional {

  datatype Option<T> = None | Some(value: T)
}
