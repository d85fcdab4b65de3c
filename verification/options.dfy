/** An optional value that works with Dafny's `:-` operator; the decoders
    of this project return `None` for text they do not accept. */
module Options {

  datatype Option<+T> = None | Some(value: T) {

    predicate IsFailure() {
      None?
    }

    function PropagateFailure<U>(): Option<U>
      requires None?
    {
      None
    }

    function Extract(): T
      requires Some?
    {
      value
    }
  }
}
