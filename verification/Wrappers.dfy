/** Small types and functions that several modules share. */
module Wrappers {
  type Byte = b: int | 0 <= b < 256

  /** A value that may be missing. */
  datatype Option<+T> = None | Some(value: T) {
    predicate IsFailure() {
      None?
    }

    function PropagateFailure<U>(): Option<U>
      requires None?
    {
      None
    }

    function Extract(): T
      requires Some?
    {
      value
    }
  }

  /** `alphabet.indexOf(ch)` */
  function IndexOf(alphabet: string, ch: char): (idx: Option<nat>)
    ensures idx.Some? ==> idx.value < |alphabet| && alphabet[idx.value] == ch && ch !in alphabet[..idx.value]
    ensures idx.None? ==> ch !in alphabet
  {
    if alphabet == [] then None
    else if alphabet[0] == ch then Some(0)
    else
      match IndexOf(alphabet[1..], ch)
      case None => None
      case Some(k) => Some(k + 1)
  }
}
