/** Outcomes of calls into Python code that may raise.
    A Python call either returns a value or raises an exception; the model keeps
    only the exception's message (what `str(e)` gives), since every handler in the
    modelled code uses nothing else. */
module Outcomes {

  datatype Call<+T> = Returned(value: T) | Raised(message: string)

  datatype Option<+T> = None | Some(value: T)
}
