/** Option and Result, and the errors the modelled code raises. */
module Wrappers {

  datatype Option<+T> = None | Some(value: T)

  /** The exceptions that escape the modelled code. */
  datatype Error =
    | CytoflowError(msg: string)        // cytoflow.utility.CytoflowError
    | CytoflowOpError(msg: string)      // cytoflow.utility.CytoflowOpError
    | CytoflowViewError(msg: string)    // cytoflow.utility.CytoflowViewError
    | TraitError(name: string)          // a trait rejected the value assigned to it
    | KeyError(key: string)             // a dictionary lookup missed
    | AttributeError(attr: string)      // an object lacks the attribute read from it
    | IndexError                        // an index past the end of a list
    | ValueError(msg: string)           // e.g. max() of an empty list, droplevel of the last level
    | ForeignError(msg: string)         // raised by code outside the model (pandas, cytoflow)

  datatype Result<+T> = Ok(value: T) | Err(error: Error) {
    predicate IsFailure() { Err? }

    function PropagateFailure<U>(): Result<U>
      requires Err?
    {
      Err(error)
    }

    function Extract(): T
      requires Ok?
    {
      value
    }
  }
}
