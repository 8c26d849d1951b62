/** The settlement state of a JavaScript promise: the first resolve or reject wins. */
module Promises {

  datatype Promise<T, E> = Pending | Fulfilled(value: T) | Rejected(reason: E) {

    /** `resolve(v)`: has an effect only while the promise is still pending. */
    function Resolve(v: T): Promise<T, E> {
      if Pending? then Fulfilled(v) else this
    }

    /** `reject(e)`: has an effect only while the promise is still pending. */
    function Reject(e: E): Promise<T, E> {
      if Pending? then Rejected(e) else this
    }
  }
}
