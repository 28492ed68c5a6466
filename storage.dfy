/** The browser's local storage, reduced to what the slices use: one key that
    holds one value. Serialisation is not modelled; the slot holds the value
    that was written. */
module Storage {
  import opened Options

  class Slot<T> {
    /** What `getItem` would return: nothing, or the last value written. */
    var content: Option<T>
    /** Whether `setItem` currently succeeds; it throws when the quota is
        exhausted or storage is disabled. */
    var accepts: bool

    constructor (content: Option<T>, accepts: bool)
      ensures this.content == content && this.accepts == accepts
    {
      this.content := content;
      this.accepts := accepts;
    }

    /** `setItem`: stores `value`, or throws and leaves the slot as it was. */
    method SetItem(value: T) returns (thrown: bool)
      modifies this`content
      ensures thrown == !accepts
      ensures content == if accepts then Some(value) else old(content)
    {
      thrown := !accepts;
      if accepts {
        content := Some(value);
      }
    }
  }
}
