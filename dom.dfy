/** Values that the page script reads from and writes to DOM elements,
    stripped of the DOM itself. */
module Dom {

  /** A value that may be absent: a missing attribute, a `null` element. */
  datatype Option<T> = None | Some(value: T)

  /** The inline `style.display` of an element, as the script writes it:
      "block", "none", or "" (inline style cleared, the stylesheet decides). */
  datatype Display = Block | Hidden | Unset

  /** Where a click on an overlay widget landed: on the overlay element itself
      (`e.target === overlay`), or on something inside it. */
  datatype ClickTarget = Overlay | Inside
}
