/** What a JSX slot of the form `{a && b && <Element/>}` puts on the page.
    React renders nothing for `false`, `null` and `undefined`, but renders a
    number, including `0`, as text. */
module Render {

  datatype Slot<T> = Nothing | Stray(text: string) | Element(value: T)

  /** The slot renders exactly the element or nothing at all. */
  predicate Clean<T>(s: Slot<T>) {
    !s.Stray?
  }
}
