/** Values shared by the page mapping and the calendar serializer of main.tsx. */
module FeedTypes {

  /** A JavaScript value that may be `null` or `undefined`. */
  datatype Option<T> = None | Some(value: T)

  /** JavaScript truthiness of a string that may be missing: present and not empty. */
  predicate Truthy(s: Option<string>) {
    s.Some? && s.value != ""
  }

  /** The foreign normalisation `new Date(x).toISOString()`, supplied by the caller. */
  type Normalizer = string -> string

  /** The record built for each page (main.tsx:54-60). `start` and `end` are
      `undefined` (None) when the page's date has no start. */
  datatype Event = Event(
    uid: string,
    title: string,
    start: Option<string>,
    end: Option<string>,
    description: string)
}
