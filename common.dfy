/** Small shared vocabulary: an optional value (JavaScript's `undefined`), the outcome of an
    asynchronous operation that either resolves or rejects with an `Error` message, and the
    journal entry record that the catalog builds and the store keeps. */
module Common {

  /** `None` stands for JavaScript's `undefined`. */
  datatype Option<T> = None | Some(value: T)

  /** A promise that resolves (`Done`) or rejects with `new Error(message)` (`Failed`). */
  datatype Outcome = Done | Failed(message: string)

  /** A journal entry as it is stored: `{id, element, text, folder, date}`. */
  datatype Entry = Entry(id: int, element: string, text: string, folder: string, date: string)
}
