/**
 * What the hosted record store answers to the forms' `insert(...).select('id').single()`.
 * The store is remote; each call's result is an input to the model.
 */
module RecordStore {
  import opened Wrappers

  datatype InsertOutcome =
    /** A row came back; its `id` is the given string, empty when the row has none. */
    | Inserted(id: string)
    /** Neither an error nor a row. */
    | NoRow
    /** The store answered with an error object carrying this message. */
    | InsertError(message: string)
    /** The awaited call threw: an `Error` with its message, or some other value. */
    | InsertThrew(thrownMessage: Option<string>)

  /** `!error && data?.id`: the id of the stored row, when there is one. */
  function StoredId(o: InsertOutcome): (r: Option<string>)
    ensures r.Some? <==> o.Inserted? && o.id != ""
    ensures r.Some? ==> r.value == o.id && r.value != ""
  {
    match o
    case Inserted(id) => if id != "" then Some(id) else None
    case _ => None
  }
}
