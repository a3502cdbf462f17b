/** Small value types shared by every component of the portal model. */
module Base {

  /** A value that may be absent: JavaScript's `undefined`/`null` or a missing row. */
  datatype Option<T> = None | Some(value: T)

  /** The answer of the remote store to one write, supplied by the caller. */
  datatype Outcome = Ok | Err

  /** A save from an edit dialog: an insert of a new row, or an update of the
      row being edited. */
  datatype Write<P> = Insert(payload: P) | Update(id: string, payload: P)

  /** `s || null` on a string: the empty string is falsy and becomes null. */
  function NullIfEmpty(s: string): (r: Option<string>)
    ensures r == None <==> s == ""
    ensures s != "" ==> r == Some(s)
  {
    if s == "" then None else Some(s)
  }

  /** `o || ''` on a nullable string: null (and the empty string) become `''`. */
  function EmptyIfNull(o: Option<string>): (r: string)
    ensures r == "" <==> (o == None || o == Some(""))
    ensures o.Some? ==> r == o.value
  {
    match o
    case None => ""
    case Some(s) => s
  }

  /** Saving a form field and opening it again gives the field back unchanged. */
  lemma FormFieldRoundTrip(s: string)
    ensures EmptyIfNull(NullIfEmpty(s)) == s
  {
  }

  /** Opening a stored value for edit and saving it again gives it back, except
      that a stored empty string comes back as null. */
  lemma StoredFieldRoundTrip(o: Option<string>)
    ensures NullIfEmpty(EmptyIfNull(o)) == (if o == Some("") then None else o)
  {
  }
}
