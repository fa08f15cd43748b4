/** Cell values shared by every table of the wrangling pipeline. */
module Values {

  /** A value that may be absent: used for a column that does not exist yet
      and for the result of a left join that found no partner. */
  datatype Option<+T> = None | Some(value: T)

  /** One object-typed DataFrame cell: NaN (`Null`) or a Python string. */
  datatype Cell = Null | Str(s: string)

  /** The sentinel the notebook writes for a missing name or dog stage
      (with a capital N, as Python's `repr(None)`). */
  const NONE_TEXT: string := "None"
}
