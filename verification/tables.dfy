/** The shared data model: data frames of named numeric columns and the
    failures the drift pipeline reports instead of a value. */
module Tables {

  /** The failures of the core. */
  datatype Error =
    | MissingColumn(name: string)   // a frame indexed by a column label it does not have
    | EmptyReport                   // a drift table with no rows cannot be summarised

  datatype Result<T> = Ok(value: T) | Err(error: Error)

  ghost predicate Distinct<T>(s: seq<T>) {
    forall i, j :: 0 <= i < j < |s| ==> s[i] != s[j]
  }

  /** A data frame: an ordered sequence of column labels, the values of each
      column by label, and the number of rows (the length of the frame's
      index, which a frame has even when it has no columns). */
  datatype Table = Table(columns: seq<string>, data: map<string, seq<real>>, length: nat) {

    /** Labels are unique, every label has a column and every column has
        one value per row. */
    ghost predicate Valid() {
      && Distinct(columns)
      && (forall c :: c in data <==> c in columns)
      && (forall c :: c in data ==> |data[c]| == length)
    }
  }
}
