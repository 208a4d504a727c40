/** The values that travel from a request to a database row. */
module Values {

  datatype Option<+T> = None | Some(value: T)

  type byte = bv8

  /** A string handed to the buffer and to SQLite; `None` is a string whose data pointer is NULL. */
  type Value = Option<seq<byte>>

  /** One log entry: a value per column, in column order. */
  type Row = seq<Value>

  /** How many values of a row are not NULL. */
  function NonNull(row: Row): nat {
    if row == [] then 0 else NonNull(row[..|row| - 1]) + (if row[|row| - 1].Some? then 1 else 0)
  }

  lemma {:induction false} NonNullOfPrefix(row: Row, i: nat)
    requires i <= |row|
    ensures NonNull(row[..i]) <= NonNull(row)
    decreases |row| - i
  {
    if i < |row| {
      NonNullOfPrefix(row, i + 1);
      assert row[..i + 1][..i] == row[..i];
    } else {
      assert row[..i] == row;
    }
  }
}
