/**
 * storage/storage_manager.py: `StorageManager`, a registry of named tables
 * with insertion, reading and filtering by one column.
 *
 * A table (storage/table.py) is abstracted as the sequence of its rows, a
 * row as the dictionary `model_dump()` gives. What building a table or
 * validating an entry produces (schema checks, pydantic coercion, a fresh
 * uuid) is an input of the operation that triggers it.
 */
module Storage {
  import opened Common

  /** One entry as a dictionary from column to value. */
  type Row = map<string, Value>

  const TableNotFound := ValueError("Table not found")

  /** `_get_table`: ValueError for an unknown name. */
  function GetTable(tables: map<string, seq<Row>>, name: string): (r: Result<seq<Row>>)
    ensures r.Err? <==> name !in tables
    ensures r.Err? ==> r.error == TableNotFound
    ensures r.Ok? ==> r.value == tables[name]
  {
    if name !in tables then Err(TableNotFound) else Ok(tables[name])
  }

  /** The filter of `get_entry`: the column is present and holds the value. */
  predicate Matches(row: Row, column: string, value: Value)
  {
    column in row && row[column] == value
  }

  /** The rows that match, in storage order. */
  function Filtered(rows: seq<Row>, column: string, value: Value): (rs: seq<Row>)
    ensures |rs| <= |rows|
  {
    if rows == [] then []
    else
      var last := rows[|rows| - 1];
      Filtered(rows[..|rows| - 1], column, value) + if Matches(last, column, value) then [last] else []
  }

  /** `a` is `b` with some elements left out, the rest kept in order. */
  predicate Subsequence<T(==)>(a: seq<T>, b: seq<T>)
    decreases |b|
  {
    if a == [] then true
    else if b == [] then false
    else if a[|a| - 1] == b[|b| - 1] then Subsequence(a[..|a| - 1], b[..|b| - 1])
    else Subsequence(a, b[..|b| - 1])
  }

  /** The filtered rows are a subsequence of the table's rows. */
  lemma {:induction false} FilteredSubsequence(rows: seq<Row>, column: string, value: Value)
    ensures Subsequence(Filtered(rows, column, value), rows)
  {
    if rows != [] {
      var init := rows[..|rows| - 1];
      var last := rows[|rows| - 1];
      FilteredSubsequence(init, column, value);
      var f := Filtered(init, column, value);
      if Matches(last, column, value) {
        assert (f + [last])[..|f|] == f;
      } else if f != [] {
        // the last kept row matches, so it is not `last`
        FilteredMembers(init, column, value);
        assert f[|f| - 1] in f;
        assert f + [] == f;
      }
    }
  }

  /** A row is among the filtered rows iff it is one of the table's rows and matches. */
  lemma {:induction false} FilteredMembers(rows: seq<Row>, column: string, value: Value)
    ensures forall row :: row in Filtered(rows, column, value) <==> row in rows && Matches(row, column, value)
  {
    if rows != [] {
      var init := rows[..|rows| - 1];
      FilteredMembers(init, column, value);
      assert rows == init + [rows[|rows| - 1]];
    }
  }

  /** When every row matches, nothing is left out. */
  lemma {:induction false} FilteredAll(rows: seq<Row>, column: string, value: Value)
    requires forall i | 0 <= i < |rows| :: Matches(rows[i], column, value)
    ensures Filtered(rows, column, value) == rows
  {
    if rows != [] {
      var init := rows[..|rows| - 1];
      FilteredAll(init, column, value);
      assert rows == init + [rows[|rows| - 1]];
    }
  }

  /** None of the rows matches: the filter is empty. */
  lemma {:induction false} FilteredNone(rows: seq<Row>, column: string, value: Value)
    requires forall i | 0 <= i < |rows| :: !Matches(rows[i], column, value)
    ensures Filtered(rows, column, value) == []
  {
    if rows != [] {
      FilteredNone(rows[..|rows| - 1], column, value);
    }
  }

  class StorageManager {
    var tables: map<string, seq<Row>>

    constructor ()
      ensures tables == map[]
    {
      tables := map[];
    }

    /**
     * `create_table`: a registered name gives False and changes nothing;
     * otherwise the table is built, and on success registered under the
     * name, giving True; an exception from building propagates with the
     * name still unregistered. `built` is what building produced.
     */
    method CreateTable(name: string, built: Result<seq<Row>>) returns (r: Result<bool>)
      modifies this
      ensures name in old(tables) ==> r == Ok(false) && tables == old(tables)
      ensures name !in old(tables) && built.Ok? ==> r == Ok(true) && tables == old(tables)[name := built.value]
      ensures name !in old(tables) && built.Err? ==> r == Err(built.error) && tables == old(tables)
    {
      if name in tables {
        return Ok(false);
      }
      if built.Err? {
        return Err(built.error);
      }
      tables := tables[name := built.value];
      return Ok(true);
    }

    /**
     * `insert_entry`: None for an unknown table, with nothing changed;
     * otherwise the named table alone gets the validated row, which is
     * returned. `validated` is what the table's validation produced.
     */
    method InsertEntry(name: string, validated: Result<Row>) returns (r: Result<Option<Row>>)
      modifies this
      ensures name !in old(tables) ==> r == Ok(None) && tables == old(tables)
      ensures name in old(tables) && validated.Err? ==> r == Err(validated.error) && tables == old(tables)
      ensures name in old(tables) && validated.Ok? ==>
                && r == Ok(Some(validated.value))
                && tables == old(tables)[name := old(tables)[name] + [validated.value]]
    {
      if name !in tables {
        return Ok(None);
      }
      if validated.Err? {
        return Err(validated.error);
      }
      tables := tables[name := tables[name] + [validated.value]];
      return Ok(Some(validated.value));
    }

    /** `read_entries`: the table's rows, or ValueError for an unknown table. */
    method ReadEntries(name: string) returns (r: Result<seq<Row>>)
      ensures r.Err? <==> name !in tables
      ensures r.Err? ==> r.error.ValueError?
      ensures r.Ok? ==> r.value == tables[name]
    {
      r := GetTable(tables, name);
    }

    /** `get_entry`: read the table and keep, in order, the rows where `column` holds `value`. */
    method GetEntry(name: string, column: string, value: Value) returns (r: Result<seq<Row>>)
      ensures r.Err? <==> name !in tables
      ensures r.Err? ==> r.error.ValueError?
      ensures r.Ok? ==> r.value == Filtered(tables[name], column, value)
    {
      var entries := ReadEntries(name);
      if entries.Err? {
        return Err(entries.error);
      }
      var rows := entries.value;
      var results := [];
      var i := 0;
      while i < |rows|
        invariant 0 <= i <= |rows|
        invariant results == Filtered(rows[..i], column, value)
      {
        assert rows[..i + 1][..i] == rows[..i];
        if column in rows[i] && rows[i][column] == value {
          results := results + [rows[i]];
        }
        i := i + 1;
      }
      assert rows[..i] == rows;
      return Ok(results);
    }
  }
}
