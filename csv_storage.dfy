/**
 * storage/writer/csv_storage.py: `CSVStorage`, which keeps each table in a
 * CSV file with a "schema sidecar" file next to it listing `col:typename`
 * lines, and converts cell values to and from text.
 *
 * The file system is a `Disk` class holding the CSV files (a header row and
 * data rows of cells, as the csv module reads them) and the sidecar files
 * (their lines without the line break), each keyed by path.
 */
module CsvStorage {
  import opened Common
  import opened DomainUtils

  /** The column types a schema may name (`SUPPORTED_TYPES` of storage_port.py, without None). */
  datatype ColType = IntType | FloatType | StrType | BoolType | DateTimeType

  /** `typ.__name__`, as written into the sidecar. */
  function TypeName(t: ColType): (name: string)
    ensures name in {"int", "float", "str", "bool", "datetime"}
  {
    match t
    case IntType => "int"
    case FloatType => "float"
    case StrType => "str"
    case BoolType => "bool"
    case DateTimeType => "datetime"
  }

  /** `_resolve_type`: the five known names map to their types, anything else to str. */
  function ResolveType(name: string): (t: ColType)
    ensures name in {"int", "float", "str", "bool", "datetime"} ==> TypeName(t) == name
    ensures name !in {"int", "float", "str", "bool", "datetime"} ==> t == StrType
  {
    if name == "int" then IntType
    else if name == "float" then FloatType
    else if name == "bool" then BoolType
    else if name == "datetime" then DateTimeType
    else StrType
  }

  /** Resolving the name a type is written under gives the type back. */
  lemma ResolveTypeName(t: ColType)
    ensures ResolveType(TypeName(t)) == t
  {
  }

  /**
   * The ASCII characters `str.isspace()` accepts, which `str.strip()` and
   * `int()` remove: tab to carriage return, the four separators 0x1C-0x1F
   * and the space.
   */
  predicate IsSpace(c: char)
  {
    c == ' ' || '\t' <= c <= '\r' || '\U{001C}' <= c <= '\U{001F}'
  }

  /** `str.lstrip()`: the input with its leading whitespace removed. */
  function LStrip(s: string): (r: string)
    ensures |r| <= |s|
    ensures r == [] || !IsSpace(r[0])
  {
    if s != [] && IsSpace(s[0]) then LStrip(s[1..]) else s
  }

  /** `str.rstrip()`: the input with its trailing whitespace removed. */
  function RStripSpace(s: string): (r: string)
    ensures |r| <= |s|
    ensures r == [] || !IsSpace(r[|r| - 1])
    ensures r != [] ==> r[0] == s[0]
  {
    if s != [] && IsSpace(s[|s| - 1]) then RStripSpace(s[..|s| - 1]) else s
  }

  /** `str.strip()`: leading and trailing whitespace removed. */
  function Strip(s: string): (r: string)
    ensures r == [] || (!IsSpace(r[0]) && !IsSpace(r[|r| - 1]))
    ensures |r| <= |s|
  {
    RStripSpace(LStrip(s))
  }

  /** `lstrip()` removes leading whitespace and nothing else: the result is a suffix, and what it cut off is whitespace. */
  lemma {:induction false} LStripRemovesOnlySpace(s: string)
    ensures var r := LStrip(s);
            r == s[|s| - |r|..] && forall i | 0 <= i < |s| - |r| :: IsSpace(s[i])
  {
    if s != [] && IsSpace(s[0]) {
      LStripRemovesOnlySpace(s[1..]);
    }
  }

  /** `rstrip()` removes trailing whitespace and nothing else: the result is a prefix, and what it cut off is whitespace. */
  lemma {:induction false} RStripRemovesOnlySpace(s: string)
    ensures var r := RStripSpace(s);
            r == s[..|r|] && forall i | |r| <= i < |s| :: IsSpace(s[i])
  {
    if s != [] && IsSpace(s[|s| - 1]) {
      RStripRemovesOnlySpace(s[..|s| - 1]);
    }
  }

  /**
   * `strip()` removes whitespace and nothing else: the result is a
   * contiguous piece of the text, and everything before and after it is
   * whitespace.
   */
  lemma StripRemovesOnlySpace(s: string)
    ensures var r := Strip(s);
            var lead := |s| - |LStrip(s)|;
            && lead + |r| <= |s| && r == s[lead..lead + |r|]
            && (forall i | 0 <= i < lead :: IsSpace(s[i]))
            && (forall i | lead + |r| <= i < |s| :: IsSpace(s[i]))
  {
    LStripRemovesOnlySpace(s);
    RStripRemovesOnlySpace(LStrip(s));
  }

  /** A text that neither starts nor ends with whitespace is left alone by `strip()`. */
  lemma StripNoop(s: string)
    requires s != [] && !IsSpace(s[0]) && !IsSpace(s[|s| - 1])
    ensures Strip(s) == s
  {
    assert LStrip(s) == s;
    assert RStripSpace(s) == s;
  }

  /** `str.lower()` on ASCII letters; no other character lowers to one of "true", "1" or "yes". */
  function Lower(s: string): (r: string)
    ensures |r| == |s|
  {
    seq(|s|, i requires 0 <= i < |s| => if 'A' <= s[i] <= 'Z' then s[i] - 'A' + 'a' else s[i])
  }

  predicate AllDigits(s: string)
  {
    forall i | 0 <= i < |s| :: '0' <= s[i] <= '9'
  }

  /** The number a run of decimal digits denotes. */
  function DigitsValue(s: string): int
  {
    if s == [] then 0 else DigitsValue(s[..|s| - 1]) * 10 + (s[|s| - 1] as int - '0' as int)
  }

  /** Reading back the decimal text of `n` gives `n`. */
  lemma {:induction false} DigitsValueText(n: nat)
    ensures DigitsValue(NatText(n)) == n
  {
    if n >= 10 {
      var s := NatText(n);
      DigitsValueText(n / 10);
      assert s[..|s| - 1] == NatText(n / 10);
    }
  }

  /** `str(n)` for an int. */
  function IntText(n: int): string
  {
    if n < 0 then "-" + NatText(-n) else NatText(n)
  }

  const IntLiteralError := ValueError("invalid literal for int() with base 10")

  /**
   * `int(text)`: surrounding whitespace, an optional sign and at least one
   * decimal digit; anything else raises ValueError.
   */
  function ParseInt(text: string): (r: Result<int>)
    ensures r.Err? ==> r.error == IntLiteralError
  {
    var t := Strip(text);
    var negative := |t| > 0 && t[0] == '-';
    var body := if |t| > 0 && (t[0] == '-' || t[0] == '+') then t[1..] else t;
    if body == [] || !AllDigits(body) then Err(IntLiteralError)
    else
      Ok(if negative then -DigitsValue(body) else DigitsValue(body))
  }

  /** An optional minus sign followed by digits parses to the number they denote. */
  lemma ParseIntDigits(negative: bool, digits: string)
    requires digits != [] && AllDigits(digits)
    ensures ParseInt((if negative then "-" else "") + digits) == Ok(if negative then -DigitsValue(digits) else DigitsValue(digits))
  {
    var text := (if negative then "-" else "") + digits;
    if negative {
      assert text == "-" + digits;
      ParseIntNegative(digits);
    } else {
      assert text == digits;
      ParseIntPlain(digits);
    }
  }

  /** Digits alone parse to the number they denote. */
  lemma ParseIntPlain(digits: string)
    requires digits != [] && AllDigits(digits)
    ensures ParseInt(digits) == Ok(DigitsValue(digits))
  {
    assert '0' <= digits[0] <= '9' && '0' <= digits[|digits| - 1] <= '9';
    StripNoop(digits);
  }

  /** A minus sign and digits parse to the negated number. */
  lemma ParseIntNegative(digits: string)
    requires digits != [] && AllDigits(digits)
    ensures ParseInt("-" + digits) == Ok(-DigitsValue(digits))
  {
    var s := "-" + digits;
    assert '0' <= digits[|digits| - 1] <= '9';
    assert s[0] == '-' && s[|s| - 1] == digits[|digits| - 1];
    StripNoop(s);
    assert s[1..] == digits;
  }

  /** `int(str(n)) == n`. */
  lemma ParseIntText(n: int)
    ensures ParseInt(IntText(n)) == Ok(n)
  {
    var m: nat := if n < 0 then -n else n;
    DigitsValueText(m);
    ParseIntDigits(n < 0, NatText(m));
    assert IntText(n) == (if n < 0 then "-" else "") + NatText(m);
  }

  /** The type a value is stored under. */
  function TypeOf(v: Value): ColType
  {
    match v
    case IntVal(_) => IntType
    case StrVal(_) => StrType
    case BoolVal(_) => BoolType
    case FloatVal(_) => FloatType
    case DateTimeVal(_) => DateTimeType
  }

  /** `_serialize_value`: `str(value)`, or `isoformat()` for a datetime. */
  function Serialize(v: Value): string
  {
    match v
    case IntVal(n) => IntText(n)
    case StrVal(s) => s
    case BoolVal(b) => if b then "True" else "False"
    case FloatVal(t) => t
    case DateTimeVal(t) => t
  }

  /** `_deserialize_value`: by the column's type; a bool is true iff its lower-cased text is "true", "1" or "yes". */
  function Deserialize(text: string, t: ColType): Result<Value>
  {
    match t
    case IntType => (match ParseInt(text) case Ok(n) => Ok(IntVal(n)) case Err(e) => Err(e))
    case FloatType => Ok(FloatVal(text))
    case BoolType => Ok(BoolVal(Lower(text) in {"true", "1", "yes"}))
    case DateTimeType => Ok(DateTimeVal(text))
    case StrType => Ok(StrVal(text))
  }

  /**
   * Every value read back under its own type is the value written: for
   * ints through the decimal text, for bools through "True"/"False", for
   * strings because both directions are the identity.
   */
  lemma SerializeRoundTrip(v: Value)
    ensures Deserialize(Serialize(v), TypeOf(v)) == Ok(v)
  {
    match v
    case IntVal(n) => ParseIntText(n);
    case BoolVal(b) =>
      if b {
        assert Lower("True") == "true";
      } else {
        assert Lower("False") == "false";
      }
    case _ =>
  }

  /** A cell holding a value's written text reads back, under the value's type, as that value. */
  lemma ReadBackCell(cell: string, t: ColType, v: Value)
    requires cell == Serialize(v) && t == TypeOf(v)
    ensures Deserialize(cell, t) == Ok(v)
  {
    SerializeRoundTrip(v);
  }

  /** Text read under an unknown type name (str) comes back unchanged, and text kept as str is written unchanged. */
  lemma StrIdentity(s: string, name: string)
    requires name !in {"int", "float", "bool", "datetime"}
    ensures Deserialize(s, ResolveType(name)) == Ok(StrVal(s))
    ensures Serialize(StrVal(s)) == s
  {
  }

  /** A schema: column names with their types, in dictionary order. */
  type Schema = seq<(string, ColType)>

  function Columns(schema: Schema): (cols: seq<string>)
    ensures |cols| == |schema| && forall i | 0 <= i < |schema| :: cols[i] == schema[i].0
  {
    seq(|schema|, i requires 0 <= i < |schema| => schema[i].0)
  }

  /** One sidecar line, `f"{col}:{typ.__name__}"`. */
  function SidecarLine(col: string, t: ColType): string
  {
    col + ":" + TypeName(t)
  }

  /** The sidecar as written: one line per column, in schema order. */
  function SidecarLines(schema: Schema): (lines: seq<string>)
    ensures |lines| == |schema|
  {
    if schema == [] then []
    else SidecarLines(schema[..|schema| - 1]) + [SidecarLine(schema[|schema| - 1].0, schema[|schema| - 1].1)]
  }

  /** The `expected_types` dictionary: column to type name. */
  function ExpectedTypes(schema: Schema): map<string, string>
  {
    if schema == [] then map[]
    else ExpectedTypes(schema[..|schema| - 1])[schema[|schema| - 1].0 := TypeName(schema[|schema| - 1].1)]
  }

  /** The schema dictionary `read_entries` rebuilds: column to type. */
  function SchemaMap(schema: Schema): map<string, ColType>
  {
    if schema == [] then map[]
    else SchemaMap(schema[..|schema| - 1])[schema[|schema| - 1].0 := schema[|schema| - 1].1]
  }

  const UnpackTooMany := ValueError("too many values to unpack (expected 2)")

  /**
   * The loop of `create_table` over an existing sidecar: strip each line,
   * skip blank ones, split at the first ":" (a line without one raises
   * ValueError from the unpack); a later line for a column wins.
   */
  function ParseSidecarForCreate(lines: seq<string>): (r: Result<map<string, string>>)
    ensures r.Err? ==> r.error == UnpackTooFew
  {
    if lines == [] then Ok(map[])
    else
      match ParseSidecarForCreate(lines[..|lines| - 1])
      case Err(e) => Err(e)
      case Ok(m) =>
        var line := Strip(lines[|lines| - 1]);
        if line == "" then Ok(m)
        else match FirstIndex(line, ':')
          case None => Err(UnpackTooFew)
          case Some(i) => Ok(m[line[..i] := line[i + 1..]])
  }

  /**
   * The loop of `read_entries` over the sidecar: strip each line and split
   * at every ":", which must give exactly two parts (a blank line gives one
   * and raises); the type name is resolved.
   */
  function ParseSidecarForRead(lines: seq<string>): (r: Result<map<string, ColType>>)
    ensures r.Err? ==> r.error in {UnpackTooFew, UnpackTooMany}
  {
    if lines == [] then Ok(map[])
    else
      match ParseSidecarForRead(lines[..|lines| - 1])
      case Err(e) => Err(e)
      case Ok(m) =>
        var parts := Split(Strip(lines[|lines| - 1]), ':');
        if |parts| < 2 then Err(UnpackTooFew)
        else if |parts| > 2 then Err(UnpackTooMany)
        else Ok(m[parts[0] := ResolveType(parts[1])])
  }

  /** A column name the sidecar format carries: no ":" and no leading whitespace. */
  predicate ColumnOk(col: string)
  {
    ':' !in col && (col == "" || !IsSpace(col[0]))
  }

  /** The first occurrence of `c` in `a + [c] + b` is right after `a` when `a` has none. */
  lemma {:induction false} FirstIndexAfter(a: string, c: char, b: string)
    requires c !in a
    ensures FirstIndex(a + [c] + b, c) == Some(|a|)
  {
    if a != [] {
      assert (a + [c] + b)[1..] == a[1..] + [c] + b;
      FirstIndexAfter(a[1..], c, b);
    }
  }

  /** A written line is not changed by `strip()`. */
  lemma SidecarLineStrip(col: string, t: ColType)
    requires ColumnOk(col)
    ensures Strip(SidecarLine(col, t)) == SidecarLine(col, t) && SidecarLine(col, t) != ""
  {
    var line := SidecarLine(col, t);
    var name := TypeName(t);
    assert line[|line| - 1] == name[|name| - 1];
    assert line[0] == if col == "" then ':' else col[0];
    StripNoop(line);
  }

  /** How both parsers read one written line. */
  lemma SidecarLineParts(col: string, t: ColType)
    requires ColumnOk(col)
    ensures var line := SidecarLine(col, t);
            && Strip(line) == line && line != ""
            && FirstIndex(line, ':') == Some(|col|)
            && line[..|col|] == col && line[|col| + 1..] == TypeName(t)
            && Split(line, ':') == [col, TypeName(t)]
  {
    var name := TypeName(t);
    assert SidecarLine(col, t) == col + [':'] + name;
    assert ':' !in name;
    SidecarLineStrip(col, t);
    ColonParts(col, name);
  }

  /** A text `a:b` with no other colon splits at its colon into `a` and `b`. */
  lemma ColonParts(a: string, b: string)
    requires ':' !in a && ':' !in b
    ensures var line := a + [':'] + b;
            && FirstIndex(line, ':') == Some(|a|)
            && line[..|a|] == a && line[|a| + 1..] == b
            && Split(line, ':') == [a, b]
  {
    FirstIndexAfter(a, ':', b);
    SplitWordThen(a, b, ':');
    SplitWord(b, ':');
  }

  /**
   * Schema sidecar round trip: for column names without ":" and without
   * leading whitespace, both readers recover from the written lines exactly
   * the dictionary the writer started from.
   */
  lemma {:induction false} SidecarRoundTrip(schema: Schema)
    requires forall i | 0 <= i < |schema| :: ColumnOk(schema[i].0)
    ensures ParseSidecarForCreate(SidecarLines(schema)) == Ok(ExpectedTypes(schema))
    ensures ParseSidecarForRead(SidecarLines(schema)) == Ok(SchemaMap(schema))
  {
    if schema != [] {
      var init := schema[..|schema| - 1];
      var (col, t) := schema[|schema| - 1];
      SidecarRoundTrip(init);
      SidecarLineParts(col, t);
      var lines := SidecarLines(schema);
      assert lines[..|lines| - 1] == SidecarLines(init);
      ResolveTypeName(t);
    }
  }

  /** With distinct column names, the schema dictionary holds each column's own type. */
  lemma {:induction false} SchemaMapAt(schema: Schema)
    requires NoDupCols(schema)
    ensures forall i | 0 <= i < |schema| :: schema[i].0 in SchemaMap(schema) && SchemaMap(schema)[schema[i].0] == schema[i].1
    ensures |schema| > 0 ==> |SchemaMap(schema)| > 0
  {
    if schema != [] {
      var init := schema[..|schema| - 1];
      assert NoDupCols(init);
      SchemaMapAt(init);
    }
  }

  /** Column names are distinct, as dictionary keys are. */
  predicate NoDupCols(schema: Schema)
  {
    forall i, j | 0 <= i < j < |schema| :: schema[i].0 != schema[j].0
  }

  /** A CSV file: its first row (empty for an empty file) and the rows after it. */
  datatype CsvFile = CsvFile(header: seq<string>, rows: seq<seq<string>>)

  /** The files on disk: CSV files and sidecar files, by path. */
  datatype DiskState = DiskState(csv: map<string, CsvFile>, sidecars: map<string, seq<string>>)

  /** `os.path.join(folder, name)`. */
  function PathJoin(folder: string, name: string): string
  {
    if name != [] && name[0] == '/' then name
    else if folder == [] || folder[|folder| - 1] == '/' then folder + name
    else folder + "/" + name
  }

  /**
   * A joined path ends with the name; an absolute name discards the
   * folder, otherwise the folder comes first and a separator stands right
   * before the name.
   */
  lemma PathJoinShape(folder: string, name: string)
    ensures var p := PathJoin(folder, name);
            && |name| <= |p| && p[|p| - |name|..] == name
            && (name != [] && name[0] == '/' ==> p == name)
            && (!(name != [] && name[0] == '/') && folder != [] ==>
                  |folder| < |p| - |name| + 1 && p[..|folder|] == folder && p[|p| - |name| - 1] == '/')
            && (!(name != [] && name[0] == '/') && folder == [] ==> p == name)
  {
  }

  function TablePath(folder: string, table: string): string
  {
    PathJoin(folder, table + ".csv")
  }

  function SidecarPath(path: string): string
  {
    path + ".schema"
  }

  /** The ValueError of `create_table` for an existing file whose header differs. */
  function HeaderMismatch(table: string): (e: Error)
    ensures e.ValueError?
  {
    ValueError("Existing CSV header for table '" + table + "' does not match provided schema.")
  }

  /** The ValueError of `create_table` for an existing sidecar naming other types. */
  function SchemaMismatch(table: string): (e: Error)
    ensures e.ValueError?
  {
    ValueError("Existing schema for table '" + table + "' does not match provided schema.")
  }

  /** The FileNotFoundError of `insert_entry` (the name quoted). */
  function MissingForInsert(table: string): (e: Error)
    ensures e.FileNotFoundError?
  {
    FileNotFoundError("Table '" + table + "' does not exist.")
  }

  /** The FileNotFoundError of `read_entries` (the name not quoted). */
  function MissingForRead(table: string): (e: Error)
    ensures e.FileNotFoundError?
  {
    FileNotFoundError("Table " + table + " does not exist.")
  }

  /**
   * `create_table` on the disk: for an existing file, an empty header is
   * rewritten (dropping the file's rows), a different header raises
   * ValueError, and then an existing sidecar must parse to the expected
   * types (else ValueError) or a missing one is written; a new table gets a
   * header-only file and a freshly written sidecar, replacing any old one.
   */
  function CreateTableSpec(d: DiskState, table: string, path: string, schema: Schema): (Result<()>, DiskState)
  {
    var keys := Columns(schema);
    var sp := SidecarPath(path);
    if path in d.csv then
      var header := d.csv[path].header;
      if header != [] && header != keys then
        (Err(HeaderMismatch(table)), d)
      else
        var d1 := if header == [] then d.(csv := d.csv[path := CsvFile(keys, [])]) else d;
        if sp in d1.sidecars then
          match ParseSidecarForCreate(d1.sidecars[sp])
          case Err(e) => (Err(e), d1)
          case Ok(existing) =>
            if existing != ExpectedTypes(schema) then
              (Err(SchemaMismatch(table)), d1)
            else (Ok(()), d1)
        else (Ok(()), d1.(sidecars := d1.sidecars[sp := SidecarLines(schema)]))
    else
      (Ok(()), DiskState(d.csv[path := CsvFile(keys, [])], d.sidecars[sp := SidecarLines(schema)]))
  }

  /** `insert_entry` on the disk: append the entry's values, in the entry's own key order. */
  function InsertSpec(d: DiskState, files: map<string, string>, table: string, entry: seq<(string, Value)>): (Result<()>, DiskState)
  {
    if table !in files then (Err(KeyError(table)), d)
    else
      var path := files[table];
      if path !in d.csv then (Err(MissingForInsert(table)), d)
      else
        var f := d.csv[path];
        (Ok(()), d.(csv := d.csv[path := f.(rows := f.rows + [SerializeRow(entry)])]))
  }

  function SerializeRow(entry: seq<(string, Value)>): (cells: seq<string>)
    ensures |cells| == |entry| && forall i | 0 <= i < |entry| :: cells[i] == Serialize(entry[i].1)
  {
    seq(|entry|, i requires 0 <= i < |entry| => Serialize(entry[i].1))
  }

  /** The first `n` cells of a row as `DictReader` pairs them with the header, converted by the schema. */
  function DecodeCells(header: seq<string>, cells: seq<string>, schema: map<string, ColType>, n: nat): Result<seq<(string, Value)>>
    requires n <= |header| && n <= |cells|
  {
    if n == 0 then Ok([])
    else
      match DecodeCells(header, cells, schema, n - 1)
      case Err(e) => Err(e)
      case Ok(pairs) =>
        var col := header[n - 1];
        if |schema| == 0 then Ok(pairs + [(col, StrVal(cells[n - 1]))])
        else match Deserialize(cells[n - 1], if col in schema then schema[col] else StrType)
          case Err(e) => Err(e)
          case Ok(v) => Ok(pairs + [(col, v)])
  }

  function Min(a: nat, b: nat): nat
  {
    if a <= b then a else b
  }

  /** One data row as `read_entries` returns it. */
  function DecodeRow(header: seq<string>, cells: seq<string>, schema: map<string, ColType>): Result<seq<(string, Value)>>
  {
    DecodeCells(header, cells, schema, Min(|header|, |cells|))
  }

  /** All data rows, skipping blank ones as `DictReader` does; the first failing conversion raises. */
  function DecodeRows(header: seq<string>, rows: seq<seq<string>>, schema: map<string, ColType>): Result<seq<seq<(string, Value)>>>
  {
    if rows == [] then Ok([])
    else
      match DecodeRows(header, rows[..|rows| - 1], schema)
      case Err(e) => Err(e)
      case Ok(out) =>
        var row := rows[|rows| - 1];
        if row == [] then Ok(out)
        else match DecodeRow(header, row, schema)
          case Err(e) => Err(e)
          case Ok(pairs) => Ok(out + [pairs])
  }

  /** `read_entries` on the disk: KeyError, FileNotFoundError, a bad sidecar's ValueError, or the decoded rows. */
  function ReadSpec(d: DiskState, files: map<string, string>, table: string): Result<seq<seq<(string, Value)>>>
  {
    if table !in files then Err(KeyError(table))
    else
      var path := files[table];
      if path !in d.csv then Err(MissingForRead(table))
      else
        var sp := SidecarPath(path);
        var schema := if sp in d.sidecars then ParseSidecarForRead(d.sidecars[sp]) else Ok(map[]);
        match schema
        case Err(e) => Err(e)
        case Ok(s) => DecodeRows(d.csv[path].header, d.csv[path].rows, s)
  }

  /** The rows a row sequence decodes to, once decoding hit an error, stay that error. */
  lemma {:induction false} DecodeRowsSticky(header: seq<string>, rows: seq<seq<string>>, schema: map<string, ColType>, i: nat)
    requires i <= |rows| && DecodeRows(header, rows[..i], schema).Err?
    ensures DecodeRows(header, rows, schema) == DecodeRows(header, rows[..i], schema)
    decreases |rows| - i
  {
    if i < |rows| {
      assert rows[..i + 1][..i] == rows[..i];
      DecodeRowsSticky(header, rows, schema, i + 1);
    } else {
      assert rows[..i] == rows;
    }
  }

  /**
   * An entry `insert_entry` can write for a non-empty schema with distinct
   * column names: one value per column, in the schema's order and of the
   * column's type.
   */
  predicate EntryFits(schema: Schema, entry: seq<(string, Value)>)
  {
    && NoDupCols(schema) && |schema| > 0 && |entry| == |schema|
    && forall i | 0 <= i < |schema| :: entry[i].0 == schema[i].0 && TypeOf(entry[i].1) == schema[i].1
  }

  /**
   * The first `n` cells of a written entry, under a header naming its keys,
   * decode back to the entry's first `n` pairs, given each key's type.
   */
  lemma {:induction false} DecodeCellsOfEntry(header: seq<string>, cells: seq<string>, types: map<string, ColType>,
                                              entry: seq<(string, Value)>, n: nat)
    requires |header| == |entry| && |cells| == |entry| && n <= |entry| && |types| > 0
    requires forall i | 0 <= i < |entry| :: header[i] == entry[i].0 && header[i] in types && types[header[i]] == TypeOf(entry[i].1)
    requires forall i | 0 <= i < |entry| :: cells[i] == Serialize(entry[i].1)
    ensures DecodeCells(header, cells, types, n) == Ok(entry[..n])
  {
    if n > 0 {
      var m := n - 1;
      DecodeCellsOfEntry(header, cells, types, entry, m);
      var v := entry[m].1;
      ReadBackCell(cells[m], types[header[m]], v);
      DecodeCellsStep(header, cells, types, m, entry[..m], v);
      TakeSnoc(entry, n);
    }
  }

  /** One more cell that converts appends its column and value to the decoded prefix. */
  lemma DecodeCellsStep(header: seq<string>, cells: seq<string>, types: map<string, ColType>, m: nat,
                        pairs: seq<(string, Value)>, v: Value)
    requires m < |header| && m < |cells| && |types| > 0 && header[m] in types
    requires DecodeCells(header, cells, types, m) == Ok(pairs)
    requires Deserialize(cells[m], types[header[m]]) == Ok(v)
    ensures DecodeCells(header, cells, types, m + 1) == Ok(pairs + [(header[m], v)])
  {
  }


  /** A whole entry written in schema order decodes to itself. */
  lemma DecodeRowOfEntry(schema: Schema, entry: seq<(string, Value)>)
    requires EntryFits(schema, entry)
    ensures DecodeRow(Columns(schema), SerializeRow(entry), SchemaMap(schema)) == Ok(entry)
  {
    SchemaMapAt(schema);
    DecodeCellsOfEntry(Columns(schema), SerializeRow(entry), SchemaMap(schema), entry, |entry|);
    assert entry[..|entry|] == entry;
  }

  /** Appending an entry written in schema order appends it to what the rows decode to. */
  lemma DecodeRowsAppendEntry(schema: Schema, rows: seq<seq<string>>, entry: seq<(string, Value)>)
    requires EntryFits(schema, entry)
    requires DecodeRows(Columns(schema), rows, SchemaMap(schema)).Ok?
    ensures DecodeRows(Columns(schema), rows + [SerializeRow(entry)], SchemaMap(schema))
            == Ok(DecodeRows(Columns(schema), rows, SchemaMap(schema)).value + [entry])
  {
    var row := SerializeRow(entry);
    DecodeRowOfEntry(schema, entry);
    var rows' := rows + [row];
    assert rows'[..|rows'| - 1] == rows;
    assert row != [];
  }

  /**
   * Insert-then-read round trip: on a table whose file has the schema's
   * header and whose sidecar is the one written for the schema, inserting a
   * non-empty entry keyed in schema order, with values of the column types,
   * makes the next read return what it returned before followed by that
   * entry.
   */
  lemma InsertThenRead(d: DiskState, files: map<string, string>, table: string, schema: Schema, entry: seq<(string, Value)>)
    requires table in files && files[table] in d.csv
    requires d.csv[files[table]].header == Columns(schema)
    requires SidecarPath(files[table]) in d.sidecars && d.sidecars[SidecarPath(files[table])] == SidecarLines(schema)
    requires EntryFits(schema, entry) && forall i | 0 <= i < |schema| :: ColumnOk(schema[i].0)
    requires ReadSpec(d, files, table).Ok?
    ensures InsertSpec(d, files, table, entry).0 == Ok(())
    ensures ReadSpec(InsertSpec(d, files, table, entry).1, files, table) == Ok(ReadSpec(d, files, table).value + [entry])
  {
    var path := files[table];
    SidecarRoundTrip(schema);
    var types := SchemaMap(schema);
    ReadSpecOfFile(d, files, table, types);
    var f := d.csv[path];
    var d' := d.(csv := d.csv[path := f.(rows := f.rows + [SerializeRow(entry)])]);
    assert InsertSpec(d, files, table, entry) == (Ok(()), d');
    ReadSpecOfFile(d', files, table, types);
    DecodeRowsAppendEntry(schema, f.rows, entry);
  }

  /** Reading a table whose file and sidecar exist decodes the file's rows with the sidecar's types. */
  lemma ReadSpecOfFile(d: DiskState, files: map<string, string>, table: string, types: map<string, ColType>)
    requires table in files && files[table] in d.csv && SidecarPath(files[table]) in d.sidecars
    requires ParseSidecarForRead(d.sidecars[SidecarPath(files[table])]) == Ok(types)
    ensures ReadSpec(d, files, table) == DecodeRows(d.csv[files[table]].header, d.csv[files[table]].rows, types)
  {
  }

  /**
   * Creating a table leaves, on success, a file with exactly the schema's
   * header and a sidecar that reads back as the schema's types; a failure
   * is a ValueError.
   */
  lemma CreateTableReady(d: DiskState, table: string, path: string, schema: Schema)
    requires forall i | 0 <= i < |schema| :: ColumnOk(schema[i].0)
    ensures var (r, d') := CreateTableSpec(d, table, path, schema);
            && (r.Err? ==> r.error.ValueError?)
            && (r.Ok? ==>
                  && path in d'.csv && d'.csv[path].header == Columns(schema)
                  && SidecarPath(path) in d'.sidecars
                  && ParseSidecarForCreate(d'.sidecars[SidecarPath(path)]) == Ok(ExpectedTypes(schema)))
  {
    CreateTableFiles(d, table, path, schema);
    SidecarRoundTrip(schema);
  }

  /** After a successful `create_table` the file has the header and the sidecar is either fresh or already agrees. */
  lemma CreateTableFiles(d: DiskState, table: string, path: string, schema: Schema)
    ensures var (r, d') := CreateTableSpec(d, table, path, schema);
            && (r.Err? ==> r.error.ValueError?)
            && (r.Ok? ==>
                  && path in d'.csv && d'.csv[path].header == Columns(schema)
                  && SidecarPath(path) in d'.sidecars
                  && (|| d'.sidecars[SidecarPath(path)] == SidecarLines(schema)
                      || ParseSidecarForCreate(d'.sidecars[SidecarPath(path)]) == Ok(ExpectedTypes(schema))))
  {
    var keys := Columns(schema);
    var sp := SidecarPath(path);
    if path in d.csv {
      var header := d.csv[path].header;
      if header == [] || header == keys {
        var d1 := if header == [] then d.(csv := d.csv[path := CsvFile(keys, [])]) else d;
        assert path in d1.csv && d1.csv[path].header == keys;
      }
    }
  }

  /** What `create_table` does to each kind of existing file, in the order the source checks. */
  lemma CreateTableBranches(d: DiskState, table: string, path: string, schema: Schema)
    ensures var (r, d') := CreateTableSpec(d, table, path, schema);
            && (path !in d.csv ==>
                  r.Ok? && d'.csv == d.csv[path := CsvFile(Columns(schema), [])]
                  && d'.sidecars == d.sidecars[SidecarPath(path) := SidecarLines(schema)])
            && (path in d.csv && d.csv[path].header == [] ==>
                  path in d'.csv && d'.csv[path] == CsvFile(Columns(schema), []))
            && (path in d.csv && d.csv[path].header != [] && d.csv[path].header != Columns(schema) ==>
                  r.Err? && r.error.ValueError? && d' == d)
            && (path in d.csv && d.csv[path].header == Columns(schema) != [] && SidecarPath(path) in d.sidecars ==>
                  d' == d && (r.Ok? <==> ParseSidecarForCreate(d.sidecars[SidecarPath(path)]) == Ok(ExpectedTypes(schema))))
  {
  }

  /**
   * Creating a table a second time with the same schema succeeds and
   * changes nothing (for a non-empty schema: an empty one leaves an empty
   * header, which the second call rewrites to the same empty header).
   */
  lemma CreateTableTwice(d: DiskState, table: string, path: string, schema: Schema)
    requires forall i | 0 <= i < |schema| :: ColumnOk(schema[i].0)
    requires CreateTableSpec(d, table, path, schema).0.Ok?
    ensures var d' := CreateTableSpec(d, table, path, schema).1;
            CreateTableSpec(d', table, path, schema) == (Ok(()), d')
  {
    CreateTableReady(d, table, path, schema);
    var d' := CreateTableSpec(d, table, path, schema).1;
    SidecarRoundTrip(schema);
    if Columns(schema) == [] {
      assert d'.csv[path := CsvFile([], [])] == d'.csv;
    }
  }

  /** The file system, CSV files and sidecars by path. */
  class Disk {
    var csv: map<string, CsvFile>
    var sidecars: map<string, seq<string>>

    constructor (initial: DiskState)
      ensures State() == initial
    {
      csv := initial.csv;
      sidecars := initial.sidecars;
    }

    function State(): DiskState
      reads this
    {
      DiskState(csv, sidecars)
    }

    /** `_create_csv_file`: a file holding only the header row. */
    method CreateCsvFile(path: string, keys: seq<string>)
      modifies this
      ensures csv == old(csv)[path := CsvFile(keys, [])] && sidecars == old(sidecars)
    {
      csv := csv[path := CsvFile(keys, [])];
    }

    method WriteSidecar(path: string, lines: seq<string>)
      modifies this
      ensures sidecars == old(sidecars)[path := lines] && csv == old(csv)
    {
      sidecars := sidecars[path := lines];
    }

    method AppendRow(path: string, cells: seq<string>)
      requires path in csv
      modifies this
      ensures csv == old(csv)[path := old(csv)[path].(rows := old(csv)[path].rows + [cells])] && sidecars == old(sidecars)
    {
      csv := csv[path := csv[path].(rows := csv[path].rows + [cells])];
    }
  }

  /** The write loop over the schema: one `col:typename` line per column. */
  method SchemaLines(schema: Schema) returns (lines: seq<string>)
    ensures lines == SidecarLines(schema)
  {
    lines := [];
    var i := 0;
    while i < |schema|
      invariant 0 <= i <= |schema|
      invariant lines == SidecarLines(schema[..i])
    {
      assert schema[..i + 1][..i] == schema[..i];
      lines := lines + [SidecarLine(schema[i].0, schema[i].1)];
      i := i + 1;
    }
    assert schema[..i] == schema;
  }

  /** The read loop over an existing sidecar in `create_table`, building `existing_schema`. */
  method ReadExistingSchema(lines: seq<string>) returns (r: Result<map<string, string>>)
    ensures r == ParseSidecarForCreate(lines)
  {
    var existing: map<string, string> := map[];
    var i := 0;
    while i < |lines|
      invariant 0 <= i <= |lines|
      invariant ParseSidecarForCreate(lines[..i]) == Ok(existing)
    {
      assert lines[..i + 1][..i] == lines[..i];
      var line := Strip(lines[i]);
      if line != "" {
        var at := FirstIndex(line, ':');
        if at.None? {
          StickyCreate(lines, i + 1);
          return Err(UnpackTooFew);
        }
        existing := existing[line[..at.value] := line[at.value + 1..]];
      }
      i := i + 1;
    }
    assert lines[..i] == lines;
    return Ok(existing);
  }

  lemma {:induction false} StickyCreate(lines: seq<string>, i: nat)
    requires i <= |lines| && ParseSidecarForCreate(lines[..i]).Err?
    ensures ParseSidecarForCreate(lines) == ParseSidecarForCreate(lines[..i])
    decreases |lines| - i
  {
    if i < |lines| {
      assert lines[..i + 1][..i] == lines[..i];
      StickyCreate(lines, i + 1);
    } else {
      assert lines[..i] == lines;
    }
  }

  lemma {:induction false} StickyRead(lines: seq<string>, i: nat)
    requires i <= |lines| && ParseSidecarForRead(lines[..i]).Err?
    ensures ParseSidecarForRead(lines) == ParseSidecarForRead(lines[..i])
    decreases |lines| - i
  {
    if i < |lines| {
      assert lines[..i + 1][..i] == lines[..i];
      StickyRead(lines, i + 1);
    } else {
      assert lines[..i] == lines;
    }
  }

  /** The sidecar loop of `read_entries`, building the column-to-type dictionary. */
  method ReadSchema(lines: seq<string>) returns (r: Result<map<string, ColType>>)
    ensures r == ParseSidecarForRead(lines)
  {
    var schema: map<string, ColType> := map[];
    var i := 0;
    while i < |lines|
      invariant 0 <= i <= |lines|
      invariant ParseSidecarForRead(lines[..i]) == Ok(schema)
    {
      assert lines[..i + 1][..i] == lines[..i];
      var parts := Split(Strip(lines[i]), ':');
      if |parts| != 2 {
        StickyRead(lines, i + 1);
        return if |parts| < 2 then Err(UnpackTooFew) else Err(UnpackTooMany);
      }
      schema := schema[parts[0] := ResolveType(parts[1])];
      i := i + 1;
    }
    assert lines[..i] == lines;
    return Ok(schema);
  }

  /** The row loop of `read_entries`: decode each non-blank row, stopping at the first failure. */
  method ReadRows(header: seq<string>, rows: seq<seq<string>>, schema: map<string, ColType>)
    returns (r: Result<seq<seq<(string, Value)>>>)
    ensures r == DecodeRows(header, rows, schema)
  {
    var out := [];
    var i := 0;
    while i < |rows|
      invariant 0 <= i <= |rows|
      invariant DecodeRows(header, rows[..i], schema) == Ok(out)
    {
      assert rows[..i + 1][..i] == rows[..i];
      if rows[i] != [] {
        var pairs := DecodeRow(header, rows[i], schema);
        if pairs.Err? {
          DecodeRowsSticky(header, rows, schema, i + 1);
          return Err(pairs.error);
        }
        out := out + [pairs.value];
      }
      i := i + 1;
    }
    assert rows[..i] == rows;
    return Ok(out);
  }

  class CsvStore {
    const folder: string
    const disk: Disk
    var files: map<string, string>

    constructor (folder: string, disk: Disk)
      ensures this.folder == folder && this.disk == disk && files == map[]
    {
      this.folder := folder;
      this.disk := disk;
      files := map[];
    }

    /** `create_table`; on every successful path the table is registered under its file's path. */
    method CreateTable(table: string, schema: Schema) returns (r: Result<()>)
      modifies this, disk
      ensures var path := TablePath(folder, table);
              var (res, d') := CreateTableSpec(old(disk.State()), table, path, schema);
              && r == res && disk.State() == d'
              && files == if r.Ok? then old(files)[table := path] else old(files)
    {
      var path := TablePath(folder, table);
      var keys := Columns(schema);
      var sp := SidecarPath(path);
      if path in disk.csv {
        var header := disk.csv[path].header;
        if header == [] {
          disk.CreateCsvFile(path, keys);
        } else if header != keys {
          return Err(HeaderMismatch(table));
        }
        if sp in disk.sidecars {
          var existing := ReadExistingSchema(disk.sidecars[sp]);
          if existing.Err? {
            return Err(existing.error);
          }
          if existing.value != ExpectedTypes(schema) {
            return Err(SchemaMismatch(table));
          }
        } else {
          var lines := SchemaLines(schema);
          disk.WriteSidecar(sp, lines);
        }
        files := files[table := path];
        return Ok(());
      }
      disk.CreateCsvFile(path, keys);
      files := files[table := path];
      var lines := SchemaLines(schema);
      disk.WriteSidecar(sp, lines);
      return Ok(());
    }

    /** `insert_entry`: KeyError for an unregistered table, FileNotFoundError for a missing file, else one row appended. */
    method InsertEntry(table: string, entry: seq<(string, Value)>) returns (r: Result<()>)
      modifies disk
      ensures var (res, d') := InsertSpec(old(disk.State()), files, table, entry);
              r == res && disk.State() == d'
    {
      if table !in files {
        return Err(KeyError(table));
      }
      var path := files[table];
      if path !in disk.csv {
        return Err(MissingForInsert(table));
      }
      disk.AppendRow(path, SerializeRow(entry));
      return Ok(());
    }

    /** `read_entries`: KeyError, FileNotFoundError, a bad sidecar's ValueError, or the decoded rows. */
    method ReadEntries(table: string) returns (r: Result<seq<seq<(string, Value)>>>)
      ensures r == ReadSpec(disk.State(), files, table)
    {
      if table !in files {
        return Err(KeyError(table));
      }
      var path := files[table];
      if path !in disk.csv {
        return Err(MissingForRead(table));
      }
      var sp := SidecarPath(path);
      var schema: map<string, ColType> := map[];
      if sp in disk.sidecars {
        var parsed := ReadSchema(disk.sidecars[sp]);
        if parsed.Err? {
          return Err(parsed.error);
        }
        schema := parsed.value;
      }
      r := ReadRows(disk.csv[path].header, disk.csv[path].rows, schema);
    }
  }
}
