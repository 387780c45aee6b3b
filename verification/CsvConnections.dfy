/** Saved connections as a CSV file: the exporter, the importer, and what comes back. */
module CsvConnections {
  import opened Wrappers
  import opened Text
  import opened Numbers
  import opened Csv

  type U16 = n: nat | n <= MAX_U16
  type U64 = n: nat | n <= MAX_U64

  /** The exported part of a saved connection. */
  datatype Connection = Connection(
    id: string, name: string, host: string, port: U16, username: string,
    password: Option<string>, privateKeyPath: Option<string>, jumpServerId: Option<string>,
    folder: Option<string>, theme: Option<string>,
    tags: Option<seq<string>>, isFavorite: Option<bool>, pinnedFeatures: Option<seq<string>>,
    createdAt: Option<U64>, lastConnected: Option<U64>)

  const HEADERS: seq<string> :=
    ["id", "name", "host", "port", "username", "password", "privateKeyPath", "jumpServerId", "folder", "theme", "tags",
     "isFavorite", "pinnedFeatures", "createdAt", "lastConnected"]

  // ----- Lists in one field -----

  /** `csv_join`. */
  function CsvJoin(values: Option<seq<string>>): string {
    if values.None? then [] else Join(values.value, ";")
  }

  function PieceOf(s: string): seq<string> {
    if Trim(s) == [] then [] else [Trim(s)]
  }

  /** Split at semicolons, trim, drop what is empty. */
  function Pieces(s: string): seq<string>
    decreases |s|
  {
    var i := IndexOf(s, ';');
    if i == |s| then PieceOf(s) else PieceOf(s[..i]) + Pieces(s[i + 1..])
  }

  function PiecesOfAll(values: seq<string>): seq<string> {
    if values == [] then [] else Pieces(values[0]) + PiecesOfAll(values[1..])
  }

  function ListField(s: string): Option<seq<string>> {
    if Pieces(s) == [] then None else Some(Pieces(s))
  }

  lemma PiecesOfOne(s: string)
    requires NoChar(s, ';')
    ensures Pieces(s) == PieceOf(s)
  {
    hide PieceOf;
  }

  lemma PiecesAfterFirst(first: string, rest: string)
    requires NoChar(first, ';')
    ensures Pieces(first + ";" + rest) == PieceOf(first) + Pieces(rest)
  {
    hide PieceOf, IndexOf;
    IndexOfFirst(first, ';', rest);
    var s := first + ";" + rest;
    assert s == first + [';'] + rest && s[..|first|] == first && s[|first| + 1..] == rest;
  }

  lemma Cut(s: string) returns (first: string, rest: string)
    requires !NoChar(s, ';')
    ensures NoChar(first, ';') && s == first + ";" + rest
  {
    var i := IndexOf(s, ';');
    assert s[..|s|] == s;
    first, rest := s[..i], s[i + 1..];
  }

  lemma {:induction false} PiecesOfBoth(a: string, b: string)
    ensures Pieces(a + ";" + b) == Pieces(a) + Pieces(b)
    decreases |a|
  {
    hide Pieces, PieceOf;
    if NoChar(a, ';') {
      PiecesOfOne(a);
      PiecesAfterFirst(a, b);
    } else {
      var first, rest := Cut(a);
      PiecesOfBoth(rest, b);
      PiecesAfterFirst(first, rest);
      PiecesAfterFirst(first, rest + ";" + b);
      assert a + ";" + b == first + ";" + (rest + ";" + b);
    }
  }

  /** Joining and splitting again gives the pieces of the values. */
  lemma {:induction false} PiecesOfJoin(values: seq<string>)
    ensures Pieces(Join(values, ";")) == PiecesOfAll(values)
  {
    if |values| > 1 {
      PiecesOfJoin(values[1..]);
      PiecesOfBoth(values[0], Join(values[1..], ";"));
    } else if |values| == 1 {
      assert values[1..] == [] && Pieces(values[0]) + [] == Pieces(values[0]);
    }
  }

  lemma {:induction false} PiecesIgnoreMargin(s: string, c: char)
    requires IsWhitespace(c)
    ensures Pieces([c] + s) == Pieces(s) && Pieces(s + [c]) == Pieces(s)
    decreases |s|
  {
    hide Trim, IsWhitespace, Pieces;
    WhitespaceIsNoMark(c);
    if NoChar(s, ';') {
      PiecesOfOne(s);
      PiecesOfOne([c] + s);
      PiecesOfOne(s + [c]);
      TrimIgnoresMargin(s, c);
    } else {
      var first, rest := Cut(s);
      PiecesIgnoreMargin(rest, c);
      PiecesAfterFirst(first, rest);
      TrimIgnoresMargin(first, c);
      PiecesAfterFirst([c] + first, rest);
      PiecesAfterFirst(first, rest + [c]);
      assert [c] + s == [c] + first + ";" + rest;
      assert s + [c] == first + ";" + (rest + [c]);
    }
  }

  lemma WhitespaceIsNoMark(c: char)
    requires IsWhitespace(c)
    ensures c != ';' && c != ',' && c != '"'
  {
  }

  lemma {:induction false} PiecesOfTrimmed(s: string)
    ensures Pieces(Trim(s)) == Pieces(s)
    decreases |s|
  {
    hide Trim, IsWhitespace, Pieces;
    if s != [] && IsWhitespace(s[0]) {
      assert s == [s[0]] + s[1..];
      TrimIgnoresMargin(s[1..], s[0]);
      PiecesIgnoreMargin(s[1..], s[0]);
      PiecesOfTrimmed(s[1..]);
    } else if s != [] && IsWhitespace(s[|s| - 1]) {
      var c := s[|s| - 1];
      assert s == s[..|s| - 1] + [c];
      TrimIgnoresMargin(s[..|s| - 1], c);
      PiecesIgnoreMargin(s[..|s| - 1], c);
      PiecesOfTrimmed(s[..|s| - 1]);
    } else {
      TrimIsIdentity(s);
    }
  }

  /** A list that went through one field comes back as its pieces. */
  lemma ListReadsBack(values: Option<seq<string>>)
    ensures Pieces(Trim(CsvJoin(values))) == if values.Some? then PiecesOfAll(values.value) else []
  {
    PiecesOfTrimmed(CsvJoin(values));
    if values.Some? {
      PiecesOfJoin(values.value);
    } else {
      assert Pieces("") == [];
    }
  }

  // ----- The exporter -----

  function OrEmpty(value: Option<string>): string {
    if value.Some? then value.value else []
  }

  /** `csv_bool`. */
  function CsvBool(value: Option<bool>): string {
    match value
    case Some(true) => "true"
    case Some(false) => "false"
    case None => ""
  }

  function CsvNumber(value: Option<U64>): string {
    if value.Some? then ToDecimal(value.value) else []
  }

  /** The fields of a row before quoting. */
  function RawFields(c: Connection): (fields: seq<string>)
    ensures |fields| == 15
  {
    [c.id, c.name, c.host, ToDecimal(c.port), c.username, OrEmpty(c.password), OrEmpty(c.privateKeyPath),
     OrEmpty(c.jumpServerId), OrEmpty(c.folder), OrEmpty(c.theme), CsvJoin(c.tags), CsvBool(c.isFavorite),
     CsvJoin(c.pinnedFeatures), CsvNumber(c.createdAt), CsvNumber(c.lastConnected)]
  }

  /** `connection_to_csv_line`. The numbers are not escaped. */
  function ConnectionToCsvLine(c: Connection): string {
    Join([CsvEscape(c.id), CsvEscape(c.name), CsvEscape(c.host), ToDecimal(c.port), CsvEscape(c.username),
          CsvEscape(OrEmpty(c.password)), CsvEscape(OrEmpty(c.privateKeyPath)), CsvEscape(OrEmpty(c.jumpServerId)),
          CsvEscape(OrEmpty(c.folder)), CsvEscape(OrEmpty(c.theme)), CsvEscape(CsvJoin(c.tags)),
          CsvEscape(CsvBool(c.isFavorite)), CsvEscape(CsvJoin(c.pinnedFeatures)), CsvNumber(c.createdAt),
          CsvNumber(c.lastConnected)], ",")
  }

  function ConnectionLines(connections: seq<Connection>): seq<string> {
    if connections == [] then [] else [ConnectionToCsvLine(connections[0])] + ConnectionLines(connections[1..])
  }

  /** The "csv" case of the export. */
  function ExportCsv(connections: seq<Connection>): string {
    Join([Join(HEADERS, ",")] + ConnectionLines(connections), "\n")
  }

  // ----- The importer -----

  /** The place of a column among the headers. */
  function IndexIn(headers: seq<string>, name: string): (i: Option<nat>)
    ensures i.Some? ==> i.value < |headers| && headers[i.value] == name && name !in headers[..i.value]
    ensures i.None? ==> name !in headers
  {
    if headers == [] then None
    else if headers[0] == name then Some(0)
    else match IndexIn(headers[1..], name) case Some(i) => Some(i + 1) case None => None
  }

  function IndexOfEither(headers: seq<string>, name: string, other: string): Option<nat> {
    if IndexIn(headers, name).Some? then IndexIn(headers, name) else IndexIn(headers, other)
  }

  datatype Columns = Columns(
    id: Option<nat>, name: Option<nat>, host: Option<nat>, port: Option<nat>, username: Option<nat>,
    password: Option<nat>, privateKeyPath: Option<nat>, jumpServerId: Option<nat>, folder: Option<nat>,
    theme: Option<nat>, tags: Option<nat>, isFavorite: Option<nat>, pinnedFeatures: Option<nat>,
    createdAt: Option<nat>, lastConnected: Option<nat>)

  function FindColumns(headers: seq<string>): Columns {
    Columns(IndexIn(headers, "id"),
            IndexOfEither(headers, "name", "connection_name"),
            IndexOfEither(headers, "host", "hostname"),
            IndexIn(headers, "port"),
            IndexOfEither(headers, "username", "user"),
            IndexIn(headers, "password"),
            IndexOfEither(headers, "privatekeypath", "private_key_path"),
            IndexOfEither(headers, "jumpserverid", "jump_server_id"),
            IndexIn(headers, "folder"),
            IndexIn(headers, "theme"),
            IndexIn(headers, "tags"),
            IndexOfEither(headers, "isfavorite", "is_favorite"),
            IndexOfEither(headers, "pinnedfeatures", "pinned_features"),
            IndexOfEither(headers, "createdat", "created_at"),
            IndexOfEither(headers, "lastconnected", "last_connected"))
  }

  function Field(fields: seq<string>, column: Option<nat>): string {
    if column.Some? && column.value < |fields| then fields[column.value] else []
  }

  function NonEmpty(value: string): Option<string> {
    if value == [] then None else Some(value)
  }

  /** `parse_bool_field`. */
  function ParseBoolField(value: string): Option<bool> {
    var word := ToAsciiLower(Trim(value));
    if word == "true" || word == "1" || word == "yes" || word == "y" then Some(true)
    else if word == "false" || word == "0" || word == "no" || word == "n" then Some(false)
    else None
  }

  function ParsePort(value: string): U16 {
    match ParseUnsigned(value, MAX_U16) case Some(n) => n case None => 22
  }

  function ParseU64(value: string): Option<U64> {
    match ParseUnsigned(value, MAX_U64) case Some(n) => Some(n) case None => None
  }

  /** One row, or nothing when it has no host or no user. */
  function ParseRow(at: Columns, fields: seq<string>, newId: string): Option<Connection> {
    var host, username := Trim(Field(fields, at.host)), Trim(Field(fields, at.username));
    var id, name := Trim(Field(fields, at.id)), Trim(Field(fields, at.name));
    if host == [] || username == [] then None else
      Some(Connection(
             if id == [] then newId else id, if name == [] then host else name, host, ParsePort(Field(fields, at.port)),
             username, NonEmpty(Field(fields, at.password)), NonEmpty(Field(fields, at.privateKeyPath)),
             NonEmpty(Field(fields, at.jumpServerId)), NonEmpty(Field(fields, at.folder)),
             NonEmpty(Field(fields, at.theme)), ListField(Field(fields, at.tags)),
             ParseBoolField(Field(fields, at.isFavorite)), ListField(Field(fields, at.pinnedFeatures)),
             ParseU64(Field(fields, at.createdAt)), ParseU64(Field(fields, at.lastConnected))))
  }

  /** The rows from one on; `newIds` gives the identifier that the `k`-th row would be given. */
  function ParseRows(at: Columns, lines: seq<string>, newIds: nat -> string, k: nat): seq<Connection> {
    if lines == [] then [] else
      var rest := ParseRows(at, lines[1..], newIds, k + 1);
      match ParseRow(at, Fields(lines[0], [], false), newIds(k))
      case Some(c) => [c] + rest
      case None => rest
  }

  function NonBlank(lines: seq<string>): seq<string> {
    if lines == [] then []
    else if Trim(lines[0]) == [] then NonBlank(lines[1..])
    else [lines[0]] + NonBlank(lines[1..])
  }

  function LowerAll(fields: seq<string>): seq<string> {
    seq(|fields|, i requires 0 <= i < |fields| => ToAsciiLower(Trim(fields[i])))
  }

  /** `parse_csv_connections`; the error names the missing column. */
  function ParseCsv(content: string, newIds: nat -> string): Result<seq<Connection>, string> {
    var lines := NonBlank(Lines(content));
    if lines == [] then Ok([]) else
      var at := FindColumns(LowerAll(Fields(lines[0], [], false)));
      if at.name.None? then Err("name")
      else if at.host.None? then Err("host")
      else if at.username.None? then Err("username")
      else Ok(ParseRows(at, lines[1..], newIds, 0))
  }

  /** The same as the importer runs it: a header line and a loop over the rows. */
  method ParseCsvConnections(content: string, newIds: nat -> string) returns (parsed: Result<seq<Connection>, string>)
    ensures parsed == ParseCsv(content, newIds)
  {
    hide Fields, ParseRow, FindColumns, Lines, NonBlank;
    var lines := NonBlank(Lines(content));
    if lines == [] { return Ok([]); }
    var headers := SplitCsvRow(lines[0]);
    var at := FindColumns(LowerAll(headers));
    if at.name.None? { return Err("name"); }
    if at.host.None? { return Err("host"); }
    if at.username.None? { return Err("username"); }
    var rows := lines[1..];
    var connections: seq<Connection> := [];
    assert rows[0..] == rows;
    for i := 0 to |rows|
      invariant connections + ParseRows(at, rows[i..], newIds, i) == ParseRows(at, rows, newIds, 0)
    {
      var fields := SplitCsvRow(rows[i]);
      assert rows[i..][1..] == rows[i + 1..];
      var connection := ParseRow(at, fields, newIds(i));
      if connection.Some? {
        connections := connections + [connection.value];
      }
    }
    assert rows[|rows|..] == [] && ParseRows(at, [], newIds, |rows|) == [];
    assert connections + [] == connections;
    return Ok(connections);
  }
}
