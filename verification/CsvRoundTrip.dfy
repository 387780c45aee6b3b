/** Importing an exported CSV file. */
module CsvRoundTrip {
  import opened Wrappers
  import opened Text
  import opened Numbers
  import opened Csv
  import opened CsvConnections

  // ----- What comes back -----

  function TrimmedOption(value: Option<string>): Option<string> {
    NonEmpty(Trim(OrEmpty(value)))
  }

  function NormalList(values: Option<seq<string>>): Option<seq<string>> {
    var pieces := if values.Some? then PiecesOfAll(values.value) else [];
    if pieces == [] then None else Some(pieces)
  }

  /** Whether the importer takes a row of this connection at all. */
  predicate IsTaken(c: Connection) {
    Trim(c.host) != [] && Trim(c.username) != []
  }

  /** An imported connection: every text trimmed, empty ones replaced or dropped. */
  function Normal(c: Connection, newId: string): Connection {
    Connection(
      if Trim(c.id) == [] then newId else Trim(c.id), if Trim(c.name) == [] then Trim(c.host) else Trim(c.name),
      Trim(c.host), c.port, Trim(c.username), TrimmedOption(c.password), TrimmedOption(c.privateKeyPath),
      TrimmedOption(c.jumpServerId), TrimmedOption(c.folder), TrimmedOption(c.theme), NormalList(c.tags), c.isFavorite,
      NormalList(c.pinnedFeatures), c.createdAt, c.lastConnected)
  }

  function NormalAll(connections: seq<Connection>, newIds: nat -> string, k: nat): seq<Connection> {
    if connections == [] then [] else
      var rest := NormalAll(connections[1..], newIds, k + 1);
      if IsTaken(connections[0]) then [Normal(connections[0], newIds(k))] + rest else rest
  }

  /** No text of the connection holds a line feed, at which the importer would break the row. */
  predicate HasNoLineFeed(c: Connection) {
    forall i :: 0 <= i < 15 ==> NoChar(RawFields(c)[i], '\n')
  }

  // ----- The header -----

  const EXPORTED := Columns(Some(0), Some(1), Some(2), Some(3), Some(4), Some(5), Some(6), Some(7), Some(8), Some(9),
                            Some(10), Some(11), Some(12), Some(13), Some(14))

  const LOWER: seq<string> :=
    ["id", "name", "host", "port", "username", "password", "privatekeypath", "jumpserverid", "folder", "theme", "tags",
     "isfavorite", "pinnedfeatures", "createdat", "lastconnected"]

  predicate IsLetter(c: char) {
    'a' <= c <= 'z' || 'A' <= c <= 'Z'
  }

  predicate IsWord(s: string) {
    s != [] && forall i :: 0 <= i < |s| ==> IsLetter(s[i])
  }

  /** A header that the importer finds, lowered, as it was written. */
  predicate Lowers(header: string, lower: string) {
    Trim(header) == header && ToAsciiLower(header) == lower && CsvEscape(header) == header && NoChar(header, '\n')
  }

  lemma WordLowers(header: string, lower: string)
    requires IsWord(header) && ToAsciiLower(header) == lower
    ensures Lowers(header, lower)
  {
    hide Trim, ToAsciiLower;
    TrimIsIdentity(header);
  }

  lemma FirstHeaders()
    ensures Lowers("id", "id") && Lowers("name", "name") && Lowers("host", "host") && Lowers("port", "port")
    ensures Lowers("folder", "folder") && Lowers("theme", "theme") && Lowers("tags", "tags")
  {
    hide Lowers;
    WordLowers("id", "id");
    WordLowers("name", "name");
    WordLowers("host", "host");
    WordLowers("port", "port");
    WordLowers("folder", "folder");
    WordLowers("theme", "theme");
    WordLowers("tags", "tags");
  }

  lemma LongHeaders()
    ensures Lowers("username", "username") && Lowers("password", "password")
    ensures Lowers("privateKeyPath", "privatekeypath") && Lowers("jumpServerId", "jumpserverid")
  {
    hide Lowers;
    WordLowers("username", "username");
    WordLowers("password", "password");
    WordLowers("privateKeyPath", "privatekeypath");
    WordLowers("jumpServerId", "jumpserverid");
  }

  lemma LastHeaders()
    ensures Lowers("isFavorite", "isfavorite") && Lowers("pinnedFeatures", "pinnedfeatures")
    ensures Lowers("createdAt", "createdat") && Lowers("lastConnected", "lastconnected")
  {
    hide Lowers;
    WordLowers("isFavorite", "isfavorite");
    WordLowers("pinnedFeatures", "pinnedfeatures");
    WordLowers("createdAt", "createdat");
    WordLowers("lastConnected", "lastconnected");
  }

  lemma HeadersLower()
    ensures forall i :: 0 <= i < 15 ==> Lowers(HEADERS[i], LOWER[i])
  {
    hide Lowers;
    FirstHeaders();
    LongHeaders();
    LastHeaders();
  }

  lemma HeaderLine(headers: seq<string>, lower: seq<string>)
    requires |headers| == |lower| > 0 && forall i :: 0 <= i < |headers| ==> Lowers(headers[i], lower[i])
    ensures LowerAll(Fields(Join(headers, ","), [], false)) == lower && NoChar(Join(headers, ","), '\n')
  {
    hide Trim, ToAsciiLower, CsvEscape, Fields, Join;
    RowReadsBack(headers);
    assert EscapeAll(headers) == headers && TrimAll(headers) == headers;
    JoinHasNo(headers, ",", '\n');
  }

  /** The header line is read back as the lowered names. */
  lemma HeaderReadsBack()
    ensures LowerAll(Fields(Join(HEADERS, ","), [], false)) == LOWER && NoChar(Join(HEADERS, ","), '\n')
  {
    hide Lowers, Join, Fields, LowerAll;
    HeadersLower();
    HeaderLine(HEADERS, LOWER);
  }

  lemma ColumnsFound()
    ensures FindColumns(LOWER) == EXPORTED
  {
    hide IndexIn;
    FoundFirst();
    FoundNext();
    FoundLast();
  }

  /** The first of these headers is at its place. */
  lemma {:induction false} FoundAt(headers: seq<string>, name: string, i: nat)
    requires i < |headers| && headers[i] == name && forall j :: 0 <= j < i ==> headers[j] != name
    ensures IndexIn(headers, name) == Some(i)
  {
    if i > 0 { FoundAt(headers[1..], name, i - 1); }
  }

  lemma FoundFirst()
    ensures IndexIn(LOWER, "id") == Some(0) && IndexIn(LOWER, "name") == Some(1) && IndexIn(LOWER, "host") == Some(2)
  {
    hide IndexIn;
    FoundAt(LOWER, "id", 0);
    FoundAt(LOWER, "name", 1);
    FoundAt(LOWER, "host", 2);
  }

  lemma FoundNext()
    ensures IndexIn(LOWER, "port") == Some(3) && IndexIn(LOWER, "username") == Some(4)
    ensures IndexIn(LOWER, "password") == Some(5) && IndexIn(LOWER, "privatekeypath") == Some(6)
    ensures IndexIn(LOWER, "jumpserverid") == Some(7)
  {
    hide IndexIn;
    FoundAt(LOWER, "port", 3);
    FoundAt(LOWER, "username", 4);
    FoundAt(LOWER, "password", 5);
    FoundAt(LOWER, "privatekeypath", 6);
    FoundAt(LOWER, "jumpserverid", 7);
  }

  lemma FoundLast()
    ensures IndexIn(LOWER, "folder") == Some(8) && IndexIn(LOWER, "theme") == Some(9)
    ensures IndexIn(LOWER, "tags") == Some(10)
    ensures IndexIn(LOWER, "isfavorite") == Some(11) && IndexIn(LOWER, "pinnedfeatures") == Some(12)
    ensures IndexIn(LOWER, "createdat") == Some(13) && IndexIn(LOWER, "lastconnected") == Some(14)
  {
    hide IndexIn;
    FoundAt(LOWER, "folder", 8);
    FoundAt(LOWER, "theme", 9);
    FoundAt(LOWER, "tags", 10);
    FoundAt(LOWER, "isfavorite", 11);
    FoundAt(LOWER, "pinnedfeatures", 12);
    FoundAt(LOWER, "createdat", 13);
    FoundAt(LOWER, "lastconnected", 14);
  }

  // ----- A row -----

  lemma NumberIsPlain(n: nat)
    ensures CsvEscape(ToDecimal(n)) == ToDecimal(n) && Trim(ToDecimal(n)) == ToDecimal(n)
  {
    hide Trim;
    DecimalIsPlain(n);
    TrimIsIdentity(ToDecimal(n));
  }

  lemma OptionalNumberIsPlain(n: Option<U64>)
    ensures CsvEscape(CsvNumber(n)) == CsvNumber(n) && ParseU64(Trim(CsvNumber(n))) == n
  {
    hide Trim, CsvEscape, ToDecimal, ParseUnsigned;
    if n.Some? {
      NumberIsPlain(n.value);
      DecimalReadsBack(n.value, MAX_U64);
    } else {
      EmptyField();
    }
  }

  lemma EmptyField()
    ensures CsvEscape("") == "" && Trim("") == "" && ParseUnsigned("", MAX_U64) == None
  {
  }

  lemma BoolReadsBack(value: Option<bool>)
    ensures ParseBoolField(Trim(CsvBool(value))) == value
  {
    hide Trim;
    TrimIsIdentity(CsvBool(value));
    assert IsTrimmed(CsvBool(value));
    if value == Some(true) {
      assert ToAsciiLower("true") == "true";
    } else if value == Some(false) {
      assert ToAsciiLower("false") == "false";
    }
  }

  lemma TrimTwice(s: string)
    ensures Trim(Trim(s)) == Trim(s)
  {
    hide Trim;
    TrimIsTrimmed(s);
    TrimIsIdentity(Trim(s));
  }

  /** A row is the escaped raw fields. */
  lemma LineIsEscapedFields(c: Connection)
    ensures ConnectionToCsvLine(c) == Join(EscapeAll(RawFields(c)), ",")
  {
    hide Trim, CsvEscape, ToDecimal, Join, CsvBool, CsvJoin, CsvNumber, OrEmpty;
    NumberIsPlain(c.port);
    OptionalNumberIsPlain(c.createdAt);
    OptionalNumberIsPlain(c.lastConnected);
    assert EscapeAll(RawFields(c)) ==
      [CsvEscape(c.id), CsvEscape(c.name), CsvEscape(c.host), ToDecimal(c.port), CsvEscape(c.username),
       CsvEscape(OrEmpty(c.password)), CsvEscape(OrEmpty(c.privateKeyPath)), CsvEscape(OrEmpty(c.jumpServerId)),
       CsvEscape(OrEmpty(c.folder)), CsvEscape(OrEmpty(c.theme)), CsvEscape(CsvJoin(c.tags)),
       CsvEscape(CsvBool(c.isFavorite)), CsvEscape(CsvJoin(c.pinnedFeatures)), CsvNumber(c.createdAt),
       CsvNumber(c.lastConnected)];
  }

  lemma EveryField(raw: seq<string>)
    requires |raw| == 15
    ensures forall i: nat :: i < 15 ==> Field(TrimAll(raw), Some(i)) == Trim(raw[i])
  {
  }

  /** The fields of an exported row, read by the importer, make the normal form of the connection. */
  lemma RowIsNormal(c: Connection, newId: string)
    ensures ParseRow(EXPORTED, TrimAll(RawFields(c)), newId) == if IsTaken(c) then Some(Normal(c, newId)) else None
  {
    hide Trim, ToDecimal, CsvBool, CsvJoin, CsvNumber, OrEmpty, ParseUnsigned, ParseBoolField, Pieces, PiecesOfAll,
         ParseU64, NonEmpty, Field, TrimAll;
    EveryField(RawFields(c));
    TrimTwice(c.id);
    TrimTwice(c.name);
    TrimTwice(c.host);
    TrimTwice(c.username);
    NumberIsPlain(c.port);
    DecimalReadsBack(c.port, MAX_U16);
    BoolReadsBack(c.isFavorite);
    ListReadsBack(c.tags);
    ListReadsBack(c.pinnedFeatures);
    OptionalNumberIsPlain(c.createdAt);
    OptionalNumberIsPlain(c.lastConnected);
  }

  // ----- The file -----

  lemma {:induction false} DoubledHasNoLineFeed(value: string)
    requires NoChar(value, '\n')
    ensures NoChar(Doubled(value), '\n')
  {
    if value != [] {
      assert NoChar(value[1..], '\n') by {
        assert forall i :: 0 <= i < |value[1..]| ==> value[1..][i] == value[i + 1];
      }
      DoubledHasNoLineFeed(value[1..]);
    }
  }

  /** A line that survives the splitting into lines and the search for blank ones. */
  predicate IsRow(line: string) {
    IsLine(line) && Trim(line) != []
  }

  /** Fields without line feeds, the last of them not ending in a carriage return, make a row. */
  lemma JoinedIsRow(fields: seq<string>)
    requires |fields| > 1 && forall i :: 0 <= i < |fields| ==> NoChar(fields[i], '\n')
    requires var last := fields[|fields| - 1]; last != [] ==> last[|last| - 1] != '\r'
    ensures IsRow(Join(fields, ","))
  {
    hide Trim;
    var first, last := fields[..|fields| - 1], fields[|fields| - 1];
    assert fields == first + [last];
    JoinLast(first, last, ",");
    JoinHasNo(fields, ",", '\n');
    var row := Join(fields, ",");
    assert row[|Join(first, ",")|] == ',';
    TrimOfBlank(row);
  }

  lemma ConnectionLineIsRow(c: Connection)
    requires HasNoLineFeed(c)
    ensures IsRow(ConnectionToCsvLine(c))
  {
    hide IsRow, Join, Doubled, RawFields;
    LineIsEscapedFields(c);
    var raw := RawFields(c);
    forall i | 0 <= i < 15 ensures NoChar(EscapeAll(raw)[i], '\n') {
      DoubledHasNoLineFeed(raw[i]);
    }
    LastFieldIsNumber(c);
    JoinedIsRow(EscapeAll(raw));
  }

  lemma LastFieldIsNumber(c: Connection)
    ensures var last := EscapeAll(RawFields(c))[14]; last != [] ==> last[|last| - 1] != '\r'
  {
    hide CsvEscape;
    OptionalNumberIsPlain(c.lastConnected);
    if c.lastConnected.Some? {
      DecimalIsPlain(c.lastConnected.value);
      assert !IsDigit('\r');
    }
  }

  lemma HeaderIsRow()
    ensures IsRow(Join(HEADERS, ","))
  {
    hide IsRow, Join, Lowers;
    HeadersLower();
    forall i | 0 <= i < 15 ensures NoChar(HEADERS[i], '\n') {
      assert Lowers(HEADERS[i], LOWER[i]);
      LoweredHasNoLineFeed(HEADERS[i], LOWER[i]);
    }
    JoinedIsRow(HEADERS);
  }

  lemma LoweredHasNoLineFeed(header: string, lower: string)
    requires Lowers(header, lower)
    ensures NoChar(header, '\n')
  {
  }

  lemma {:induction false} NonBlankRows(lines: seq<string>)
    requires forall i :: 0 <= i < |lines| ==> IsRow(lines[i])
    ensures NonBlank(lines) == lines
  {
    hide Trim, IsLine;
    if lines != [] { NonBlankRows(lines[1..]); }
  }

  lemma {:induction false} LinesAreRows(connections: seq<Connection>)
    requires forall i :: 0 <= i < |connections| ==> HasNoLineFeed(connections[i])
    ensures |ConnectionLines(connections)| == |connections|
    ensures forall i :: 0 <= i < |connections| ==> IsRow(ConnectionLines(connections)[i])
  {
    hide IsRow, ConnectionToCsvLine, HasNoLineFeed;
    if connections != [] {
      ConnectionLineIsRow(connections[0]);
      LinesAreRows(connections[1..]);
    }
  }

  lemma {:induction false} RowsReadBack(connections: seq<Connection>, newIds: nat -> string, k: nat)
    ensures ParseRows(EXPORTED, ConnectionLines(connections), newIds, k) == NormalAll(connections, newIds, k)
  {
    hide ConnectionToCsvLine, RawFields, Fields, ParseRow, Normal, IsTaken, Join;
    if connections != [] {
      RowsReadBack(connections[1..], newIds, k + 1);
      LineIsEscapedFields(connections[0]);
      RowReadsBack(RawFields(connections[0]));
      RowIsNormal(connections[0], newIds(k));
    }
  }

  lemma RowsAreLines(header: string, rows: seq<string>)
    requires IsRow(header) && forall i :: 0 <= i < |rows| ==> IsRow(rows[i])
    ensures NonBlank(Lines(Join([header] + rows, "\n"))) == [header] + rows
  {
    hide IsRow, Join, Lines, NonBlank;
    var lines := [header] + rows;
    forall i | 0 <= i < |lines| ensures IsRow(lines[i]) && IsLine(lines[i]) && lines[i] != [] {
      RowIsLine(if i == 0 then header else rows[i - 1]);
    }
    LinesOfJoined(lines);
    NonBlankRows(lines);
  }

  lemma FileIsLines(connections: seq<Connection>)
    requires forall i :: 0 <= i < |connections| ==> HasNoLineFeed(connections[i])
    ensures NonBlank(Lines(ExportCsv(connections))) == [Join(HEADERS, ",")] + ConnectionLines(connections)
  {
    hide IsRow, HasNoLineFeed, ConnectionLines, Join, Lines, NonBlank, HEADERS;
    HeaderIsRow();
    LinesAreRows(connections);
    RowsAreLines(Join(HEADERS, ","), ConnectionLines(connections));
  }

  lemma RowIsLine(line: string)
    requires IsRow(line)
    ensures IsLine(line) && line != []
  {
  }

  /** Whatever the connections hold, short of line feeds: importing the exported file gives the normal form of each,
      without those that have no host or no user. */
  lemma ImportOfExport(connections: seq<Connection>, newIds: nat -> string)
    requires forall i :: 0 <= i < |connections| ==> HasNoLineFeed(connections[i])
    ensures ParseCsv(ExportCsv(connections), newIds) == Ok(NormalAll(connections, newIds, 0))
  {
    hide HasNoLineFeed, ConnectionLines, Join, Lines, NonBlank, Fields, LowerAll, FindColumns, ParseRows, NormalAll,
         ExportCsv;
    FileIsLines(connections);
    HeaderReadsBack();
    ColumnsFound();
    RowsReadBack(connections, newIds, 0);
  }

  // ----- When it is the same -----

  predicate IsCleanOption(value: Option<string>) {
    value.Some? ==> value.value != [] && IsTrimmed(value.value)
  }

  predicate IsCleanList(values: Option<seq<string>>) {
    values.Some? ==> values.value != [] && forall i :: 0 <= i < |values.value| ==> IsCleanTag(values.value[i])
  }

  predicate IsCleanTag(tag: string) {
    tag != [] && IsTrimmed(tag) && NoChar(tag, ';')
  }

  /** Trimmed, nothing empty that could be left out, and no semicolon in a list. */
  predicate IsClean(c: Connection) {
    && c.id != [] && IsTrimmed(c.id) && c.name != [] && IsTrimmed(c.name) && c.host != [] && IsTrimmed(c.host)
    && c.username != [] && IsTrimmed(c.username)
    && IsCleanOption(c.password) && IsCleanOption(c.privateKeyPath) && IsCleanOption(c.jumpServerId)
    && IsCleanOption(c.folder) && IsCleanOption(c.theme)
    && IsCleanList(c.tags) && IsCleanList(c.pinnedFeatures)
  }

  lemma TrimHasNo(s: string, c: char)
    requires NoChar(s, c)
    ensures NoChar(Trim(s), c)
  {
    var t := TrimStart(s);
    forall i | 0 <= i < |t| ensures t[i] != c {
      assert t[i] == s[|s| - |t| + i];
    }
  }

  lemma {:induction false} PiecesAreClean(s: string)
    ensures forall i :: 0 <= i < |Pieces(s)| ==> IsCleanTag(Pieces(s)[i])
    decreases |s|
  {
    hide Pieces, IsCleanTag;
    if NoChar(s, ';') {
      PiecesOfOne(s);
      PieceIsClean(s);
    } else {
      var first, rest := Cut(s);
      PiecesAfterFirst(first, rest);
      PieceIsClean(first);
      PiecesAreClean(rest);
    }
  }

  lemma PieceIsClean(s: string)
    requires NoChar(s, ';')
    ensures forall i :: 0 <= i < |PieceOf(s)| ==> IsCleanTag(PieceOf(s)[i])
  {
    hide Trim;
    TrimHasNo(s, ';');
    TrimIsTrimmed(s);
  }

  lemma {:induction false} PiecesOfAllAreClean(values: seq<string>)
    ensures forall i :: 0 <= i < |PiecesOfAll(values)| ==> IsCleanTag(PiecesOfAll(values)[i])
  {
    hide Pieces, IsCleanTag;
    if values != [] {
      PiecesAreClean(values[0]);
      PiecesOfAllAreClean(values[1..]);
    }
  }

  lemma {:induction false} CleanTagsAreKept(values: seq<string>)
    requires forall i :: 0 <= i < |values| ==> IsCleanTag(values[i])
    ensures PiecesOfAll(values) == values
  {
    hide Pieces, Trim;
    if values != [] {
      PiecesOfOne(values[0]);
      TrimIsIdentity(values[0]);
      CleanTagsAreKept(values[1..]);
    }
  }

  /** A list is kept exactly when it is clean. */
  lemma ListIsKept(values: Option<seq<string>>)
    ensures NormalList(values) == values <==> IsCleanList(values)
  {
    hide IsCleanTag, PiecesOfAll;
    if values.Some? {
      PiecesOfAllAreClean(values.value);
      if IsCleanList(values) { CleanTagsAreKept(values.value); }
    }
  }

  lemma OptionIsKept(value: Option<string>)
    ensures TrimmedOption(value) == value <==> IsCleanOption(value)
  {
    hide Trim;
    TrimIsIdentity(OrEmpty(value));
  }

  lemma TextIsKept(s: string)
    ensures Trim(s) == s && s != [] <==> IsTrimmed(s) && s != []
    ensures IsTrimmed(Trim(s))
  {
    hide Trim;
    TrimIsIdentity(s);
    TrimIsTrimmed(s);
  }

  /** A connection is imported unchanged exactly when it is clean. */
  lemma ConnectionIsKept(c: Connection, newId: string)
    requires newId != [] && IsTrimmed(newId)
    ensures IsTaken(c) && Normal(c, newId) == c <==> IsClean(c)
  {
    hide Trim, IsTrimmed, TrimmedOption, NormalList, IsCleanOption, IsCleanList;
    if Trim(c.id) == [] { NewIdIsNoBlank(c.id, newId); }
    TextIsKept(c.id);
    TextIsKept(c.name);
    TextIsKept(c.host);
    TextIsKept(c.username);
    OptionIsKept(c.password);
    OptionIsKept(c.privateKeyPath);
    OptionIsKept(c.jumpServerId);
    OptionIsKept(c.folder);
    OptionIsKept(c.theme);
    ListIsKept(c.tags);
    ListIsKept(c.pinnedFeatures);
  }

  lemma NewIdIsNoBlank(id: string, newId: string)
    requires newId != [] && IsTrimmed(newId) && Trim(id) == []
    ensures id != newId
  {
    hide Trim;
    TrimIsIdentity(newId);
  }

  /** However many connections: the import is the list that was exported exactly when every connection is clean. */
  lemma RoundTripExactly(connections: seq<Connection>, newIds: nat -> string)
    requires forall i :: 0 <= i < |connections| ==> HasNoLineFeed(connections[i])
    requires forall k: nat :: newIds(k) != [] && IsTrimmed(newIds(k))
    ensures ParseCsv(ExportCsv(connections), newIds) == Ok(connections)
       <==> forall i :: 0 <= i < |connections| ==> IsClean(connections[i])
  {
    hide *;
    ImportOfExport(connections, newIds);
    NormalIsSame(connections, newIds, 0);
  }

  lemma {:induction false} NormalIsSame(connections: seq<Connection>, newIds: nat -> string, k: nat)
    requires forall k: nat :: newIds(k) != [] && IsTrimmed(newIds(k))
    ensures |NormalAll(connections, newIds, k)| <= |connections|
    ensures NormalAll(connections, newIds, k) == connections
       <==> forall i :: 0 <= i < |connections| ==> IsClean(connections[i])
  {
    hide IsClean, IsTaken, Normal, IsTrimmed;
    if connections != [] {
      NormalIsSame(connections[1..], newIds, k + 1);
      ConnectionIsKept(connections[0], newIds(k));
      assert connections == [connections[0]] + connections[1..];
    }
  }
}
