/** Which column is which, and what the fields of an imported row come to. */
module CsvColumns {
  import opened Wrappers
  import opened Numbers
  import opened Text
  import opened Csv
  import C = CsvConnections

  /** The first header with the first of these names, or else the first one with the second. */
  predicate IsColumn(headers: seq<string>, at: Option<nat>, name: string, other: string) {
    if name in headers then IsFirst(headers, at, name)
    else if other in headers then IsFirst(headers, at, other)
    else at == None
  }

  predicate IsFirst(headers: seq<string>, at: Option<nat>, name: string) {
    && at.Some? && at.value < |headers| && headers[at.value] == name
    && forall j :: 0 <= j < at.value ==> headers[j] != name
  }

  lemma {:induction false} IndexIsFirst(headers: seq<string>, name: string)
    ensures if name in headers then IsFirst(headers, C.IndexIn(headers, name), name)
            else C.IndexIn(headers, name) == None
  {
    if headers != [] && headers[0] != name {
      IndexIsFirst(headers[1..], name);
      assert name in headers <==> name in headers[1..];
    }
  }

  lemma EitherIsColumn(headers: seq<string>, name: string, other: string)
    ensures IsColumn(headers, C.IndexOfEither(headers, name, other), name, other)
    ensures IsColumn(headers, C.IndexIn(headers, name), name, name)
  {
    IndexIsFirst(headers, name);
    IndexIsFirst(headers, other);
  }

  lemma RequiredColumnsAreFound(headers: seq<string>)
    ensures var at := C.FindColumns(headers);
            && IsColumn(headers, at.name, "name", "connection_name")
            && IsColumn(headers, at.host, "host", "hostname")
            && IsColumn(headers, at.username, "username", "user")
  {
    hide IsColumn, C.IndexIn, C.IndexOfEither;
    EitherIsColumn(headers, "name", "connection_name");
    EitherIsColumn(headers, "host", "hostname");
    EitherIsColumn(headers, "username", "user");
  }

  lemma SingleColumnsAreFound(headers: seq<string>)
    ensures var at := C.FindColumns(headers);
            && IsColumn(headers, at.id, "id", "id") && IsColumn(headers, at.port, "port", "port")
            && IsColumn(headers, at.password, "password", "password")
            && IsColumn(headers, at.folder, "folder", "folder")
            && IsColumn(headers, at.theme, "theme", "theme") && IsColumn(headers, at.tags, "tags", "tags")
  {
    hide IsColumn, C.IndexIn, C.IndexOfEither;
    EitherIsColumn(headers, "id", "id");
    EitherIsColumn(headers, "port", "port");
    EitherIsColumn(headers, "password", "password");
    EitherIsColumn(headers, "folder", "folder");
    EitherIsColumn(headers, "theme", "theme");
    EitherIsColumn(headers, "tags", "tags");
  }

  lemma OtherColumnsAreFound(headers: seq<string>)
    ensures var at := C.FindColumns(headers);
            && IsColumn(headers, at.privateKeyPath, "privatekeypath", "private_key_path")
            && IsColumn(headers, at.jumpServerId, "jumpserverid", "jump_server_id")
            && IsColumn(headers, at.isFavorite, "isfavorite", "is_favorite")
            && IsColumn(headers, at.pinnedFeatures, "pinnedfeatures", "pinned_features")
            && IsColumn(headers, at.createdAt, "createdat", "created_at")
            && IsColumn(headers, at.lastConnected, "lastconnected", "last_connected")
  {
    hide IsColumn, C.IndexIn, C.IndexOfEither;
    EitherIsColumn(headers, "privatekeypath", "private_key_path");
    EitherIsColumn(headers, "jumpserverid", "jump_server_id");
    EitherIsColumn(headers, "isfavorite", "is_favorite");
    EitherIsColumn(headers, "pinnedfeatures", "pinned_features");
    EitherIsColumn(headers, "createdat", "created_at");
    EitherIsColumn(headers, "lastconnected", "last_connected");
  }

  /** The columns of an importable file: every one is looked up under its names, and the three that are required are
      there. */
  lemma ImportNeedsItsColumns(content: string, newIds: nat -> string)
    ensures var lines := C.NonBlank(Lines(content));
            lines == [] ==> C.ParseCsv(content, newIds) == Ok([])
    ensures var lines := C.NonBlank(Lines(content));
            lines != [] ==>
              var headers := C.LowerAll(Fields(lines[0], [], false));
              && (C.ParseCsv(content, newIds).Ok?
                  <==> && (|| "name" in headers || "connection_name" in headers)
                       && (|| "host" in headers || "hostname" in headers)
                       && (|| "username" in headers || "user" in headers))
              && (C.ParseCsv(content, newIds) == Err("name")
                  <==> "name" !in headers && "connection_name" !in headers)
              && (C.ParseCsv(content, newIds) == Err("host")
                  ==> "host" !in headers && "hostname" !in headers)
              && (C.ParseCsv(content, newIds) == Err("username")
                  ==> "username" !in headers && "user" !in headers)
              && (C.ParseCsv(content, newIds).Err?
                  ==> C.ParseCsv(content, newIds).error in ["name", "host", "username"])
              && (C.ParseCsv(content, newIds).Ok?
                  ==> C.ParseCsv(content, newIds).value == C.ParseRows(C.FindColumns(headers), lines[1..], newIds, 0))
  {
    hide Lines, C.NonBlank, C.LowerAll, Fields, C.FindColumns, C.ParseRows;
    var lines := C.NonBlank(Lines(content));
    if lines != [] {
      RequiredColumnsAreFound(C.LowerAll(Fields(lines[0], [], false)));
    }
  }

  /** A line counts exactly if it is not blank. */
  lemma {:induction false} BlankLinesDoNotCount(before: seq<string>, line: string, after: seq<string>)
    ensures C.NonBlank(before + [line] + after)
         == C.NonBlank(before) + (if AllWhitespace(line) then [] else [line]) + C.NonBlank(after)
  {
    hide Trim, AllWhitespace;
    var lines := before + [line] + after;
    TrimOfBlank(line);
    if before == [] {
      assert lines[0] == line && lines[1..] == after;
    } else {
      assert lines[0] == before[0] && lines[1..] == before[1..] + [line] + after;
      BlankLinesDoNotCount(before[1..], line, after);
    }
  }

  /** Every row is read on its own, and what it stands for is in its place. */
  lemma {:induction false} RowsAreReadAlone(at: C.Columns, before: seq<string>, row: string, after: seq<string>,
                                            newIds: nat -> string, k: nat)
    ensures C.ParseRows(at, before + [row] + after, newIds, k)
         == C.ParseRows(at, before, newIds, k)
            + (match C.ParseRow(at, Fields(row, [], false), newIds(k + |before|)) case Some(c) => [c] case None => [])
            + C.ParseRows(at, after, newIds, k + |before| + 1)
  {
    hide C.ParseRow, Fields;
    var rows := before + [row] + after;
    if before == [] {
      assert rows[0] == row && rows[1..] == after;
    } else {
      assert rows[0] == before[0] && rows[1..] == before[1..] + [row] + after;
      RowsAreReadAlone(at, before[1..], row, after, newIds, k + 1);
    }
  }

  /** The field in a column; empty where the row is too short or there is no such column. */
  function Cell(fields: seq<string>, at: Option<nat>): string {
    match at
    case None => ""
    case Some(i) => if i < |fields| then fields[i] else ""
  }

  predicate IsOptional(value: Option<string>, cell: string) {
    value == if cell == "" then None else Some(cell)
  }

  predicate IsFlag(value: Option<bool>, cell: string) {
    var word := ToAsciiLower(Trim(cell));
    && (value == Some(true) <==> word in ["true", "1", "yes", "y"])
    && (value == Some(false) <==> word in ["false", "0", "no", "n"])
  }

  predicate IsList(value: Option<seq<string>>, cell: string) {
    value == if C.Pieces(cell) == [] then None else Some(C.Pieces(cell))
  }

  /** A row is skipped exactly without host or user. */
  lemma RowIsSkipped(at: C.Columns, fields: seq<string>, newId: string)
    ensures C.ParseRow(at, fields, newId).None?
       <==> Trim(Cell(fields, at.host)) == "" || Trim(Cell(fields, at.username)) == ""
  {
    hide Trim, C.ParsePort, C.ParseU64, C.ParseBoolField, C.ListField, C.NonEmpty;
  }

  /** Of any other row, an empty name becomes the host, an empty identifier a new one, and a port that is no number
      below 65536 becomes 22. */
  lemma RowNamesItsHost(at: C.Columns, fields: seq<string>, newId: string)
    requires C.ParseRow(at, fields, newId).Some?
    ensures var c := C.ParseRow(at, fields, newId).value;
            var name, id := Trim(Cell(fields, at.name)), Trim(Cell(fields, at.id));
            && c.host == Trim(Cell(fields, at.host)) && c.username == Trim(Cell(fields, at.username))
            && c.name == (if name == "" then c.host else name) && c.id == (if id == "" then newId else id)
            && (match ParseUnsigned(Cell(fields, at.port), 65535) case Some(n) => c.port == n case None => c.port == 22)
  {
    hide Trim, ParseUnsigned, C.ParseU64, C.ParseBoolField, C.ListField, C.NonEmpty;
  }

  lemma RowKeepsItsTexts(at: C.Columns, fields: seq<string>, newId: string)
    requires C.ParseRow(at, fields, newId).Some?
    ensures var c := C.ParseRow(at, fields, newId).value;
            && IsOptional(c.password, Cell(fields, at.password))
            && IsOptional(c.privateKeyPath, Cell(fields, at.privateKeyPath))
            && IsOptional(c.jumpServerId, Cell(fields, at.jumpServerId))
            && IsOptional(c.folder, Cell(fields, at.folder)) && IsOptional(c.theme, Cell(fields, at.theme))
            && IsList(c.tags, Cell(fields, at.tags)) && IsList(c.pinnedFeatures, Cell(fields, at.pinnedFeatures))
  {
    hide Trim, C.Pieces, C.ParsePort, C.ParseU64, C.ParseBoolField;
  }

  lemma FlagIsRead(cell: string)
    ensures IsFlag(C.ParseBoolField(cell), cell)
  {
    hide Trim, ToAsciiLower;
  }

  lemma RowKeepsItsNumbers(at: C.Columns, fields: seq<string>, newId: string)
    requires C.ParseRow(at, fields, newId).Some?
    ensures var c := C.ParseRow(at, fields, newId).value;
            && IsFlag(c.isFavorite, Cell(fields, at.isFavorite))
            && c.createdAt == ParseUnsigned(Cell(fields, at.createdAt), 0xFFFF_FFFF_FFFF_FFFF)
            && c.lastConnected == ParseUnsigned(Cell(fields, at.lastConnected), 0xFFFF_FFFF_FFFF_FFFF)
  {
    hide Trim, ParseUnsigned, C.ParsePort, C.ParseBoolField, C.ListField, C.NonEmpty, IsFlag;
    FlagIsRead(Cell(fields, at.isFavorite));
  }
}
