/** One row of comma-separated values: quoting, and the scanner that undoes it. */
module Csv {
  import opened Text

  predicate NeedsQuotes(value: string) {
    ',' in value || '"' in value || '\n' in value || '\r' in value
  }

  /** `replace('"', "\"\"")`. */
  function Doubled(value: string): string {
    if value == [] then []
    else (if value[0] == '"' then ['"', '"'] else [value[0]]) + Doubled(value[1..])
  }

  /** `csv_escape`. */
  function CsvEscape(value: string): string {
    if NeedsQuotes(value) then ['"'] + Doubled(value) + ['"'] else value
  }

  function EscapeAll(fields: seq<string>): seq<string> {
    seq(|fields|, i requires 0 <= i < |fields| => CsvEscape(fields[i]))
  }

  function TrimAll(fields: seq<string>): seq<string> {
    seq(|fields|, i requires 0 <= i < |fields| => Trim(fields[i]))
  }

  /** The fields of the rest of a row, with `current` already read of the first one. */
  function Fields(row: string, current: string, inQuotes: bool): seq<string>
    decreases |row|
  {
    if row == [] then [Trim(current)]
    else if inQuotes then
      if row[0] != '"' then Fields(row[1..], current + [row[0]], true)
      else if |row| > 1 && row[1] == '"' then Fields(row[2..], current + ['"'], true)
      else Fields(row[1..], current, false)
    else if row[0] == '"' then Fields(row[1..], current, true)
    else if row[0] == ',' then [Trim(current)] + Fields(row[1..], [], false)
    else Fields(row[1..], current + [row[0]], false)
  }

  /** A value is quoted exactly if it holds a comma, a quote or the end of a line. */
  lemma QuotedExactly(value: string)
    ensures ',' !in value && '"' !in value && '\n' !in value && '\r' !in value ==> CsvEscape(value) == value
    ensures ',' in value || '"' in value || '\n' in value || '\r' in value
            ==> exists inner :: CsvEscape(value) == "\"" + inner + "\""
  {
    if ',' in value || '"' in value || '\n' in value || '\r' in value {
      assert CsvEscape(value) == "\"" + Doubled(value) + "\"";
    }
  }

  // ----- One character -----

  lemma AtPlainChar(c: char, rest: string, current: string)
    requires c != '"' && c != ','
    ensures Fields([c] + rest, current, false) == Fields(rest, current + [c], false)
  {
    assert ([c] + rest)[1..] == rest;
  }

  lemma AtComma(rest: string, current: string)
    ensures Fields([','] + rest, current, false) == [Trim(current)] + Fields(rest, [], false)
  {
    assert ([','] + rest)[1..] == rest;
  }

  lemma AtOpeningQuote(rest: string, current: string)
    ensures Fields(['"'] + rest, current, false) == Fields(rest, current, true)
  {
    assert (['"'] + rest)[1..] == rest;
  }

  lemma AtClosingQuote(rest: string, current: string)
    requires rest == [] || rest[0] != '"'
    ensures Fields(['"'] + rest, current, true) == Fields(rest, current, false)
  {
    hide Trim;
    assert (['"'] + rest)[1..] == rest;
  }

  lemma AtDoubledQuote(rest: string, current: string)
    ensures Fields(['"', '"'] + rest, current, true) == Fields(rest, current + ['"'], true)
  {
    hide Trim;
    assert (['"', '"'] + rest)[2..] == rest;
  }

  lemma AtQuotedChar(c: char, rest: string, current: string)
    requires c != '"'
    ensures Fields([c] + rest, current, true) == Fields(rest, current + [c], true)
  {
    assert ([c] + rest)[1..] == rest;
  }

  lemma AtEnd(current: string, inQuotes: bool)
    ensures Fields([], current, inQuotes) == [Trim(current)]
  {
  }

  lemma FirstChar(row: string, i: nat)
    requires i < |row|
    ensures row[i..] == [row[i]] + row[i + 1..]
    ensures i + 1 < |row| ==> row[i..] == [row[i], row[i + 1]] + row[i + 2..]
    ensures row[i + 1..] == [] <==> i + 1 == |row|
  {
  }

  /** `split_csv_row`. */
  method SplitCsvRow(row: string) returns (fields: seq<string>)
    ensures fields == Fields(row, [], false)
  {
    hide Fields, Trim;
    fields := [];
    var current, inQuotes, i := "", false, 0;
    assert row[0..] == row;
    while i < |row|
      invariant i <= |row|
      invariant fields + Fields(row[i..], current, inQuotes) == Fields(row, [], false)
    {
      var ch := row[i];
      FirstChar(row, i);
      i := i + 1;
      if inQuotes {
        if ch == '"' {
          if i < |row| && row[i] == '"' {
            AtDoubledQuote(row[i + 1..], current);
            current := current + ['"'];
            i := i + 1;
          } else {
            AtClosingQuote(row[i..], current);
            inQuotes := false;
          }
        } else {
          AtQuotedChar(ch, row[i..], current);
          current := current + [ch];
        }
      } else if ch == '"' {
        AtOpeningQuote(row[i..], current);
        inQuotes := true;
      } else if ch == ',' {
        AtComma(row[i..], current);
        fields := fields + [Trim(current)];
        current := "";
      } else {
        AtPlainChar(ch, row[i..], current);
        current := current + [ch];
      }
    }
    assert row[i..] == [];
    AtEnd(current, inQuotes);
    fields := fields + [Trim(current)];
  }

  // ----- Reading back what was written -----

  /** A field without quotes and commas is read as it stands. */
  lemma {:induction false} PlainField(value: string, rest: string, current: string)
    requires NoChar(value, '"') && NoChar(value, ',')
    ensures Fields(value + rest, current, false) == Fields(rest, current + value, false)
  {
    hide Fields;
    if value == [] {
      assert value + rest == rest && current + value == current;
    } else {
      AtPlainChar(value[0], value[1..] + rest, current);
      assert value + rest == [value[0]] + (value[1..] + rest);
      PlainField(value[1..], rest, current + [value[0]]);
      assert current + [value[0]] + value[1..] == current + value;
    }
  }

  /** A quoted field is read up to its closing quote. */
  lemma {:induction false} QuotedField(value: string, rest: string, current: string)
    requires rest == [] || rest[0] != '"'
    ensures Fields(Doubled(value) + (['"'] + rest), current, true) == Fields(rest, current + value, false)
  {
    hide Fields;
    if value == [] {
      assert Doubled(value) + (['"'] + rest) == ['"'] + rest && current + value == current;
      AtClosingQuote(rest, current);
    } else {
      var tail := Doubled(value[1..]) + (['"'] + rest);
      QuotedField(value[1..], rest, current + [value[0]]);
      assert current + [value[0]] + value[1..] == current + value;
      if value[0] == '"' {
        assert Doubled(value) + (['"'] + rest) == ['"', '"'] + tail;
        AtDoubledQuote(tail, current);
      } else {
        assert Doubled(value) + (['"'] + rest) == [value[0]] + tail;
        AtQuotedChar(value[0], tail, current);
      }
    }
  }

  lemma EscapedField(value: string, rest: string)
    requires rest == [] || rest[0] == ','
    ensures Fields(CsvEscape(value) + rest, [], false) == Fields(rest, value, false)
  {
    hide Fields, Doubled;
    assert [] + value == value;
    if NeedsQuotes(value) {
      assert CsvEscape(value) + rest == ['"'] + (Doubled(value) + (['"'] + rest));
      AtOpeningQuote(Doubled(value) + (['"'] + rest), []);
      QuotedField(value, rest, []);
    } else {
      PlainField(value, rest, []);
    }
  }

  /** Splitting a row of escaped fields gives back the fields, trimmed, whatever they contain. */
  lemma {:induction false} RowReadsBack(fields: seq<string>)
    requires fields != []
    ensures Fields(Join(EscapeAll(fields), ","), [], false) == TrimAll(fields)
  {
    hide Fields, CsvEscape, Trim;
    var first := CsvEscape(fields[0]);
    if |fields| == 1 {
      assert EscapeAll(fields) == [first] && first + [] == first;
      EscapedField(fields[0], []);
      AtEnd(fields[0], false);
    } else {
      RowReadsBack(fields[1..]);
      var rest := Join(EscapeAll(fields[1..]), ",");
      assert EscapeAll(fields)[1..] == EscapeAll(fields[1..]);
      assert Join(EscapeAll(fields), ",") == first + ([','] + rest);
      EscapedField(fields[0], [','] + rest);
      AtComma(rest, fields[0]);
    }
  }
}
