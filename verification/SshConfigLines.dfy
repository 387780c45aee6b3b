/** What a line of a configuration says: a keyword and a value between any margins, delimiters and quotes. */
module SshConfigLines {
  import opened Wrappers
  import opened Text
  import opened SshConfig
  import opened SshConfigComments

  predicate AllDelimiters(s: string) {
    forall i :: 0 <= i < |s| ==> IsDelimiter(s[i])
  }

  predicate NoDelimiter(s: string) {
    forall i :: 0 <= i < |s| ==> !IsDelimiter(s[i])
  }

  // ----- The parts of a line -----

  lemma {:induction false} TrimEndDropsMargin(s: string, end: string)
    requires AllWhitespace(end) && IsTrimmed(s)
    ensures TrimEnd(s + end) == s
    decreases |end|
  {
    if end == [] {
      assert s + end == s;
    } else {
      var n := |end| - 1;
      assert s + end == (s + end[..n]) + [end[n]];
      TrimEndStep(s + end[..n], end[n]);
      TrimEndDropsMargin(s, end[..n]);
    }
  }

  lemma TrimBetween(margin: string, s: string, end: string)
    requires AllWhitespace(margin) && AllWhitespace(end) && IsTrimmed(s) && s != []
    ensures Trim(margin + (s + end)) == s
  {
    TrimStartDropsMargin(margin, s + end);
    assert (s + end)[0] == s[0];
    TrimEndDropsMargin(s, end);
  }

  lemma {:induction false} KeyEnds(key: string, rest: string)
    requires NoDelimiter(key) && (rest == [] || IsDelimiter(rest[0]))
    ensures KeyLength(key + rest) == |key|
  {
    if key == [] {
      assert key + rest == rest;
    } else {
      assert (key + rest)[1..] == key[1..] + rest;
      KeyEnds(key[1..], rest);
    }
  }

  lemma {:induction false} ValueBegins(between: string, value: string)
    requires AllDelimiters(between) && (value == [] || !IsDelimiter(value[0]))
    ensures DropDelimiters(between + value) == value
  {
    if between == [] {
      assert between + value == value;
    } else {
      assert (between + value)[1..] == between[1..] + value;
      ValueBegins(between[1..], value);
    }
  }

  // ----- Blank lines -----

  lemma {:induction false} TrimStartDropsBlanks(s: string)
    ensures AllWhitespace(s[..|s| - |TrimStart(s)|])
  {
    if s != [] && IsWhitespace(s[0]) {
      var n := |s| - |TrimStart(s)|;
      TrimStartDropsBlanks(s[1..]);
      assert s[..n] == [s[0]] + s[1..][..n - 1];
    }
  }

  lemma {:induction false} BlanksOpenNothing(line: string, i: nat)
    requires i <= |line| && AllWhitespace(line[..i])
    ensures !EscapedAt(line, i) && QuoteAt(line, i) == None
  {
    if i > 0 {
      assert line[..i][..i - 1] == line[..i - 1];
      assert IsWhitespace(line[..i][i - 1]);
      BlanksOpenNothing(line, i - 1);
    }
  }

  /** A line that would start with a number sign is blank once its comment is cut off. */
  lemma NoCommentIsLeft(line: string)
    ensures var s := Trim(WithoutComment(line)); s == [] || s[0] != '#'
  {
    var kept := WithoutComment(line);
    var i := |kept| - |TrimStart(kept)|;
    if Trim(kept) != [] && Trim(kept)[0] == '#' {
      TrimIsTrimmed(kept);
      TrimStartDropsBlanks(kept);
      CommentIsFirstUnquoted(line);
      assert line[..i] == kept[..i] && line[i] == kept[i] == '#';
      BlanksOpenNothing(line, i);
      assert StartsComment(line, i);
    }
  }

  /** Exactly the lines without anything but white space before their comment say nothing. */
  lemma NothingIsRead(line: string)
    ensures ReadLine(line) == None <==> AllWhitespace(WithoutComment(line))
  {
    NoCommentIsLeft(line);
    TrimOfBlank(WithoutComment(line));
  }

  // ----- Settings -----

  /** The value with one pair of quotes around it taken off, whichever they are. */
  ghost predicate IsUnquoted(value: string, read: string) {
    || value == "\"" + read + "\""
    || value == "'" + read + "'"
    || (read == value && forall q, inner: string :: q in ['"', '\''] ==> value != [q] + inner + [q])
  }

  lemma QuotesAreStripped(value: string)
    ensures IsUnquoted(value, StripWrappingQuotes(value))
    ensures forall read :: IsUnquoted(value, read) ==> read == StripWrappingQuotes(value)
  {
    var read := StripWrappingQuotes(value);
    if read != value {
      assert value == [value[0]] + read + [value[0]];
    }
    forall other | IsUnquoted(value, other) ensures other == read {
      if other != value {
        assert other == value[1..|value| - 1];
      }
    }
  }

  /** The keyword is what stands before the first white space or equals sign, in any case of letters; the value is what
      stands after all of these, without the margins and one pair of quotes. */
  lemma SettingIsRead(line: string, margin: string, key: string, between: string, value: string, end: string)
    requires WithoutComment(line) == margin + (key + between + value + end)
    requires AllWhitespace(margin) && AllWhitespace(end) && NoDelimiter(key) && AllDelimiters(between)
    requires key + between + value != [] && IsTrimmed(key + between + value)
    requires value == [] || (!IsDelimiter(value[0]) && between != [])
    ensures var setting := ReadLine(line);
            setting.Some? && setting.value.key == ToAsciiLower(key) && IsUnquoted(value, setting.value.value)
  {
    hide Trim, WithoutComment, KeyLength, DropDelimiters, StripWrappingQuotes, ToAsciiLower, ReadLine, IsUnquoted,
         IsWhitespace;
    var s := key + between + value;
    assert s + end == key + between + value + end;
    TrimBetween(margin, s, end);
    NoCommentIsLeft(line);
    assert s == key + (between + value);
    KeyEnds(key, between + value);
    ValueBegins(between, value);
    assert s[..|key|] == key && s[|key|..] == between + value;
    ValueIsTrimmed(key + between, value);
    ReadsThisWay(line, s);
    QuotesAreStripped(value);
  }

  lemma ReadsThisWay(line: string, s: string)
    requires Trim(WithoutComment(line)) == s && s != [] && s[0] != '#'
    ensures ReadLine(line)
            == Some(Setting(ToAsciiLower(s[..KeyLength(s)]),
                            StripWrappingQuotes(Trim(DropDelimiters(s[KeyLength(s)..])))))
  {
  }

  lemma ValueIsTrimmed(before: string, value: string)
    requires IsTrimmed(before + value) && (value == [] || !IsDelimiter(value[0]))
    ensures Trim(value) == value
  {
    if value != [] {
      assert (before + value)[|before + value| - 1] == value[|value| - 1];
    }
    TrimIsIdentity(value);
  }
}
