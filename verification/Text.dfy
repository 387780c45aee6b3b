/** Lines, white space and joining, as Rust's `str` defines them. */
module Text {

  /** `char::is_whitespace`: the Unicode White_Space property. */
  predicate IsWhitespace(c: char) {
    || '\U{0009}' <= c <= '\U{000D}' || c == ' ' || c == '\U{0085}' || c == '\U{00A0}' || c == '\U{1680}'
    || '\U{2000}' <= c <= '\U{200A}' || c == '\U{2028}' || c == '\U{2029}' || c == '\U{202F}' || c == '\U{205F}'
    || c == '\U{3000}'
  }

  function TrimStart(s: string): (t: string)
    ensures |t| <= |s|
    ensures t == [] || !IsWhitespace(t[0])
    ensures t == s[|s| - |t|..]
  {
    if s != [] && IsWhitespace(s[0]) then TrimStart(s[1..]) else s
  }

  function TrimEnd(s: string): (t: string)
    ensures t <= s
    ensures t == [] || !IsWhitespace(t[|t| - 1])
  {
    if s != [] && IsWhitespace(s[|s| - 1]) then TrimEnd(s[..|s| - 1]) else s
  }

  function Trim(s: string): string {
    TrimEnd(TrimStart(s))
  }

  /** Nothing for `Trim` to remove. */
  predicate IsTrimmed(s: string) {
    s == [] || (!IsWhitespace(s[0]) && !IsWhitespace(s[|s| - 1]))
  }

  lemma TrimIsIdentity(s: string)
    ensures IsTrimmed(s) <==> Trim(s) == s
  {
    TrimIsTrimmed(s);
  }

  lemma TrimIsTrimmed(s: string)
    ensures IsTrimmed(Trim(s))
    ensures Trim(s) != [] ==> Trim(s)[0] == TrimStart(s)[0]
  {
  }

  predicate AllWhitespace(s: string) {
    forall i :: 0 <= i < |s| ==> IsWhitespace(s[i])
  }

  lemma {:induction false} TrimStartDropsMargin(margin: string, s: string)
    requires AllWhitespace(margin)
    ensures TrimStart(margin + s) == TrimStart(s)
  {
    if margin == [] {
      assert margin + s == s;
    } else {
      assert (margin + s)[1..] == margin[1..] + s;
      TrimStartDropsMargin(margin[1..], s);
    }
  }

  predicate NoChar(s: string, c: char) {
    forall i :: 0 <= i < |s| ==> s[i] != c
  }

  /** The index of the first `c`, or the length of `s`. */
  function IndexOf(s: string, c: char): (i: nat)
    ensures i <= |s|
    ensures NoChar(s[..i], c)
    ensures i < |s| ==> s[i] == c
  {
    if s == [] || s[0] == c then 0
    else
      var i := 1 + IndexOf(s[1..], c);
      assert s[..i] == [s[0]] + s[1..][..i - 1];
      i
  }

  lemma {:induction false} IndexOfFirst(a: string, c: char, b: string)
    requires NoChar(a, c)
    ensures IndexOf(a + [c] + b, c) == |a|
  {
    if a != [] {
      assert (a + [c] + b)[1..] == a[1..] + [c] + b;
      IndexOfFirst(a[1..], c, b);
    }
  }

  function StripCarriageReturn(s: string): string {
    if s != [] && s[|s| - 1] == '\r' then s[..|s| - 1] else s
  }

  /** `str::lines`: the pieces between line feeds, each terminated one without the carriage return before its line
      feed; a final line feed starts no further line. */
  function Lines(s: string): seq<string>
    decreases |s|
  {
    if s == [] then [] else
      var i := IndexOf(s, '\n');
      if i == |s| then [s] else [StripCarriageReturn(s[..i])] + Lines(s[i + 1..])
  }

  /** `[a, b, c].join(separator)`. */
  function Join(pieces: seq<string>, separator: string): string {
    if pieces == [] then []
    else if |pieces| == 1 then pieces[0]
    else pieces[0] + separator + Join(pieces[1..], separator)
  }

  /** Every line followed by a line feed. */
  function Terminated(lines: seq<string>): string {
    if lines == [] then [] else lines[0] + "\n" + Terminated(lines[1..])
  }

  /** A line that `Lines` gives back as it is. */
  predicate IsLine(s: string) {
    NoChar(s, '\n') && StripCarriageReturn(s) == s
  }

  lemma LineFirst(line: string, rest: string)
    requires NoChar(line, '\n')
    ensures Lines(line + "\n" + rest) == [StripCarriageReturn(line)] + Lines(rest)
  {
    var s := line + "\n" + rest;
    IndexOfFirst(line, '\n', rest);
    assert s == line + ['\n'] + rest;
    assert s[..|line|] == line && s[|line| + 1..] == rest;
  }

  lemma LastLine(line: string)
    requires NoChar(line, '\n') && line != []
    ensures Lines(line) == [line]
  {
    assert IndexOf(line, '\n') == |line|;
  }

  /** A line ends at a line feed or at a carriage return and a line feed; what follows the last one is a line as it
      stands. */
  lemma LineEndings(line: string, rest: string)
    requires NoChar(line, '\n') && (line != [] ==> line[|line| - 1] != '\r')
    ensures Lines(line + "\n" + rest) == [line] + Lines(rest)
    ensures Lines(line + "\r\n" + rest) == [line] + Lines(rest)
    ensures Lines(line + "\r") == [line + "\r"]
    ensures line != [] ==> Lines(line) == [line]
  {
    hide Lines;
    LineFirst(line, rest);
    LineFirst(line + "\r", rest);
    LastLine(line + "\r");
    if line != [] { LastLine(line); }
    assert line + "\r\n" + rest == line + "\r" + "\n" + rest;
    assert StripCarriageReturn(line + "\r") == line;
  }

  function StripAll(lines: seq<string>): (stripped: seq<string>)
    ensures |stripped| == |lines|
  {
    seq(|lines|, i requires 0 <= i < |lines| => StripCarriageReturn(lines[i]))
  }

  predicate NoLineFeeds(lines: seq<string>) {
    forall i :: 0 <= i < |lines| ==> NoChar(lines[i], '\n')
  }

  /** Terminated lines come back, but for a carriage return at their end. */
  lemma {:induction false} LinesOfTerminatedStrips(lines: seq<string>)
    requires NoLineFeeds(lines)
    ensures Lines(Terminated(lines)) == StripAll(lines)
  {
    if lines != [] {
      LinesOfTerminatedStrips(lines[1..]);
      LineFirst(lines[0], Terminated(lines[1..]));
      assert StripAll(lines) == [StripCarriageReturn(lines[0])] + StripAll(lines[1..]);
    }
  }

  lemma LinesOfTerminated(lines: seq<string>)
    requires forall i :: 0 <= i < |lines| ==> IsLine(lines[i])
    ensures Lines(Terminated(lines)) == lines
  {
    LinesOfTerminatedStrips(lines);
    assert StripAll(lines) == lines;
  }

  lemma {:induction false} LinesHaveNoLineFeeds(s: string)
    ensures NoLineFeeds(Lines(s))
    decreases |s|
  {
    if s != [] {
      var i := IndexOf(s, '\n');
      if i < |s| {
        LinesHaveNoLineFeeds(s[i + 1..]);
      } else {
        assert s[..i] == s;
      }
    }
  }

  lemma {:induction false} TerminatedAppends(a: seq<string>, b: seq<string>)
    ensures Terminated(a + b) == Terminated(a) + Terminated(b)
  {
    if a == [] {
      assert a + b == b;
    } else {
      assert (a + b)[1..] == a[1..] + b;
      TerminatedAppends(a[1..], b);
      assert Terminated(a + b) == a[0] + "\n" + (Terminated(a[1..]) + Terminated(b));
    }
  }

  /** Joined lines followed by a line feed are terminated lines. */
  lemma {:induction false} JoinThenLineFeed(lines: seq<string>)
    requires lines != []
    ensures Join(lines, "\n") + "\n" == Terminated(lines)
  {
    if |lines| > 1 {
      JoinThenLineFeed(lines[1..]);
      assert Join(lines, "\n") + "\n" == lines[0] + "\n" + (Join(lines[1..], "\n") + "\n");
    } else {
      assert lines[1..] == [];
      assert Terminated(lines) == lines[0] + "\n" + [];
    }
  }

  // ----- Trimming -----

  lemma {:induction false} TrimStartOfBlank(s: string)
    ensures TrimStart(s) == [] <==> AllWhitespace(s)
  {
    if s != [] && IsWhitespace(s[0]) {
      TrimStartOfBlank(s[1..]);
      assert AllWhitespace(s) <==> AllWhitespace(s[1..]) by {
        assert forall i :: 1 <= i < |s| ==> s[i] == s[1..][i - 1];
      }
    }
  }

  /** Only white space trims to nothing. */
  lemma TrimOfBlank(s: string)
    ensures Trim(s) == [] <==> AllWhitespace(s)
  {
    TrimStartOfBlank(s);
    TrimIsTrimmed(s);
    var t := TrimStart(s);
    if t != [] { TrimEndKeepsFirst(t); }
  }

  lemma {:induction false} TrimEndKeepsFirst(t: string)
    requires t != [] && !IsWhitespace(t[0])
    ensures TrimEnd(t) != [] && TrimEnd(t)[0] == t[0]
  {
    if IsWhitespace(t[|t| - 1]) { TrimEndKeepsFirst(t[..|t| - 1]); }
  }

  lemma {:induction false} TrimStartBeforeSpace(s: string, c: char)
    requires IsWhitespace(c)
    ensures TrimStart(s + [c]) == if AllWhitespace(s) then [] else TrimStart(s) + [c]
  {
    if s == [] {
      assert s + [c] == [c] && [c][1..] == [];
    } else {
      assert (s + [c])[1..] == s[1..] + [c];
      assert AllWhitespace(s) <==> IsWhitespace(s[0]) && AllWhitespace(s[1..]) by {
        assert forall i :: 1 <= i < |s| ==> s[i] == s[1..][i - 1];
      }
      if IsWhitespace(s[0]) { TrimStartBeforeSpace(s[1..], c); }
    }
  }

  lemma TrimStartStep(s: string, c: char)
    requires IsWhitespace(c)
    ensures TrimStart([c] + s) == TrimStart(s)
  {
    hide IsWhitespace;
    assert ([c] + s)[1..] == s;
  }

  lemma TrimEndStep(s: string, c: char)
    requires IsWhitespace(c)
    ensures TrimEnd(s + [c]) == TrimEnd(s)
  {
    hide IsWhitespace;
    assert (s + [c])[..|s|] == s;
  }

  /** White space in front or behind makes no difference. */
  lemma TrimIgnoresMargin(s: string, c: char)
    requires IsWhitespace(c)
    ensures Trim([c] + s) == Trim(s) && Trim(s + [c]) == Trim(s)
  {
    hide IsWhitespace, AllWhitespace, TrimStart, TrimEnd;
    TrimStartStep(s, c);
    TrimStartBeforeSpace(s, c);
    TrimStartOfBlank(s);
    TrimEndStep(TrimStart(s), c);
  }

  // ----- Joined lines -----

  /** Nonempty joined lines are read back, when the last one is not empty. */
  lemma {:induction false} LinesOfJoined(lines: seq<string>)
    requires lines != [] && lines[|lines| - 1] != []
    requires forall i :: 0 <= i < |lines| ==> IsLine(lines[i])
    ensures Lines(Join(lines, "\n")) == lines
  {
    if |lines| > 1 {
      LinesOfJoined(lines[1..]);
      assert Join(lines, "\n") == lines[0] + "\n" + Join(lines[1..], "\n");
      LineFirst(lines[0], Join(lines[1..], "\n"));
    }
  }

  lemma {:induction false} JoinLast(pieces: seq<string>, last: string, separator: string)
    requires pieces != []
    ensures Join(pieces + [last], separator) == Join(pieces, separator) + separator + last
  {
    if |pieces| == 1 {
      assert (pieces + [last])[1..] == [last];
    } else {
      JoinLast(pieces[1..], last, separator);
      assert (pieces + [last])[1..] == pieces[1..] + [last];
      assert Join(pieces + [last], separator)
          == pieces[0] + separator + (Join(pieces[1..], separator) + separator + last);
    }
  }

  lemma {:induction false} JoinHasNo(pieces: seq<string>, separator: string, c: char)
    requires NoChar(separator, c) && forall i :: 0 <= i < |pieces| ==> NoChar(pieces[i], c)
    ensures NoChar(Join(pieces, separator), c)
  {
    if |pieces| > 1 {
      JoinHasNo(pieces[1..], separator, c);
    }
  }

  /** `to_ascii_lowercase` of one character. */
  function LowerChar(c: char): char {
    if 'A' <= c <= 'Z' then 'a' + (c - 'A') else c
  }

  function ToAsciiLower(s: string): string {
    seq(|s|, i requires 0 <= i < |s| => LowerChar(s[i]))
  }
}
