/**
  Rewriting `known_hosts` when the user accepts a changed host key. Parsing a base64 key and
  matching a host name against the first field of a line belong to a library; both are
  parameters here.
 */
module KnownHosts {
  import opened Wrappers
  import opened Text
  import opened Numbers

  datatype PublicKey = PublicKey(algorithm: string, base64: string)

  type KeyParser = string -> Option<PublicKey>
  /** Whether a host is named by the first field of a line. */
  type HostMatcher = (string, string) -> bool
  /** Line number to key, as the look-up returns it for one host. */
  type KeysByLine = map<nat, PublicKey>

  predicate IsComment(line: string) {
    line != [] && line[0] == '#'
  }

  /** `line.split(' ').nth(n)`. */
  function Field(line: string, n: nat): Option<string>
    decreases n
  {
    var i := IndexOf(line, ' ');
    if n == 0 then Some(line[..i])
    else if i == |line| then None
    else Field(line[i + 1..], n - 1)
  }

  function KeyOnLine(line: string, parse: KeyParser): Option<PublicKey> {
    var encoded := Field(line, 2);
    if encoded.None? then None else parse(encoded.value)
  }

  /** The number of line `i`: comments are not counted, the first other line is 1. */
  function LogicalNumber(lines: seq<string>, i: nat): nat
    requires i <= |lines|
  {
    if i == 0 then 1 else LogicalNumber(lines, i - 1) + (if IsComment(lines[i - 1]) then 0 else 1)
  }

  /** Line `i` is in the match set: its number is, and the key on it is the one found there. */
  predicate IsDropped(lines: seq<string>, i: nat, keys: KeysByLine, parse: KeyParser)
    requires i < |lines|
  {
    && !IsComment(lines[i])
    && LogicalNumber(lines, i) in keys
    && KeyOnLine(lines[i], parse) == Some(keys[LogicalNumber(lines, i)])
  }

  /** The first `k` lines without the dropped ones, in order. */
  function KeptLines(lines: seq<string>, k: nat, keys: KeysByLine, parse: KeyParser): seq<string>
    requires k <= |lines|
  {
    if k == 0 then []
    else if IsDropped(lines, k - 1, keys, parse) then KeptLines(lines, k - 1, keys, parse)
    else KeptLines(lines, k - 1, keys, parse) + [lines[k - 1]]
  }

  /** The stateful filter: one counter over all lines, stepped on every line that is not a comment. */
  method FilterLines(lines: seq<string>, keys: KeysByLine, parse: KeyParser) returns (kept: seq<string>)
    ensures kept == KeptLines(lines, |lines|, keys, parse)
  {
    kept := [];
    var logicalLine := 1;
    for i := 0 to |lines|
      invariant logicalLine == LogicalNumber(lines, i)
      invariant kept == KeptLines(lines, i, keys, parse)
    {
      var line := lines[i];
      if line != [] && line[0] == '#' {
        kept := kept + [line];
      } else {
        var remove := false;
        if logicalLine in keys {
          var encoded := Field(line, 2);
          if encoded.Some? {
            remove := parse(encoded.value) == Some(keys[logicalLine]);
          }
        }
        logicalLine := logicalLine + 1;
        if !remove {
          kept := kept + [line];
        }
      }
    }
  }

  /** `host`, or `[host]:port` off the standard port. */
  function HostField(host: string, port: nat): string {
    if port == 22 then host else "[" + host + "]:" + ToDecimal(port)
  }

  function EntryLine(hostField: string, key: PublicKey): string {
    hostField + " " + key.algorithm + " " + key.base64
  }

  /** The text written back for these kept lines and this new entry. */
  function RewrittenText(kept: seq<string>, entry: string): string {
    var joined := Join(kept, "\n");
    (if joined == [] then [] else joined + "\n") + entry + "\n"
  }

  /** What replacing the keys found for a host makes of the file. */
  function Rewritten(content: string, keys: KeysByLine, parse: KeyParser, host: string, port: nat, key: PublicKey)
    : string
  {
    RewrittenText(KeptLines(Lines(content), |Lines(content)|, keys, parse), EntryLine(HostField(host, port), key))
  }

  lemma EntryInPieces(text: string, field: string, key: PublicKey)
    ensures text + field + " " + key.algorithm + " " + key.base64 + "\n" == text + EntryLine(field, key) + "\n"
  {
  }

  method ReplaceKnownHostKeys(content: string, keys: KeysByLine, parse: KeyParser, host: string, port: nat,
                              key: PublicKey)
    returns (text: string)
    ensures text == Rewritten(content, keys, parse, host, port, key)
  {
    hide EntryLine, KeptLines, Lines, Join, ToDecimal;
    var kept := FilterLines(Lines(content), keys, parse);
    text := Join(kept, "\n");
    if text != [] {
      text := text + "\n";
    }
    EntryInPieces(text, HostField(host, port), key);
    text := text + if port == 22 then host else "[" + host + "]:" + ToDecimal(port);
    text := text + " ";
    text := text + key.algorithm;
    text := text + " ";
    text := text + key.base64;
    text := text + "\n";
  }

  datatype HostCheck = Known | Unknown | Changed | CheckFailed

  datatype Approval = Approval(fingerprint: string, replace: bool)

  datatype Verdict = Accepted | Challenged | CheckError

  /** `check` is the library's comparison with the stored keys, `keys` its look-up and `learned` the text it writes
      for a host not known before. The file is written only if the user approved this very fingerprint, as a new
      key for an unknown host or as a replacement for a changed one. */
  method VerifyServerKey(content: string, check: HostCheck, keys: KeysByLine, parse: KeyParser, learned: string,
                         host: string, port: nat, key: PublicKey, fingerprint: string, approval: Option<Approval>)
    returns (verdict: Verdict, text: string)
    ensures text != content ==> approval == Some(Approval(fingerprint, check.Changed?))
    ensures verdict == Accepted
       <==> check.Known? || (!check.CheckFailed? && approval == Some(Approval(fingerprint, check.Changed?)))
    ensures verdict == Accepted && check.Changed? ==> text == Rewritten(content, keys, parse, host, port, key)
    ensures verdict == Accepted && check.Unknown? ==> text == learned
    ensures verdict == CheckError <==> check.CheckFailed?
  {
    if check.Known? { return Accepted, content; }
    if check.CheckFailed? { return CheckError, content; }
    var isChanged := check.Changed?;
    if approval.Some? && approval.value.fingerprint == fingerprint && approval.value.replace == isChanged {
      if isChanged {
        text := ReplaceKnownHostKeys(content, keys, parse, host, port, key);
      } else {
        text := learned;
      }
      return Accepted, text;
    }
    return Challenged, content;
  }

  // ----- What is kept and what is dropped -----

  /** Every comment and every line outside the match set survives, behind the kept lines that stood before it. */
  lemma {:induction false} KeptLineSurvives(lines: seq<string>, k: nat, i: nat, keys: KeysByLine, parse: KeyParser)
    requires i < k <= |lines| && !IsDropped(lines, i, keys, parse)
    ensures |KeptLines(lines, i, keys, parse)| < |KeptLines(lines, k, keys, parse)|
    ensures KeptLines(lines, k, keys, parse)[|KeptLines(lines, i, keys, parse)|] == lines[i]
  {
    if i < k - 1 {
      KeptLineSurvives(lines, k - 1, i, keys, parse);
    }
  }

  /** And nothing else does: every kept line is such a line, in its place. */
  lemma {:induction false} KeptLineIsUndropped(lines: seq<string>, k: nat, j: nat, keys: KeysByLine, parse: KeyParser)
    returns (i: nat)
    requires k <= |lines| && j < |KeptLines(lines, k, keys, parse)|
    ensures i < k && !IsDropped(lines, i, keys, parse)
    ensures |KeptLines(lines, i, keys, parse)| == j && KeptLines(lines, k, keys, parse)[j] == lines[i]
  {
    if j < |KeptLines(lines, k - 1, keys, parse)| {
      i := KeptLineIsUndropped(lines, k - 1, j, keys, parse);
    } else {
      i := k - 1;
    }
  }

  lemma RewrittenIsTerminated(kept: seq<string>, entry: string)
    ensures RewrittenText(kept, entry) == Terminated((if kept == [""] then [] else kept) + [entry])
  {
    assert Terminated([entry]) == entry + "\n" + [];
    if kept == [] || kept == [""] {
      assert [] + [entry] == [entry];
    } else {
      JoinOfLines(kept);
      JoinThenLineFeed(kept);
      TerminatedAppends(kept, [entry]);
    }
  }

  lemma StripAllAppends(lines: seq<string>, last: string)
    requires IsLine(last)
    ensures StripAll(lines + [last]) == StripAll(lines) + [last]
  {
  }

  /** Reading the rewritten text back gives the kept lines, each without a carriage return at its end, and then the new
      entry; a single blank line, if that is all that was kept, is lost. */
  lemma RewrittenTextLines(kept: seq<string>, entry: string)
    requires IsLine(entry) && NoLineFeeds(kept)
    ensures Lines(RewrittenText(kept, entry)) == (if kept == [""] then [] else StripAll(kept)) + [entry]
  {
    hide Lines, Terminated, RewrittenText, StripAll;
    RewrittenIsTerminated(kept, entry);
    var read := if kept == [""] then [] else kept;
    LinesOfTerminatedStrips(read + [entry]);
    StripAllAppends(read, entry);
  }

  /** So it reads back exactly when the kept lines are not a single blank one and none ends in a carriage return. */
  lemma RewrittenTextReadsBack(kept: seq<string>, entry: string)
    requires IsLine(entry) && NoLineFeeds(kept)
    ensures Lines(RewrittenText(kept, entry)) == kept + [entry]
       <==> kept != [""] && forall i :: 0 <= i < |kept| ==> IsLine(kept[i])
  {
    RewrittenTextLines(kept, entry);
    if kept != [""] {
      var read := StripAll(kept) + [entry];
      if forall i :: 0 <= i < |kept| ==> IsLine(kept[i]) {
        assert StripAll(kept) == kept;
      } else {
        var i :| 0 <= i < |kept| && !IsLine(kept[i]);
        assert read[i] != (kept + [entry])[i];
      }
    }
  }

  lemma JoinOfLines(kept: seq<string>)
    requires kept != []
    ensures Join(kept, "\n") == [] <==> kept == [""]
  {
  }

  // ----- What the host table means afterwards -----

  /** The first `k` lines that are not dropped. */
  ghost function Select(lines: seq<string>, k: nat, dropped: nat -> bool): seq<string>
    requires k <= |lines|
  {
    if k == 0 then []
    else if dropped(k - 1) then Select(lines, k - 1, dropped)
    else Select(lines, k - 1, dropped) + [lines[k - 1]]
  }

  /** What `read` finds on the lines, in order. */
  ghost function Collect(lines: seq<string>, read: string -> seq<PublicKey>): seq<PublicKey> {
    if lines == [] then []
    else Collect(lines[..|lines| - 1], read) + read(lines[|lines| - 1])
  }

  /** The keys a host has in a file with these lines, in order. */
  ghost function KeysOf(lines: seq<string>, host: string, parse: KeyParser, matches: HostMatcher): seq<PublicKey> {
    Collect(lines, line => KeyFor(line, host, parse, matches))
  }

  /** What the library reads off a line for a host: the key in the third field, unless the line is a comment. */
  ghost function KeyFor(line: string, host: string, parse: KeyParser, matches: HostMatcher): seq<PublicKey> {
    if (line != [] && line[0] == '#') || !Names(line, host, matches) || Field(line, 2).None? then []
    else match parse(Field(line, 2).value) case Some(key) => [key] case None => []
  }

  ghost predicate Names(line: string, host: string, matches: HostMatcher) {
    Field(line, 0).Some? && matches(host, Field(line, 0).value)
  }

  /** The library's number of line `i`: one more than there are lines before it that are no comments. */
  ghost function LibraryNumber(lines: seq<string>, i: nat): nat
    requires i <= |lines|
  {
    1 + |set j | 0 <= j < i && !(lines[j] != [] && lines[j][0] == '#')|
  }

  lemma {:induction false} NumbersAgree(lines: seq<string>, i: nat)
    requires i <= |lines|
    ensures LogicalNumber(lines, i) == LibraryNumber(lines, i)
  {
    if i > 0 {
      NumbersAgree(lines, i - 1);
      var before := set j | 0 <= j < i - 1 && !(lines[j] != [] && lines[j][0] == '#');
      var now := set j | 0 <= j < i && !(lines[j] != [] && lines[j][0] == '#');
      assert now == if lines[i - 1] != [] && lines[i - 1][0] == '#' then before else before + {i - 1};
    }
  }

  /** `keys` is what the look-up finds for `host`: the number and key of each of its lines. */
  ghost predicate IsLookup(keys: KeysByLine, lines: seq<string>, host: string, parse: KeyParser, matches: HostMatcher) {
    && (forall i :: 0 <= i < |lines| && KeyFor(lines[i], host, parse, matches) != []
          ==> LibraryNumber(lines, i) in keys
              && KeyFor(lines[i], host, parse, matches) == [keys[LibraryNumber(lines, i)]])
    && (forall n :: n in keys ==> IsFoundAt(n, keys[n], lines, host, parse, matches))
  }

  ghost predicate IsFoundAt(n: nat, key: PublicKey, lines: seq<string>, host: string, parse: KeyParser,
                            matches: HostMatcher) {
    exists i :: 0 <= i < |lines| && LibraryNumber(lines, i) == n && KeyFor(lines[i], host, parse, matches) == [key]
  }

  lemma CollectAppend(lines: seq<string>, line: string, read: string -> seq<PublicKey>)
    ensures Collect(lines + [line], read) == Collect(lines, read) + read(line)
  {
    assert (lines + [line])[..|lines|] == lines;
  }

  lemma {:induction false} KeptIsSelect(lines: seq<string>, k: nat, keys: KeysByLine, parse: KeyParser,
                                        dropped: nat -> bool)
    requires k <= |lines|
    requires forall i :: 0 <= i < |lines| ==> (dropped(i) <==> IsDropped(lines, i, keys, parse))
    ensures KeptLines(lines, k, keys, parse) == Select(lines, k, dropped)
  {
    if k > 0 {
      KeptIsSelect(lines, k - 1, keys, parse, dropped);
    }
  }

  /** If nothing is read off dropped lines, dropping them changes nothing. */
  lemma {:induction false} UndroppedStay(lines: seq<string>, k: nat, dropped: nat -> bool,
                                         read: string -> seq<PublicKey>)
    requires k <= |lines|
    requires forall i :: 0 <= i < k && dropped(i) ==> read(lines[i]) == []
    ensures Collect(Select(lines, k, dropped), read) == Collect(lines[..k], read)
  {
    if k > 0 {
      UndroppedStay(lines, k - 1, dropped, read);
      CollectAppend(lines[..k - 1], lines[k - 1], read);
      assert lines[..k] == lines[..k - 1] + [lines[k - 1]];
      if !dropped(k - 1) {
        CollectAppend(Select(lines, k - 1, dropped), lines[k - 1], read);
      }
    } else {
      assert lines[..k] == [];
    }
  }

  /** Of the first `k` lines, every one on which something is read is dropped. */
  ghost predicate AllDropped(lines: seq<string>, k: nat, dropped: nat -> bool, read: string -> seq<PublicKey>)
    requires k <= |lines|
  {
    forall i :: 0 <= i < k && read(lines[i]) != [] ==> dropped(i)
  }

  lemma OneLineMore(lines: seq<string>, k: nat, dropped: nat -> bool, read: string -> seq<PublicKey>)
    requires 0 < k <= |lines|
    ensures AllDropped(lines, k, dropped, read)
       <==> AllDropped(lines, k - 1, dropped, read) && (read(lines[k - 1]) != [] ==> dropped(k - 1))
  {
  }

  lemma NoLines(lines: seq<string>, dropped: nat -> bool, read: string -> seq<PublicKey>)
    ensures AllDropped(lines, 0, dropped, read) && Collect(Select(lines, 0, dropped), read) == []
  {
  }

  /** Nothing is left exactly if every line on which something is read is dropped. */
  lemma {:induction false} DroppedGo(lines: seq<string>, k: nat, dropped: nat -> bool, read: string -> seq<PublicKey>)
    requires k <= |lines|
    ensures Collect(Select(lines, k, dropped), read) == [] <==> AllDropped(lines, k, dropped, read)
  {
    hide AllDropped, Collect;
    if k > 0 {
      DroppedGo(lines, k - 1, dropped, read);
      OneLineMore(lines, k, dropped, read);
      SelectedOneMore(lines, k, dropped, read);
    } else {
      NoLines(lines, dropped, read);
    }
  }

  lemma SelectedOneMore(lines: seq<string>, k: nat, dropped: nat -> bool, read: string -> seq<PublicKey>)
    requires 0 < k <= |lines|
    ensures Collect(Select(lines, k, dropped), read)
         == if dropped(k - 1) then Collect(Select(lines, k - 1, dropped), read)
            else Collect(Select(lines, k - 1, dropped), read) + read(lines[k - 1])
  {
    if !dropped(k - 1) { CollectAppend(Select(lines, k - 1, dropped), lines[k - 1], read); }
  }

  /** What is read off a line once it was written back. */
  ghost function Restored(read: string -> seq<PublicKey>): string -> seq<PublicKey> {
    line => read(StripCarriageReturn(line))
  }

  lemma {:induction false} CollectStripped(lines: seq<string>, read: string -> seq<PublicKey>)
    ensures Collect(StripAll(lines), read) == Collect(lines, Restored(read))
  {
    if lines != [] {
      var first, last := lines[..|lines| - 1], lines[|lines| - 1];
      CollectStripped(first, read);
      CollectAppend(StripAll(first), StripCarriageReturn(last), read);
      assert StripAll(lines) == StripAll(first) + [StripCarriageReturn(last)];
    }
  }

  /** The rewritten file, read again. */
  lemma CollectRewritten(kept: seq<string>, entry: string, read: string -> seq<PublicKey>)
    requires IsLine(entry) && NoLineFeeds(kept) && read("") == []
    ensures Collect(Lines(RewrittenText(kept, entry)), read) == Collect(kept, Restored(read)) + read(entry)
  {
    RewrittenTextLines(kept, entry);
    CollectStripped(kept, read);
    if kept == [""] {
      assert kept[..0] == [] && Collect(kept, Restored(read)) == [];
      CollectAppend([], entry, read);
    } else {
      CollectAppend(StripAll(kept), entry, read);
    }
  }

  lemma {:induction false} KeptHaveNoLineFeeds(lines: seq<string>, k: nat, keys: KeysByLine, parse: KeyParser)
    requires k <= |lines| && NoLineFeeds(lines)
    ensures NoLineFeeds(KeptLines(lines, k, keys, parse))
  {
    if k > 0 {
      KeptHaveNoLineFeeds(lines, k - 1, keys, parse);
    }
  }

  /** What is read off the rewritten file for a host. */
  lemma KeysAfterRewrite(content: string, keys: KeysByLine, entry: string, host: string, parse: KeyParser,
                         matches: HostMatcher, dropped: nat -> bool)
    requires IsLine(entry)
    requires forall i :: 0 <= i < |Lines(content)| ==> (dropped(i) <==> IsDropped(Lines(content), i, keys, parse))
    ensures var lines, read := Lines(content), (line: string) => KeyFor(line, host, parse, matches);
            KeysOf(Lines(RewrittenText(KeptLines(lines, |lines|, keys, parse), entry)), host, parse, matches)
            == Collect(Select(lines, |lines|, dropped), Restored(read)) + read(entry)
  {
    var lines, read := Lines(content), (line: string) => KeyFor(line, host, parse, matches);
    LinesHaveNoLineFeeds(content);
    KeptHaveNoLineFeeds(lines, |lines|, keys, parse);
    KeptIsSelect(lines, |lines|, keys, parse, dropped);
    CollectRewritten(KeptLines(lines, |lines|, keys, parse), entry, read);
  }

  /** In the rewritten file the host has exactly the new key, if and only if no line that was kept turns into a line of
      this host by losing a carriage return at its end; so always in a file without such carriage returns. */
  lemma HostHasExactlyTheNewKey(content: string, keys: KeysByLine, host: string, entry: string, key: PublicKey,
                                parse: KeyParser, matches: HostMatcher)
    requires IsLookup(keys, Lines(content), host, parse, matches)
    requires IsLine(entry) && KeyFor(entry, host, parse, matches) == [key]
    ensures var lines := Lines(content);
            KeysOf(Lines(RewrittenText(KeptLines(lines, |lines|, keys, parse), entry)), host, parse, matches) == [key]
            <==> forall i :: 0 <= i < |lines| && !IsDropped(lines, i, keys, parse) && !IsLine(lines[i])
                             ==> KeyFor(StripCarriageReturn(lines[i]), host, parse, matches) == []
  {
    var lines, read := Lines(content), (line: string) => KeyFor(line, host, parse, matches);
    var dropped := (i: nat) => i < |lines| && IsDropped(lines, i, keys, parse);
    KeysAfterRewrite(content, keys, entry, host, parse, matches, dropped);
    LinesHaveNoLineFeeds(content);
    FoundLinesAreDropped(lines, keys, host, parse, matches);
    DroppedGo(lines, |lines|, dropped, Restored(read));
  }

  lemma FoundLinesAreDropped(lines: seq<string>, keys: KeysByLine, host: string, parse: KeyParser, matches: HostMatcher)
    requires IsLookup(keys, lines, host, parse, matches)
    ensures forall i :: 0 <= i < |lines| && KeyFor(lines[i], host, parse, matches) != []
                        ==> IsDropped(lines, i, keys, parse)
  {
    hide LibraryNumber, LogicalNumber;
    forall i | 0 <= i < |lines| && KeyFor(lines[i], host, parse, matches) != []
      ensures IsDropped(lines, i, keys, parse)
    {
      NumbersAgree(lines, i);
    }
  }

  /** A host that the new entry does not name and that shares no dropped line is not affected, as long as its lines and
      those that lose a carriage return at their end read the same without it. */
  lemma OtherHostsAreUnaffected(content: string, keys: KeysByLine, other: string, entry: string,
                                parse: KeyParser, matches: HostMatcher)
    requires IsLine(entry) && KeyFor(entry, other, parse, matches) == []
    requires forall i {:trigger IsDropped(Lines(content), i, keys, parse)} ::
               0 <= i < |Lines(content)| && IsDropped(Lines(content), i, keys, parse)
               ==> KeyFor(Lines(content)[i], other, parse, matches) == []
    requires forall i :: 0 <= i < |Lines(content)| && !IsLine(Lines(content)[i])
                         ==> KeyFor(StripCarriageReturn(Lines(content)[i]), other, parse, matches)
                             == KeyFor(Lines(content)[i], other, parse, matches)
    ensures var lines := Lines(content);
            KeysOf(Lines(RewrittenText(KeptLines(lines, |lines|, keys, parse), entry)), other, parse, matches)
            == KeysOf(lines, other, parse, matches)
  {
    var lines, read := Lines(content), (line: string) => KeyFor(line, other, parse, matches);
    var dropped := (i: nat) => i < |lines| && IsDropped(lines, i, keys, parse);
    KeysAfterRewrite(content, keys, entry, other, parse, matches, dropped);
    LinesHaveNoLineFeeds(content);
    UndroppedStay(lines, |lines|, dropped, Restored(read));
    assert lines[..|lines|] == lines;
    CollectSame(lines, Restored(read), read);
  }

  lemma {:induction false} CollectSame(lines: seq<string>, one: string -> seq<PublicKey>,
                                       other: string -> seq<PublicKey>)
    requires forall i :: 0 <= i < |lines| ==> one(lines[i]) == other(lines[i])
    ensures Collect(lines, one) == Collect(lines, other)
  {
    if lines != [] {
      CollectSame(lines[..|lines| - 1], one, other);
    }
  }

  // ----- The written entry is found again -----

  /** On the standard port the host is named as it is, and on any other one in brackets and with the port. Two hosts, or
      two ports of a host, never share an entry, as long as no host name begins with a bracket. */
  lemma HostFieldNamesOneHost(host: string, port: nat, other: string, otherPort: nat)
    requires host != [] && other != [] && host[0] != '[' && other[0] != '[' && NoChar(host, ']') && NoChar(other, ']')
    ensures HostField(host, 22) == host
    ensures port != 22 ==> HostField(host, port) == "[" + host + "]:" + ToDecimal(port)
    ensures HostField(host, port) == HostField(other, otherPort) ==> host == other && port == otherPort
  {
    hide ToDecimal;
    if port != 22 && otherPort != 22 && HostField(host, port) == HostField(other, otherPort) {
      var tail, otherTail := [':'] + ToDecimal(port), [':'] + ToDecimal(otherPort);
      assert HostField(host, port)[1..] == host + [']'] + tail;
      assert HostField(other, otherPort)[1..] == other + [']'] + otherTail;
      FirstMark(host, tail, other, otherTail, ']');
      assert ToDecimal(port) == tail[1..] && ToDecimal(otherPort) == otherTail[1..];
      DecimalDigits(port);
      DecimalDigits(otherPort);
    }
  }

  lemma FirstMark(a: string, rest: string, b: string, other: string, c: char)
    requires NoChar(a, c) && NoChar(b, c) && a + [c] + rest == b + [c] + other
    ensures a == b && rest == other
  {
    IndexOfFirst(a, c, rest);
    IndexOfFirst(b, c, other);
    var s := a + [c] + rest;
    assert a == s[..|a|] && b == s[..|b|] && rest == s[|a| + 1..] && other == s[|b| + 1..];
  }

  /** The entry's fields read back as the host field and the key text. */
  lemma EntryFields(hostField: string, key: PublicKey)
    requires NoChar(hostField, ' ') && NoChar(key.algorithm, ' ') && NoChar(key.base64, ' ')
    ensures Field(EntryLine(hostField, key), 0) == Some(hostField)
    ensures Field(EntryLine(hostField, key), 2) == Some(key.base64)
  {
    var rest := EntryShape(hostField, key);
    FieldSplit(hostField, rest, 0);
    FieldSplit(hostField, rest, 2);
    FieldSplit(key.algorithm, key.base64, 1);
    WholeField(key.base64);
  }

  lemma EntryShape(hostField: string, key: PublicKey) returns (rest: string)
    ensures rest == key.algorithm + " " + key.base64
    ensures EntryLine(hostField, key) == hostField + " " + rest
  {
    rest := key.algorithm + " " + key.base64;
  }

  lemma WholeField(s: string)
    requires NoChar(s, ' ')
    ensures Field(s, 0) == Some(s)
  {
    NoIndex(s, ' ');
    assert s[..|s|] == s;
  }

  lemma FieldSplit(first: string, rest: string, n: nat)
    requires NoChar(first, ' ')
    ensures Field(first + " " + rest, n) == if n == 0 then Some(first) else Field(rest, n - 1)
  {
    var line := first + " " + rest;
    assert line == first + [' '] + rest;
    IndexOfFirst(first, ' ', rest);
    assert line[..|first|] == first && line[|first| + 1..] == rest;
  }

  lemma {:induction false} NoIndex(s: string, c: char)
    requires NoChar(s, c)
    ensures IndexOf(s, c) == |s|
  {
    if s != [] {
      NoIndex(s[1..], c);
    }
  }
}
