/** The shell commands that are built from paths, and what a POSIX shell makes of them. */
module ShellCommands {
  import opened Wrappers
  import opened Text
  import opened ShellLexer

  /** `replace('\'', "'\\''")`. */
  function EscapeQuotes(s: string): string {
    if s == [] then []
    else (if s[0] == '\'' then ['\'', '\\', '\'', '\''] else [s[0]]) + EscapeQuotes(s[1..])
  }

  /** `shell_quote`. */
  function ShellQuote(s: string): string {
    ['\''] + EscapeQuotes(s) + ['\'']
  }

  // ----- One step of the lexer -----

  lemma AtQuote(rest: string, word: Option<Word>)
    ensures Tokens(['\''] + rest, word, Unquoted) == Tokens(rest, Some(Started(word)), Single)
    ensures Tokens(['\''] + rest, word, Single) == Tokens(rest, word, Unquoted)
  {
    assert (['\''] + rest)[1..] == rest;
  }

  lemma AtQuotedChar(c: char, rest: string, word: Option<Word>)
    requires c != '\''
    ensures Tokens([c] + rest, word, Single) == Tokens(rest, Extend(word, c, true), Single)
  {
    assert ([c] + rest)[1..] == rest;
  }

  lemma AtEscape(c: char, rest: string, word: Option<Word>)
    requires c != '\n'
    ensures Tokens(['\\', c] + rest, word, Unquoted) == Tokens(rest, Extend(word, c, true), Unquoted)
  {
    assert (['\\', c] + rest)[2..] == rest;
  }

  /** A character that stands for itself in the middle of a word. */
  predicate IsOrdinary(c: char) {
    c !in "'\"\\ \t&#" && !IsUnsupported(c)
  }

  lemma AtOrdinary(c: char, rest: string, word: Option<Word>)
    requires IsOrdinary(c)
    ensures Tokens([c] + rest, word, Unquoted) == Tokens(rest, Extend(word, c, false), Unquoted)
  {
    assert ([c] + rest)[1..] == rest;
  }

  lemma AtSpace(rest: string, word: Option<Word>)
    ensures Tokens([' '] + rest, word, Unquoted) == Finish(word, Tokens(rest, None, Unquoted))
  {
    assert ([' '] + rest)[1..] == rest;
  }

  lemma AtAnd(rest: string, word: Option<Word>)
    ensures Tokens(['&', '&'] + rest, word, Unquoted) == Finish(word, Before([And], Tokens(rest, None, Unquoted)))
  {
    assert (['&', '&'] + rest)[2..] == rest;
  }

  lemma AtEnd(word: Option<Word>)
    ensures Tokens([], word, Unquoted) == Some(if word.Some? then [Token.Word(word.value)] else [])
  {
    if word.Some? { assert [Token.Word(word.value)] + [] == [Token.Word(word.value)]; }
  }

  lemma BeforeTwice(a: seq<Token>, b: seq<Token>, rest: Option<seq<Token>>)
    ensures Before(a, Before(b, rest)) == Before(a + b, rest)
  {
    if rest.Some? { assert a + (b + rest.value) == a + b + rest.value; }
  }

  // ----- Quoting -----

  /** An escaped quote closes the quoting, adds itself and opens the quoting again. */
  lemma QuoteInside(tail: string, word: Word)
    ensures Tokens(['\'', '\\', '\'', '\''] + tail, Some(word), Single)
         == Tokens(tail, Some(word + [Char('\'', true)]), Single)
  {
    hide Tokens;
    var reopened := ['\''] + tail;
    var escaped := ['\\', '\''] + reopened;
    assert ['\'', '\\', '\'', '\''] + tail == ['\''] + escaped;
    AtQuote(escaped, Some(word));
    AtEscape('\'', reopened, Some(word));
    AtQuote(tail, Some(word + [Char('\'', true)]));
  }

  lemma {:induction false} QuotedRun(s: string, rest: string, word: Word)
    ensures Tokens(EscapeQuotes(s) + (['\''] + rest), Some(word), Single)
         == Tokens(rest, Some(word + Quoted(s)), Unquoted)
  {
    hide Tokens;
    if s == [] {
      assert EscapeQuotes(s) + (['\''] + rest) == ['\''] + rest && word + Quoted(s) == word;
      AtQuote(rest, Some(word));
    } else {
      var tail := EscapeQuotes(s[1..]) + (['\''] + rest);
      var next := word + [Char(s[0], true)];
      QuotedRun(s[1..], rest, next);
      assert next + Quoted(s[1..]) == word + Quoted(s);
      if s[0] == '\'' {
        assert EscapeQuotes(s) + (['\''] + rest) == ['\'', '\\', '\'', '\''] + tail;
        QuoteInside(tail, word);
      } else {
        assert EscapeQuotes(s) + (['\''] + rest) == [s[0]] + tail;
        AtQuotedChar(s[0], tail, Some(word));
      }
    }
  }

  /** Wherever it stands, a quoted string adds exactly its own characters, all quoted, to the word being read. */
  lemma QuoteIsLiteral(s: string, rest: string, word: Option<Word>)
    ensures Tokens(ShellQuote(s) + rest, word, Unquoted) == Tokens(rest, Some(Started(word) + Quoted(s)), Unquoted)
  {
    hide Tokens, EscapeQuotes;
    assert ShellQuote(s) + rest == ['\''] + (EscapeQuotes(s) + (['\''] + rest));
    AtQuote(EscapeQuotes(s) + (['\''] + rest), word);
    QuotedRun(s, rest, Started(word));
  }

  /** A quoted string is one word, and the argument it becomes is the string. */
  lemma ShellQuoteIsOneWord(s: string, homes: Homes)
    ensures Lex(ShellQuote(s)) == Some([Token.Word(Quoted(s))])
    ensures Expand(Quoted(s), homes) == Some(s)
  {
    hide Tokens, ShellQuote;
    QuoteIsLiteral(s, [], None);
    assert ShellQuote(s) + [] == ShellQuote(s);
    AtEnd(Some(Quoted(s)));
    assert [] + Quoted(s) == Quoted(s) && Chars(Quoted(s)) == s;
  }

  lemma {:induction false} OrdinaryRun(s: string, rest: string, word: Option<Word>)
    requires s != [] && forall i :: 0 <= i < |s| ==> IsOrdinary(s[i])
    ensures Tokens(s + rest, word, Unquoted) == Tokens(rest, Some(Started(word) + Plain(s)), Unquoted)
  {
    hide Tokens, IsOrdinary;
    assert s + rest == [s[0]] + (s[1..] + rest);
    AtOrdinary(s[0], s[1..] + rest, word);
    var next := Started(word) + [Char(s[0], false)];
    assert Started(word) + Plain(s) == next + Plain(s[1..]);
    if |s| > 1 {
      OrdinaryRun(s[1..], rest, Some(next));
    } else {
      assert s[1..] + rest == rest && next + Plain(s[1..]) == next;
    }
  }

  /** An ordinary word and the space after it. */
  lemma WordAndSpace(s: string, rest: string)
    requires s != [] && forall i :: 0 <= i < |s| ==> IsOrdinary(s[i])
    ensures Tokens(s + ([' '] + rest), None, Unquoted) == Before([Token.Word(Plain(s))], Tokens(rest, None, Unquoted))
  {
    hide Tokens, IsOrdinary;
    OrdinaryRun(s, [' '] + rest, None);
    assert [] + Plain(s) == Plain(s);
    AtSpace(rest, Some(Plain(s)));
  }

  /** A quoted word at the end or before a space. */
  lemma QuotedAndSpace(s: string, rest: string)
    ensures Tokens(ShellQuote(s) + ([' '] + rest), None, Unquoted)
         == Before([Token.Word(Quoted(s))], Tokens(rest, None, Unquoted))
    ensures Tokens(ShellQuote(s), None, Unquoted) == Some([Token.Word(Quoted(s))])
  {
    hide Tokens, ShellQuote;
    assert [] + Quoted(s) == Quoted(s);
    QuoteIsLiteral(s, [' '] + rest, None);
    AtSpace(rest, Some(Quoted(s)));
    QuoteIsLiteral(s, [], None);
    assert ShellQuote(s) + [] == ShellQuote(s);
    AtEnd(Some(Quoted(s)));
  }

  // ----- rm -----

  function QuoteAll(paths: seq<string>): seq<string> {
    seq(|paths|, i requires 0 <= i < |paths| => ShellQuote(paths[i]))
  }

  function RemoveCommand(paths: seq<string>): string {
    "rm -rf " + Join(QuoteAll(paths), " ")
  }

  function QuotedWords(paths: seq<string>): seq<Token> {
    seq(|paths|, i requires 0 <= i < |paths| => Token.Word(Quoted(paths[i])))
  }

  lemma {:induction false} PathsAreWords(paths: seq<string>)
    ensures Tokens(Join(QuoteAll(paths), " "), None, Unquoted) == Some(QuotedWords(paths))
  {
    hide Tokens, ShellQuote, Quoted;
    if paths == [] {
      AtEnd(None);
      assert QuotedWords(paths) == [] && QuoteAll(paths) == [];
    } else {
      var rest := paths[1..];
      PathsAreWords(rest);
      assert QuoteAll(paths)[1..] == QuoteAll(rest);
      assert QuotedWords(paths) == [Token.Word(Quoted(paths[0]))] + QuotedWords(rest);
      QuotedAndSpace(paths[0], Join(QuoteAll(rest), " "));
      if |paths| > 1 {
        assert Join(QuoteAll(paths), " ") == ShellQuote(paths[0]) + ([' '] + Join(QuoteAll(rest), " "));
      } else {
        assert QuotedWords(paths) == [Token.Word(Quoted(paths[0]))];
      }
    }
  }

  /** The delete command is `rm`, `-rf` and the paths, each one word whatever it contains. */
  lemma RemoveCommandLexes(paths: seq<string>)
    ensures Lex(RemoveCommand(paths)) == Some([Token.Word(Plain("rm")), Token.Word(Plain("-rf"))] + QuotedWords(paths))
  {
    hide Tokens, ShellQuote, QuoteAll, Join, QuotedWords, Plain;
    var tail := Join(QuoteAll(paths), " ");
    PathsAreWords(paths);
    assert RemoveCommand(paths) == "rm" + ([' '] + ("-rf" + ([' '] + tail)));
    WordAndSpace("rm", "-rf" + ([' '] + tail));
    WordAndSpace("-rf", tail);
    BeforeTwice([Token.Word(Plain("rm"))], [Token.Word(Plain("-rf"))], Tokens(tail, None, Unquoted));
    assert [Token.Word(Plain("rm"))] + [Token.Word(Plain("-rf"))]
        == [Token.Word(Plain("rm")), Token.Word(Plain("-rf"))];
  }

  // ----- cp -----

  datatype Operation = Operation(from: string, to: string)

  function CopyCommand(op: Operation): string {
    "cp -r " + ShellQuote(op.from) + " " + ShellQuote(op.to)
  }

  function CopyCommands(operations: seq<Operation>): seq<string> {
    seq(|operations|, i requires 0 <= i < |operations| => CopyCommand(operations[i]))
  }

  function CopyChain(operations: seq<Operation>): string {
    Join(CopyCommands(operations), " && ")
  }

  function CopyTokens(op: Operation): seq<Token> {
    [Token.Word(Plain("cp")), Token.Word(Plain("-r")), Token.Word(Quoted(op.from)), Token.Word(Quoted(op.to))]
  }

  function ChainTokens(operations: seq<Operation>): seq<Token> {
    if operations == [] then []
    else if |operations| == 1 then CopyTokens(operations[0])
    else CopyTokens(operations[0]) + [And] + ChainTokens(operations[1..])
  }

  lemma CopyBefore(op: Operation, rest: string)
    ensures Tokens(CopyCommand(op), None, Unquoted) == Some(CopyTokens(op))
    ensures Tokens(CopyCommand(op) + (" && " + rest), None, Unquoted)
         == Before(CopyTokens(op) + [And], Tokens(rest, None, Unquoted))
  {
    hide Tokens, ShellQuote, Quoted, Plain, Before;
    var from, to := ShellQuote(op.from), ShellQuote(op.to);
    var chain := [' '] + (['&', '&'] + ([' '] + rest));
    assert CopyCommand(op) == "cp" + ([' '] + ("-r" + ([' '] + (from + ([' '] + to)))));
    assert CopyCommand(op) + (" && " + rest) == "cp" + ([' '] + ("-r" + ([' '] + (from + ([' '] + (to + chain))))));
    Command("cp", "-r", op.from, to);
    Command("cp", "-r", op.from, to + chain);
    LastOfCopy(op.to, rest);
    var first := [Token.Word(Plain("cp")), Token.Word(Plain("-r")), Token.Word(Quoted(op.from))];
    var last := Token.Word(Quoted(op.to));
    BeforeTwice(first, [last, And], Tokens(rest, None, Unquoted));
    assert first + [last, And] == CopyTokens(op) + [And];
    BeforeTwice(first, [last], Some([]));
    OneToken(last);
    assert first + [last] == CopyTokens(op) && CopyTokens(op) + [] == CopyTokens(op);
    assert Before(first + [last], Some([])) == Some(first + [last]) by { NoMore(first + [last]); }
  }

  lemma OneToken(t: Token)
    ensures Before([t], Some([])) == Some([t])
  {
    assert [t] + [] == [t];
  }

  lemma NoMore(tokens: seq<Token>)
    ensures Before(tokens, Some([])) == Some(tokens)
  {
    assert tokens + [] == tokens;
  }

  lemma LastOfCopy(to: string, rest: string)
    ensures Tokens(ShellQuote(to), None, Unquoted) == Some([Token.Word(Quoted(to))])
    ensures Tokens(ShellQuote(to) + ([' '] + (['&', '&'] + ([' '] + rest))), None, Unquoted)
         == Before([Token.Word(Quoted(to)), And], Tokens(rest, None, Unquoted))
  {
    hide Tokens, ShellQuote, Quoted, Before;
    QuotedAndSpace(to, ['&', '&'] + ([' '] + rest));
    AtAnd([' '] + rest, None);
    AtSpace(rest, None);
    BeforeTwice([Token.Word(Quoted(to))], [And], Tokens(rest, None, Unquoted));
    assert [Token.Word(Quoted(to))] + [And] == [Token.Word(Quoted(to)), And];
  }

  /** A command of two ordinary words, a quoted one and more. */
  lemma Command(name: string, option: string, s: string, more: string)
    requires name != [] && forall i :: 0 <= i < |name| ==> IsOrdinary(name[i])
    requires option != [] && forall i :: 0 <= i < |option| ==> IsOrdinary(option[i])
    ensures Tokens(name + ([' '] + (option + ([' '] + (ShellQuote(s) + ([' '] + more))))), None, Unquoted)
         == Before([Token.Word(Plain(name)), Token.Word(Plain(option)), Token.Word(Quoted(s))],
                   Tokens(more, None, Unquoted))
  {
    hide Tokens, ShellQuote, Quoted, Plain, IsOrdinary, Before;
    var afterName := option + ([' '] + (ShellQuote(s) + ([' '] + more)));
    WordAndSpace(name, afterName);
    WordAndSpace(option, ShellQuote(s) + ([' '] + more));
    QuotedAndSpace(s, more);
    var first, second, third := Token.Word(Plain(name)), Token.Word(Plain(option)), Token.Word(Quoted(s));
    BeforeTwice([second], [third], Tokens(more, None, Unquoted));
    BeforeTwice([first], [second] + [third], Tokens(more, None, Unquoted));
    assert [first] + ([second] + [third]) == [first, second, third];
  }

  /** The copy command is one `cp -r` with two arguments for every operation, chained. */
  lemma {:induction false} CopyChainLexes(operations: seq<Operation>)
    ensures Lex(CopyChain(operations)) == Some(ChainTokens(operations))
  {
    hide Tokens, CopyCommand, CopyTokens;
    if operations == [] {
      AtEnd(None);
    } else {
      var rest := operations[1..];
      CopyChainLexes(rest);
      assert CopyCommands(operations)[1..] == CopyCommands(rest);
      CopyBefore(operations[0], CopyChain(rest));
      if |operations| > 1 {
        assert CopyChain(operations) == CopyCommand(operations[0]) + (" && " + CopyChain(rest));
      }
    }
  }

  // ----- tar -----

  function TrimEndSlashes(s: string): (t: string)
    ensures t <= s
    ensures t == [] || t[|t| - 1] != '/'
    ensures forall i :: |t| <= i < |s| ==> s[i] == '/'
  {
    if s != [] && s[|s| - 1] == '/' then TrimEndSlashes(s[..|s| - 1]) else s
  }

  /** The length of what stands before the last slash; none without a slash. */
  function LastSlash(s: string): (i: Option<nat>)
    ensures i.Some? ==> i.value < |s| && s[i.value] == '/' && NoChar(s[i.value + 1..], '/')
    ensures i.None? ==> NoChar(s, '/')
  {
    if s == [] then None
    else if s[|s| - 1] == '/' then Some(|s| - 1)
    else
      var i := LastSlash(s[..|s| - 1]);
      assert i.Some? ==> s[i.value + 1..] == s[..|s| - 1][i.value + 1..] + [s[|s| - 1]];
      i
  }

  datatype Split = Split(parent: string, name: string)

  /** The directory to change to and the entry to archive there; nothing for a path of slashes. */
  function SplitPath(path: string): Option<Split> {
    var trimmed := TrimEndSlashes(path);
    if trimmed == [] then None else
      match LastSlash(trimmed)
      case None => Some(Split(".", trimmed))
      case Some(i) =>
        if trimmed[i + 1..] == [] then None
        else Some(Split(if i == 0 then "/" else trimmed[..i], trimmed[i + 1..]))
  }

  function Splits(paths: seq<string>): seq<Split> {
    if paths == [] then []
    else match SplitPath(paths[0]) case Some(split) => [split] + Splits(paths[1..]) case None => Splits(paths[1..])
  }

  function TarArguments(splits: seq<Split>): string {
    if splits == [] then []
    else " -C " + ShellQuote(splits[0].parent) + " " + ShellQuote(splits[0].name) + TarArguments(splits[1..])
  }

  /** The archive command; none when there is nothing to archive. */
  function TarCommand(paths: seq<string>): Option<string> {
    if TarArguments(Splits(paths)) == [] then None else Some("tar -czf -" + TarArguments(Splits(paths)))
  }

  /** The arguments as the loop over the paths appends them. */
  method BuildTarCommand(paths: seq<string>) returns (command: Option<string>)
    ensures command == TarCommand(paths)
  {
    hide ShellQuote, SplitPath;
    var arguments := "";
    assert paths[0..] == paths;
    for i := 0 to |paths|
      invariant arguments + TarArguments(Splits(paths[i..])) == TarArguments(Splits(paths))
    {
      assert paths[i..][0] == paths[i] && paths[i..][1..] == paths[i + 1..];
      var split := SplitPath(paths[i]);
      if split.Some? {
        var more := " -C " + ShellQuote(split.value.parent) + " " + ShellQuote(split.value.name);
        ghost var rest := Splits(paths[i + 1..]);
        assert ([split.value] + rest)[1..] == rest;
        assert arguments + (more + TarArguments(rest)) == arguments + more + TarArguments(rest);
        arguments := arguments + more;
      }
    }
    assert paths[|paths|..] == [] && arguments + [] == arguments;
    if arguments == "" { return None; }
    return Some("tar -czf -" + arguments);
  }

  /** A path is left out exactly when it is nothing but slashes. Otherwise its parent and its name join to the path
      without its trailing slashes, and the name is a single component. */
  lemma SplitRejoins(path: string)
    ensures SplitPath(path).None? <==> TrimEndSlashes(path) == []
    ensures SplitPath(path).Some? ==>
      var trimmed, split := TrimEndSlashes(path), SplitPath(path).value;
      && split.name != [] && NoChar(split.name, '/')
      && (|| (split.parent == "." && trimmed == split.name)
          || (split.parent == "/" && trimmed == "/" + split.name)
          || trimmed == split.parent + "/" + split.name)
  {
    hide TrimEndSlashes, LastSlash, NoChar;
    var trimmed := TrimEndSlashes(path);
    if trimmed != [] && LastSlash(trimmed).Some? { SlashInside(trimmed); }
  }

  /** Every path but one of slashes is archived, once and in order. */
  lemma {:induction false} NoPathIsLost(before: seq<string>, path: string, after: seq<string>)
    ensures if (forall i :: 0 <= i < |path| ==> path[i] == '/')
            then Splits(before + [path] + after) == Splits(before + after)
            else && SplitPath(path).Some?
                 && Splits(before + [path] + after) == Splits(before) + [SplitPath(path).value] + Splits(after)
  {
    hide SplitPath;
    var paths := before + [path] + after;
    SplitRejoins(path);
    if before == [] {
      assert paths[0] == path && paths[1..] == after == before + after;
    } else {
      assert paths[0] == before[0] && paths[1..] == before[1..] + [path] + after;
      assert (before + after)[0] == before[0] && (before + after)[1..] == before[1..] + after;
      NoPathIsLost(before[1..], path, after);
    }
  }

  lemma SlashInside(trimmed: string)
    requires trimmed != [] && trimmed[|trimmed| - 1] != '/' && LastSlash(trimmed).Some?
    ensures var i := LastSlash(trimmed).value;
            && trimmed[i + 1..] != [] && NoChar(trimmed[i + 1..], '/')
            && trimmed == trimmed[..i] + "/" + trimmed[i + 1..]
            && (i == 0 ==> trimmed == "/" + trimmed[1..])
  {
    hide LastSlash, NoChar;
  }

  function TarTokens(splits: seq<Split>): seq<Token> {
    if splits == [] then []
    else [Token.Word(Plain("-C")), Token.Word(Quoted(splits[0].parent)), Token.Word(Quoted(splits[0].name))]
         + TarTokens(splits[1..])
  }

  lemma OneTarArgument(split: Split, more: string, word: Word)
    ensures Tokens(" -C " + ShellQuote(split.parent) + " " + ShellQuote(split.name) + more, Some(word), Unquoted)
         == Before([Token.Word(word), Token.Word(Plain("-C")), Token.Word(Quoted(split.parent))],
                   Tokens(more, Some(Quoted(split.name)), Unquoted))
  {
    hide Tokens, ShellQuote, Plain, Quoted, Before;
    var parent, name := ShellQuote(split.parent), ShellQuote(split.name);
    var first := "-C" + ([' '] + (parent + ([' '] + (name + more))));
    assert " -C " + parent + " " + name + more == [' '] + first;
    AtSpace(first, Some(word));
    WordAndSpace("-C", parent + ([' '] + (name + more)));
    QuotedAndSpace(split.parent, name + more);
    QuoteIsLiteral(split.name, more, None);
    assert [] + Quoted(split.name) == Quoted(split.name);
    var t0, t1, t2 := Token.Word(word), Token.Word(Plain("-C")), Token.Word(Quoted(split.parent));
    var rest := Tokens(more, Some(Quoted(split.name)), Unquoted);
    BeforeTwice([t1], [t2], rest);
    BeforeTwice([t0], [t1] + [t2], rest);
    assert [t0] + ([t1] + [t2]) == [t0, t1, t2];
  }

  lemma {:induction false} TarArgumentsLex(splits: seq<Split>, word: Word)
    ensures Tokens(TarArguments(splits), Some(word), Unquoted) == Some([Token.Word(word)] + TarTokens(splits))
  {
    hide Tokens, ShellQuote, Plain, Quoted;
    if splits == [] {
      AtEnd(Some(word));
      assert [Token.Word(word)] + [] == [Token.Word(word)];
    } else {
      OneTarArgument(splits[0], TarArguments(splits[1..]), word);
      TarArgumentsLex(splits[1..], Quoted(splits[0].name));
      var parent, name := Token.Word(Quoted(splits[0].parent)), Token.Word(Quoted(splits[0].name));
      var option, rest := Token.Word(Plain("-C")), TarTokens(splits[1..]);
      assert [Token.Word(word), option, parent] + ([name] + rest)
          == [Token.Word(word)] + ([option, parent, name] + rest);
    }
  }

  /** The archive command is `tar -czf -` and, for every path that is kept, `-C` with its parent and its name, each one
      word whatever it contains. */
  lemma TarCommandLexes(paths: seq<string>)
    ensures TarCommand(paths).None? <==> Splits(paths) == []
    ensures TarCommand(paths).Some? ==>
      Lex(TarCommand(paths).value)
      == Some([Token.Word(Plain("tar")), Token.Word(Plain("-czf")), Token.Word(Plain("-"))] + TarTokens(Splits(paths)))
  {
    hide Tokens, ShellQuote, Plain, Quoted, Splits, TarTokens, Before;
    var splits := Splits(paths);
    var arguments := TarArguments(splits);
    if splits != [] {
      assert arguments[0] == ' ';
      hide TarArguments;
      TarHeadLexes(arguments);
      TarArgumentsLex(splits, Plain("-"));
      var t0, t1, t2 := Token.Word(Plain("tar")), Token.Word(Plain("-czf")), Token.Word(Plain("-"));
      BeforeTwice([t0, t1], [t2], Some(TarTokens(splits)));
      assert [t0, t1] + [t2] == [t0, t1, t2];
      BeforeIs([t2], TarTokens(splits));
      BeforeIs([t0, t1, t2], TarTokens(splits));
    }
  }

  lemma BeforeIs(a: seq<Token>, b: seq<Token>)
    ensures Before(a, Some(b)) == Some(a + b)
  {
  }

  lemma TarHeadLexes(arguments: string)
    ensures Lex("tar -czf -" + arguments)
         == Before([Token.Word(Plain("tar")), Token.Word(Plain("-czf"))], Tokens(arguments, Some(Plain("-")), Unquoted))
  {
    hide Tokens, Plain, Before;
    assert "tar -czf -" + arguments == "tar" + ([' '] + ("-czf" + ([' '] + ("-" + arguments))));
    WordAndSpace("tar", "-czf" + ([' '] + ("-" + arguments)));
    WordAndSpace("-czf", "-" + arguments);
    OrdinaryRun("-", arguments, None);
    assert [] + Plain("-") == Plain("-");
    var t0, t1 := Token.Word(Plain("tar")), Token.Word(Plain("-czf"));
    BeforeTwice([t0], [t1], Tokens(arguments, Some(Plain("-")), Unquoted));
    assert [t0] + [t1] == [t0, t1];
  }

  // ----- cd -----

  predicate IsUserChar(c: char) {
    'a' <= c <= 'z' || 'A' <= c <= 'Z' || '0' <= c <= '9' || c == '_' || c == '-'
  }

  predicate IsUser(user: string) {
    user != [] && forall i :: 0 <= i < |user| ==> IsUserChar(user[i])
  }

  /** The part of a path after `~` that names a user, and the rest after the slash. */
  datatype UserPath = UserPath(user: string, rest: string)

  function SplitUser(tail: string): UserPath {
    var i := IndexOf(tail, '/');
    if i == |tail| then UserPath(tail, []) else UserPath(tail[..i], tail[i + 1..])
  }

  /** `posix_shell_cd_path`. */
  function PosixShellCdPath(path: string): string {
    var trimmed := Trim(path);
    if trimmed == [] || trimmed == "~" || trimmed == "~/" then "~"
    else if |trimmed| >= 2 && trimmed[..2] == "~/" then "~/" + ShellQuote(trimmed[2..])
    else if trimmed[0] == '~' && IsUser(SplitUser(trimmed[1..]).user) then
      var at := SplitUser(trimmed[1..]);
      if at.rest == [] then "~" + at.user else "~" + at.user + "/" + ShellQuote(at.rest)
    else ShellQuote(trimmed)
  }

  /** A login name: ASCII letters, digits, underscores and hyphens. */
  predicate IsLogin(name: string) {
    && name != []
    && forall i :: 0 <= i < |name| ==>
         var code := name[i] as int;
         48 <= code <= 57 || 65 <= code <= 90 || 97 <= code <= 122 || code == 95 || code == 45
  }

  lemma LoginIsUser(name: string)
    ensures IsLogin(name) <==> IsUser(name)
  {
  }

  /** Where the user means to go: a leading `~` is the own home directory, a leading `~user` that of the user, and
      anything else is taken literally. A slash after the tilde prefix with nothing behind it is dropped. */
  function Destination(path: string, homes: Homes): Option<string> {
    var trimmed := Trim(path);
    if trimmed == [] then Some(homes.own)
    else if trimmed[0] != '~' then Some(trimmed)
    else
      var at := SplitUser(trimmed[1..]);
      var below := if at.rest == [] then [] else "/" + at.rest;
      if at.user == [] then Some(homes.own + below)
      else if !IsLogin(at.user) then Some(trimmed)
      else match homes.ofUser(at.user) case Some(home) => Some(home + below) case None => None
  }

  lemma TildeLexes(user: string, rest: string)
    requires forall i :: 0 <= i < |user| ==> IsUserChar(user[i])
    ensures Lex("~" + user) == Some([Token.Word(Plain("~" + user))])
    ensures Lex("~" + user + "/" + ShellQuote(rest))
         == Some([Token.Word(Plain("~" + user) + Plain("/") + Quoted(rest))])
  {
    hide Tokens, ShellQuote;
    var prefix := "~" + user;
    assert forall i :: 0 <= i < |prefix| ==> IsOrdinary(prefix[i]);
    OrdinaryRun(prefix, [], None);
    assert prefix + [] == prefix && [] + Plain(prefix) == Plain(prefix);
    AtEnd(Some(Plain(prefix)));
    assert forall i :: 0 <= i < |prefix + "/"| ==> IsOrdinary((prefix + "/")[i]);
    OrdinaryRun(prefix + "/", ShellQuote(rest), None);
    assert [] + Plain(prefix + "/") == Plain(prefix) + Plain("/");
    QuoteIsLiteral(rest, [], Some(Plain(prefix) + Plain("/")));
    assert ShellQuote(rest) + [] == ShellQuote(rest);
    AtEnd(Some(Plain(prefix) + Plain("/") + Quoted(rest)));
  }

  lemma {:induction false} PrefixLengthOf(s: string, below: Word)
    requires NoChar(s, '/') && (below == [] || below[0] == Char('/', false))
    ensures PrefixLength(Plain(s) + below) == |s|
  {
    if s == [] {
      assert Plain(s) + below == below;
    } else {
      assert (Plain(s) + below)[1..] == Plain(s[1..]) + below;
      PrefixLengthOf(s[1..], below);
    }
  }

  function HomeOf(user: string, homes: Homes): Option<string> {
    if user == [] then Some(homes.own) else homes.ofUser(user)
  }

  function Under(home: Option<string>, below: string): Option<string> {
    match home case Some(h) => Some(h + below) case None => None
  }

  /** A tilde prefix and what follows it: the home directory and what follows it. */
  lemma TildeExpands(user: string, below: Word, homes: Homes)
    requires forall i :: 0 <= i < |user| ==> IsUserChar(user[i])
    requires (below == [] || below[0] == Char('/', false)) && !HasPattern(below)
    ensures Expand(Plain("~" + user) + below, homes) == Under(HomeOf(user, homes), Chars(below))
  {
    var prefix := "~" + user;
    var word := Plain(prefix) + below;
    forall i | 0 <= i < |prefix| ensures prefix[i] != '/' && prefix[i] !in "*?[" {
      assert i == 0 || IsUserChar(user[i - 1]);
    }
    PrefixLengthOf(prefix, below);
    assert word[..|prefix|] == Plain(prefix) && word[|prefix|..] == below;
    assert Chars(word[1..|prefix|]) == user;
    assert !HasPattern(word) by {
      forall i | 0 <= i < |word| && !word[i].quoted ensures word[i].c !in "*?[" {
        if i >= |prefix| { assert word[i] == below[i - |prefix|]; }
      }
    }
  }

  lemma NoQuotedPattern(rest: string)
    ensures !HasPattern(Plain("/") + Quoted(rest)) && !HasPattern([]) && Chars(Plain("/") + Quoted(rest)) == "/" + rest
  {
  }

  /** The word that the shell reads for a path. */
  function CdWord(path: string): Word {
    var trimmed := Trim(path);
    if trimmed == [] || trimmed == "~" || trimmed == "~/" then Plain("~")
    else if |trimmed| >= 2 && trimmed[..2] == "~/" then Plain("~") + Plain("/") + Quoted(trimmed[2..])
    else if trimmed[0] == '~' && IsUser(SplitUser(trimmed[1..]).user) then
      var at := SplitUser(trimmed[1..]);
      if at.rest == [] then Plain("~" + at.user) else Plain("~" + at.user) + Plain("/") + Quoted(at.rest)
    else Quoted(trimmed)
  }

  /** Whatever the path, `cd` gets one argument. */
  lemma CdPathIsOneWord(path: string)
    ensures Lex(PosixShellCdPath(path)) == Some([Token.Word(CdWord(path))])
  {
    hide Lex, ShellQuote, Trim, Expand, Plain, Quoted;
    var trimmed := Trim(path);
    assert "~" + "" == "~" && "~" + "" + "/" == "~/";
    TildeLexes("", if |trimmed| >= 2 then trimmed[2..] else "");
    if trimmed != [] && IsUser(SplitUser(trimmed[1..]).user) {
      TildeLexes(SplitUser(trimmed[1..]).user, SplitUser(trimmed[1..]).rest);
    }
    ShellQuoteIsOneWord(trimmed, Homes("", u => None));
  }

  lemma TildeTo(user: string, rest: string, homes: Homes)
    requires forall i :: 0 <= i < |user| ==> IsUserChar(user[i])
    ensures Expand(Plain("~" + user), homes) == HomeOf(user, homes)
    ensures Expand(Plain("~" + user) + Plain("/") + Quoted(rest), homes) == Under(HomeOf(user, homes), "/" + rest)
  {
    hide Expand, HasPattern, IsUserChar;
    NoQuotedPattern(rest);
    TildeExpands(user, [], homes);
    assert Plain("~" + user) + [] == Plain("~" + user) && Chars([]) == [];
    if HomeOf(user, homes).Some? { assert HomeOf(user, homes).value + [] == HomeOf(user, homes).value; }
    TildeExpands(user, Plain("/") + Quoted(rest), homes);
    assert Plain("~" + user) + (Plain("/") + Quoted(rest)) == Plain("~" + user) + Plain("/") + Quoted(rest);
  }

  /** Without a slash first, the user is named before it. */
  lemma UserOfTail(tail: string)
    ensures SplitUser(tail).user == [] <==> tail == [] || tail[0] == '/'
    ensures tail != [] && tail[0] == '/' ==> SplitUser(tail).rest == tail[1..]
    ensures tail == [] ==> SplitUser(tail).rest == []
  {
  }

  /** And that argument is where the user means to go. */
  lemma CdGoesToDestination(path: string, homes: Homes)
    ensures Expand(CdWord(path), homes) == Destination(path, homes)
  {
    hide Trim, Expand, Plain, Quoted, IsUserChar, SplitUser, IsLogin;
    var trimmed := Trim(path);
    ShellQuoteIsOneWord(trimmed, homes);
    TildeTo("", if |trimmed| >= 2 then trimmed[2..] else "", homes);
    assert "~" + "" == "~";
    if trimmed != [] && trimmed[0] == '~' {
      var tail := trimmed[1..];
      UserOfTail(tail);
      LoginIsUser(SplitUser(tail).user);
      assert trimmed == "~" + tail;
      if IsUser(SplitUser(tail).user) {
        TildeTo(SplitUser(tail).user, SplitUser(tail).rest, homes);
        AppendNothing(homes.ofUser(SplitUser(tail).user));
      } else if tail != [] && tail[0] == '/' {
        assert trimmed[2..] == tail[1..] && trimmed[..2] == "~/";
        assert trimmed == "~/" <==> tail[1..] == [];
      }
    }
    AppendNothing(Some(homes.own));
  }

  lemma AppendNothing(home: Option<string>)
    ensures home.Some? ==> home.value + [] == home.value
  {
  }
}
