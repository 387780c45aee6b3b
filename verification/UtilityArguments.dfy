/**
  What the utilities make of the arguments that the shell hands them: by the syntax guidelines of POSIX (section 12.2),
  an argument that begins with `-` and has more to it is an option, until an argument `--` or, for utilities that do
  not permute their arguments, the first operand. None of the commands puts a `--` before the paths.
 */
module UtilityArguments {
  import opened Wrappers
  import opened Text
  import opened ShellLexer
  import opened ShellCommands

  /** The arguments of a simple command. */
  function Arguments(tokens: seq<Token>, homes: Homes): Option<seq<string>> {
    if tokens == [] then Some([])
    else if tokens[0].And? then None
    else
      match Expand(tokens[0].word, homes)
      case None => None
      case Some(argument) =>
        match Arguments(tokens[1..], homes) case Some(more) => Some([argument] + more) case None => None
  }

  predicate LooksLikeOption(argument: string) {
    |argument| >= 2 && argument[0] == '-'
  }

  /** The operands of a utility whose options take no arguments; `permutes` where options are also looked for behind
      operands. */
  function Operands(arguments: seq<string>, permutes: bool): seq<string> {
    if arguments == [] then []
    else if arguments[0] == "--" then arguments[1..]
    else if LooksLikeOption(arguments[0]) then Operands(arguments[1..], permutes)
    else if permutes then [arguments[0]] + Operands(arguments[1..], permutes)
    else arguments
  }

  /** No argument is taken for an option. */
  predicate AreOperands(arguments: seq<string>, permutes: bool) {
    if permutes then forall i :: 0 <= i < |arguments| ==> !LooksLikeOption(arguments[i])
    else arguments == [] || !LooksLikeOption(arguments[0])
  }

  lemma {:induction false} OperandsAreFewer(arguments: seq<string>, permutes: bool)
    ensures |Operands(arguments, permutes)| <= |arguments|
  {
    if arguments != [] { OperandsAreFewer(arguments[1..], permutes); }
  }

  /** Arguments are the operands exactly if none of them is taken for an option. */
  lemma {:induction false} OperandsExactly(arguments: seq<string>, permutes: bool)
    ensures Operands(arguments, permutes) == arguments <==> AreOperands(arguments, permutes)
  {
    if arguments != [] {
      var rest := arguments[1..];
      OperandsAreFewer(rest, permutes);
      assert arguments == [arguments[0]] + rest;
      if LooksLikeOption(arguments[0]) {
        assert |Operands(arguments, permutes)| <= |rest|;
      } else if permutes {
        OperandsExactly(rest, permutes);
        assert ([arguments[0]] + Operands(rest, permutes))[1..] == Operands(rest, permutes);
        assert forall i :: 0 < i < |arguments| ==> arguments[i] == rest[i - 1];
      }
    }
  }

  // ----- rm and cp -----

  lemma PlainExpands(s: string, homes: Homes)
    requires s != [] && s[0] != '~' && forall i :: 0 <= i < |s| ==> s[i] !in "*?["
    ensures Expand(Plain(s), homes) == Some(s)
  {
    var word := Plain(s);
    assert forall i :: 0 <= i < |word| ==> word[i].c == s[i];
    assert Chars(word) == s;
  }

  lemma {:induction false} QuotedArguments(paths: seq<string>, homes: Homes)
    ensures Arguments(QuotedWords(paths), homes) == Some(paths)
  {
    hide Expand, Quoted;
    if paths != [] {
      QuotedArguments(paths[1..], homes);
      ShellQuoteIsOneWord(paths[0], homes);
      assert QuotedWords(paths)[1..] == QuotedWords(paths[1..]);
      assert paths == [paths[0]] + paths[1..];
    }
  }

  /** A word in front of arguments. */
  lemma ArgumentFirst(word: Word, argument: string, tokens: seq<Token>, more: seq<string>, homes: Homes)
    requires Expand(word, homes) == Some(argument) && Arguments(tokens, homes) == Some(more)
    ensures Arguments([Token.Word(word)] + tokens, homes) == Some([argument] + more)
  {
    assert ([Token.Word(word)] + tokens)[1..] == tokens;
  }

  lemma CommandArguments(name: string, option: string, tokens: seq<Token>, more: seq<string>, homes: Homes)
    requires Expand(Plain(name), homes) == Some(name) && Expand(Plain(option), homes) == Some(option)
    requires Arguments(tokens, homes) == Some(more)
    ensures Arguments([Token.Word(Plain(name)), Token.Word(Plain(option))] + tokens, homes)
         == Some([name, option] + more)
  {
    ArgumentFirst(Plain(option), option, tokens, more, homes);
    ArgumentFirst(Plain(name), name, [Token.Word(Plain(option))] + tokens, [option] + more, homes);
    assert [Token.Word(Plain(name))] + ([Token.Word(Plain(option))] + tokens)
        == [Token.Word(Plain(name)), Token.Word(Plain(option))] + tokens;
    assert [name] + ([option] + more) == [name, option] + more;
  }

  lemma OptionIsSkipped(option: string, paths: seq<string>, permutes: bool)
    requires LooksLikeOption(option) && option != "--"
    ensures Operands([option] + paths, permutes) == Operands(paths, permutes)
  {
    assert ([option] + paths)[1..] == paths;
  }

  /** `rm` gets exactly the paths as its operands if and only if none of them is taken for an option. */
  lemma RemovesThePaths(paths: seq<string>, homes: Homes, permutes: bool)
    ensures Lex(RemoveCommand(paths)).Some?
    ensures Arguments(Lex(RemoveCommand(paths)).value, homes) == Some(["rm", "-rf"] + paths)
    ensures Operands(["-rf"] + paths, permutes) == paths <==> AreOperands(paths, permutes)
  {
    hide Expand, Plain, Lex;
    RemoveCommandLexes(paths);
    PlainExpands("rm", homes);
    PlainExpands("-rf", homes);
    QuotedArguments(paths, homes);
    CommandArguments("rm", "-rf", QuotedWords(paths), paths, homes);
    OptionIsSkipped("-rf", paths, permutes);
    OperandsExactly(paths, permutes);
  }

  /** So does each `cp` of the copy chain. */
  lemma CopiesThePath(op: Operation, homes: Homes, permutes: bool)
    ensures Arguments(CopyTokens(op), homes) == Some(["cp", "-r", op.from, op.to])
    ensures Operands(["-r", op.from, op.to], permutes) == [op.from, op.to]
       <==> !LooksLikeOption(op.from) && (permutes ==> !LooksLikeOption(op.to))
  {
    hide Expand, Plain, Quoted, Arguments;
    PlainExpands("cp", homes);
    PlainExpands("-r", homes);
    var paths := [op.from, op.to];
    QuotedArguments(paths, homes);
    CommandArguments("cp", "-r", QuotedWords(paths), paths, homes);
    assert CopyTokens(op) == [Token.Word(Plain("cp")), Token.Word(Plain("-r"))] + QuotedWords(paths);
    assert ["cp", "-r"] + paths == ["cp", "-r", op.from, op.to];
    OptionIsSkipped("-r", paths, permutes);
    assert ["-r"] + paths == ["-r", op.from, op.to];
    OperandsExactly(paths, permutes);
    assert AreOperands(paths, permutes)
      <==> !LooksLikeOption(paths[0]) && (permutes ==> !LooksLikeOption(paths[1]));
  }

  // ----- tar -----

  /** What `tar` archives: each operand, with the directory of the last `-C` before it; nothing where an operand is
      taken for another option. */
  function Members(arguments: seq<string>, directory: string): Option<seq<Split>>
    decreases |arguments|
  {
    if arguments == [] then Some([])
    else if arguments[0] == "-C" then
      if |arguments| == 1 then None else Members(arguments[2..], arguments[1])
    else if LooksLikeOption(arguments[0]) then None
    else
      match Members(arguments[1..], directory)
      case Some(more) => Some([Split(directory, arguments[0])] + more)
      case None => None
  }

  function TarParameters(splits: seq<Split>): seq<string> {
    if splits == [] then [] else ["-C", splits[0].parent, splits[0].name] + TarParameters(splits[1..])
  }

  predicate NamesAreOperands(splits: seq<Split>) {
    forall i :: 0 <= i < |splits| ==> !LooksLikeOption(splits[i].name)
  }

  lemma {:induction false} MembersAreOperands(arguments: seq<string>, directory: string)
    ensures Members(arguments, directory).Some? ==> NamesAreOperands(Members(arguments, directory).value)
    decreases |arguments|
  {
    if arguments != [] && arguments[0] == "-C" {
      if |arguments| > 1 { MembersAreOperands(arguments[2..], arguments[1]); }
    } else if arguments != [] {
      MembersAreOperands(arguments[1..], directory);
    }
  }

  lemma {:induction false} OperandsAreMembers(splits: seq<Split>, directory: string)
    requires NamesAreOperands(splits)
    ensures Members(TarParameters(splits), directory) == Some(splits)
  {
    if splits != [] {
      var rest := TarParameters(splits[1..]);
      OperandsAreMembers(splits[1..], splits[0].parent);
      OneMember(splits[0], rest, directory);
      assert splits == [splits[0]] + splits[1..];
    }
  }

  lemma OneMember(split: Split, rest: seq<string>, directory: string)
    requires !LooksLikeOption(split.name) && Members(rest, split.parent).Some?
    ensures Members(["-C", split.parent, split.name] + rest, directory)
         == Some([split] + Members(rest, split.parent).value)
  {
    var arguments := ["-C", split.parent, split.name] + rest;
    assert arguments[2..] == [split.name] + rest && ([split.name] + rest)[1..] == rest;
  }

  lemma OneTarEntry(split: Split, rest: seq<Token>, more: seq<string>, homes: Homes)
    requires Arguments(rest, homes) == Some(more)
    ensures var entry := [Token.Word(Plain("-C")), Token.Word(Quoted(split.parent)), Token.Word(Quoted(split.name))];
            Arguments(entry + rest, homes) == Some(["-C", split.parent, split.name] + more)
  {
    hide Expand, Plain, Quoted, Arguments;
    var option := Token.Word(Plain("-C"));
    var parent, name := Token.Word(Quoted(split.parent)), Token.Word(Quoted(split.name));
    PlainExpands("-C", homes);
    ShellQuoteIsOneWord(split.parent, homes);
    ShellQuoteIsOneWord(split.name, homes);
    ArgumentFirst(name.word, split.name, rest, more, homes);
    ArgumentFirst(parent.word, split.parent, [name] + rest, [split.name] + more, homes);
    ArgumentFirst(option.word, "-C", [parent] + ([name] + rest), [split.parent] + ([split.name] + more), homes);
    assert [option, parent, name] + rest == [option] + ([parent] + ([name] + rest));
    assert ["-C", split.parent, split.name] + more == ["-C"] + ([split.parent] + ([split.name] + more));
  }

  lemma {:induction false} TarTokenArguments(splits: seq<Split>, homes: Homes)
    ensures Arguments(TarTokens(splits), homes) == Some(TarParameters(splits))
  {
    hide Expand, Plain, Quoted;
    if splits != [] {
      TarTokenArguments(splits[1..], homes);
      OneTarEntry(splits[0], TarTokens(splits[1..]), TarParameters(splits[1..]), homes);
    }
  }

  /** `tar` archives exactly the entries meant, each from its own directory, if and only if no entry's name is taken for
      an option. */
  lemma ArchivesTheEntries(paths: seq<string>, homes: Homes, directory: string)
    ensures Arguments(TarTokens(Splits(paths)), homes) == Some(TarParameters(Splits(paths)))
    ensures Members(TarParameters(Splits(paths)), directory) == Some(Splits(paths)) <==> NamesAreOperands(Splits(paths))
  {
    TarTokenArguments(Splits(paths), homes);
    MembersAreOperands(TarParameters(Splits(paths)), directory);
    if NamesAreOperands(Splits(paths)) {
      OperandsAreMembers(Splits(paths), directory);
    }
  }

  // ----- cd -----

  /** The directory that `cd` goes to, given this one argument: `-` alone is the previous directory. */
  function CdTarget(argument: string): Option<string> {
    if argument != [] && argument[0] == '-' then None else Some(argument)
  }

  ghost predicate HomesAreAbsolute(homes: Homes) {
    && homes.own != [] && homes.own[0] == '/'
    && forall user :: homes.ofUser(user).Some? ==> homes.ofUser(user).value != [] && homes.ofUser(user).value[0] == '/'
  }

  /** `cd` goes where the user means to go if and only if the trimmed path does not begin with `-`. */
  lemma CdReachesDestination(path: string, homes: Homes)
    requires HomesAreAbsolute(homes)
    ensures Expand(CdWord(path), homes) == Destination(path, homes)
    ensures Destination(path, homes).Some?
            ==> (CdTarget(Destination(path, homes).value) == Destination(path, homes)
                 <==> Trim(path) == [] || Trim(path)[0] != '-')
  {
    hide Trim, Expand, SplitUser, IsLogin;
    CdGoesToDestination(path, homes);
    var trimmed := Trim(path);
    if trimmed != [] && trimmed[0] == '~' {
      assert homes.ofUser(SplitUser(trimmed[1..]).user).Some?
        ==> homes.ofUser(SplitUser(trimmed[1..]).user).value[0] == '/';
    }
  }
}
