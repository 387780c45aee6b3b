/**
  A fragment of the POSIX Shell Command Language: token recognition and quoting (sections 2.2 and 2.3), tilde expansion
  (2.6.1) and quote removal (2.6.7). Whatever needs another part of the language - expansions with `$` or a backquote,
  comments, operators but `&&`, pathname patterns - has no meaning here.
 */
module ShellLexer {
  import opened Wrappers

  /** A character of a word, and whether it was quoted. */
  datatype Char = Char(c: char, quoted: bool)
  type Word = seq<Char>

  datatype Token = Word(word: Word) | And

  datatype Mode = Unquoted | Single | Double

  function Before(tokens: seq<Token>, rest: Option<seq<Token>>): Option<seq<Token>> {
    match rest case Some(more) => Some(tokens + more) case None => None
  }

  /** A word that has been started, if there is one, is finished here. */
  function Finish(word: Option<Word>, rest: Option<seq<Token>>): Option<seq<Token>> {
    if word.None? then rest else Before([Token.Word(word.value)], rest)
  }

  function Started(word: Option<Word>): Word {
    if word.Some? then word.value else []
  }

  function Extend(word: Option<Word>, c: char, quoted: bool): Option<Word> {
    Some(Started(word) + [Char(c, quoted)])
  }

  predicate IsUnsupported(c: char) {
    c in "|;<>()$`\n"
  }

  /** The tokens of the rest of a command, with `word` being read. */
  function Tokens(s: string, word: Option<Word>, mode: Mode): Option<seq<Token>>
    decreases |s|
  {
    match mode
    case Unquoted => UnquotedTokens(s, word)
    case Single =>
      if s == [] then None
      else if s[0] == '\'' then Tokens(s[1..], word, Unquoted)
      else Tokens(s[1..], Extend(word, s[0], true), Single)
    case Double => DoubleTokens(s, word)
  }

  function UnquotedTokens(s: string, word: Option<Word>): Option<seq<Token>>
    decreases |s|, 0
  {
    if s == [] then Finish(word, Some([]))
    else if s[0] == '\'' then Tokens(s[1..], Some(Started(word)), Single)
    else if s[0] == '"' then Tokens(s[1..], Some(Started(word)), Double)
    else if s[0] == '\\' then
      if |s| == 1 then None
      else if s[1] == '\n' then Tokens(s[2..], word, Unquoted)
      else Tokens(s[2..], Extend(word, s[1], true), Unquoted)
    else if s[0] == ' ' || s[0] == '\t' then Finish(word, Tokens(s[1..], None, Unquoted))
    else if s[0] == '&' then
      if |s| > 1 && s[1] == '&' then Finish(word, Before([And], Tokens(s[2..], None, Unquoted))) else None
    else if IsUnsupported(s[0]) || (s[0] == '#' && word.None?) then None
    else Tokens(s[1..], Extend(word, s[0], false), Unquoted)
  }

  function DoubleTokens(s: string, word: Option<Word>): Option<seq<Token>>
    decreases |s|, 0
  {
    if s == [] || s[0] == '$' || s[0] == '`' then None
    else if s[0] == '"' then Tokens(s[1..], word, Unquoted)
    else if s[0] == '\\' && |s| > 1 && s[1] == '\n' then Tokens(s[2..], word, Double)
    else if s[0] == '\\' && |s| > 1 && s[1] in "$`\"\\" then Tokens(s[2..], Extend(word, s[1], true), Double)
    else Tokens(s[1..], Extend(word, s[0], true), Double)
  }

  /** The tokens of a command. */
  function Lex(s: string): Option<seq<Token>> {
    Tokens(s, None, Unquoted)
  }

  // ----- What a word stands for -----

  function Chars(word: Word): string {
    seq(|word|, i requires 0 <= i < |word| => word[i].c)
  }

  function Quoted(s: string): Word {
    seq(|s|, i requires 0 <= i < |s| => Char(s[i], true))
  }

  function Plain(s: string): Word {
    seq(|s|, i requires 0 <= i < |s| => Char(s[i], false))
  }

  /** Home directories: the caller's own, and those of the users the system knows. */
  datatype Homes = Homes(own: string, ofUser: string -> Option<string>)

  /** The length of a tilde prefix: up to the first unquoted slash. */
  function PrefixLength(word: Word): (n: nat)
    ensures n <= |word|
  {
    if word == [] || word[0] == Char('/', false) then 0 else 1 + PrefixLength(word[1..])
  }

  predicate AllUnquoted(word: Word) {
    forall i :: 0 <= i < |word| ==> !word[i].quoted
  }

  predicate HasPattern(word: Word) {
    exists i :: 0 <= i < |word| && !word[i].quoted && word[i].c in "*?["
  }

  /** The one argument that a word becomes; none where a pattern would be matched against file names, or the home
      directory of an unknown user would be asked for. */
  function Expand(word: Word, homes: Homes): Option<string> {
    if HasPattern(word) then None
    else
      var n := PrefixLength(word);
      if n == 0 || word[0] != Char('~', false) || !AllUnquoted(word[..n]) then Some(Chars(word))
      else
        var login := Chars(word[1..n]);
        match if login == [] then Some(homes.own) else homes.ofUser(login)
        case Some(home) => Some(home + Chars(word[n..]))
        case None => None
  }
}
