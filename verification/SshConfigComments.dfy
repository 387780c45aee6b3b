/** Where a comment starts: at the first number sign that is neither escaped nor in quotes. */
module SshConfigComments {
  import opened Wrappers
  import S = SshConfig

  /** A backslash that is not escaped itself stands before this place. */
  predicate EscapedAt(line: string, i: nat)
    requires i <= |line|
  {
    i > 0 && line[i - 1] == '\\' && !EscapedAt(line, i - 1)
  }

  /** The quote that is open at this place: opened by a quote of either kind and closed by the next one of its kind. */
  function QuoteAt(line: string, i: nat): Option<char>
    requires i <= |line|
  {
    if i == 0 then None
    else
      var open, c := QuoteAt(line, i - 1), line[i - 1];
      if EscapedAt(line, i - 1) || c !in ['"', '\''] then open
      else if open == None then Some(c)
      else if open == Some(c) then None
      else open
  }

  predicate StartsComment(line: string, i: nat)
    requires i < |line|
  {
    line[i] == '#' && !EscapedAt(line, i) && QuoteAt(line, i) == None
  }

  lemma {:induction false} CommentFrom(line: string, k: nat)
    requires k <= |line|
    ensures var i := k + S.CommentStart(line[k..], QuoteAt(line, k), EscapedAt(line, k));
            && i <= |line| && (i < |line| ==> StartsComment(line, i))
            && forall j :: k <= j < i ==> !StartsComment(line, j)
    decreases |line| - k
  {
    if k < |line| {
      assert line[k..][0] == line[k] && line[k..][1..] == line[k + 1..];
      CommentFrom(line, k + 1);
    }
  }

  /** The comment that is cut off starts at the first such place; without one the line is kept whole. */
  lemma CommentIsFirstUnquoted(line: string)
    ensures var kept := S.WithoutComment(line);
            && kept <= line && (|kept| < |line| ==> StartsComment(line, |kept|))
            && forall j :: 0 <= j < |kept| ==> !StartsComment(line, j)
  {
    CommentFrom(line, 0);
    assert line[0..] == line;
  }
}
