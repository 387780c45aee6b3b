/** The alias that a saved connection is written under. */
module SshAliases {
  import opened Text
  import E = SshConfigExport

  /** ASCII letters and digits, hyphens, full stops and underscores stay; anything else becomes a hyphen. */
  function Made(c: char): char {
    var code := c as int;
    if 48 <= code <= 57 || 65 <= code <= 90 || 97 <= code <= 122 || code == 45 || code == 46 || code == 95
    then c else '-'
  }

  /** `alias` is what is made of `text` from `i` up to `j`, with only hyphens around it and none at its ends. */
  predicate IsMiddle(alias: string, text: string, i: nat, j: nat) {
    && i <= j <= |text| && |alias| == j - i
    && (forall k :: 0 <= k < |alias| ==> alias[k] == Made(text[i + k]))
    && (forall k :: 0 <= k < i ==> Made(text[k]) == '-')
    && (forall k :: j <= k < |text| ==> Made(text[k]) == '-')
    && (alias != [] ==> alias[0] != '-' && alias[|alias| - 1] != '-')
  }

  predicate BeginsWithDashes(s: string, n: nat) {
    n <= |s| && forall k :: 0 <= k < n ==> s[k] == '-'
  }

  lemma OneDashMore(s: string, n: nat)
    requires s != [] && s[0] == '-' && BeginsWithDashes(s[1..], n)
    ensures BeginsWithDashes(s, n + 1)
  {
    assert forall k :: 1 <= k <= n ==> s[k] == s[1..][k - 1];
  }

  lemma {:induction false} DashesInFront(s: string)
    ensures BeginsWithDashes(s, |s| - |E.DropDashes(s)|)
    ensures E.DropDashes(s) != [] ==> E.DropDashes(s)[0] != '-'
  {
    hide BeginsWithDashes;
    if s != [] && s[0] == '-' {
      DashesInFront(s[1..]);
      OneDashMore(s, |s[1..]| - |E.DropDashes(s[1..])|);
    } else {
      NoDashes(s);
    }
  }

  lemma NoDashes(s: string)
    ensures BeginsWithDashes(s, 0)
  {
  }

  lemma {:induction false} DashesBehind(s: string)
    ensures var t := E.DropLastDashes(s);
            (forall k :: |t| <= k < |s| ==> s[k] == '-') && (t != [] ==> t[|t| - 1] != '-')
  {
    if s != [] && s[|s| - 1] == '-' { DashesBehind(s[..|s| - 1]); }
  }

  lemma ReplacedIsMade(s: string)
    ensures |E.Replaced(s)| == |s| && forall k :: 0 <= k < |s| ==> E.Replaced(s)[k] == Made(s[k])
  {
  }

  /** The alias made of a text is the trimmed text with other characters replaced and the hyphens around it removed. */
  lemma AliasIsTheMiddle(s: string)
    ensures exists i, j :: IsMiddle(E.AliasFrom(s), Trim(s), i, j)
  {
    hide Trim, Made, E.DropDashes, E.DropLastDashes, E.Replaced;
    var text := Trim(s);
    var replaced := E.Replaced(text);
    var front := E.DropDashes(replaced);
    ReplacedIsMade(text);
    DashesInFront(replaced);
    DashesBehind(front);
    var i, j := |text| - |front|, |text| - |front| + |E.AliasFrom(s)|;
    assert forall k :: j <= k < |text| ==> replaced[k] == front[k - i];
    assert IsMiddle(E.AliasFrom(s), text, i, j);
  }

  /** It is made of the name, or of the host if nothing is left of the name; and it is the identifier if nothing is left
      of either. */
  lemma AliasIsOfNameOrHost(c: E.Connection)
    ensures E.AliasFrom(c.name) != [] ==> E.BuildHostAlias(c) == E.AliasFrom(c.name)
    ensures E.AliasFrom(c.name) == [] && E.AliasFrom(c.host) != [] ==> E.BuildHostAlias(c) == E.AliasFrom(c.host)
    ensures E.AliasFrom(c.name) == [] && E.AliasFrom(c.host) == [] ==> E.BuildHostAlias(c) == c.id
  {
    hide E.AliasFrom;
  }
}
