/** Reading an OpenSSH client configuration. */
module SshConfig {
  import opened Wrappers
  import opened Text
  import opened Numbers

  // ----- One line -----

  /** Where the comment of the rest of a line starts; its length if there is none. `quote` is the open quote. */
  function CommentStart(s: string, quote: Option<char>, escaped: bool): (i: nat)
    ensures i <= |s|
  {
    if s == [] then 0
    else if escaped then 1 + CommentStart(s[1..], quote, false)
    else if s[0] == '\\' then 1 + CommentStart(s[1..], quote, true)
    else if s[0] == '"' || s[0] == '\'' then
      1 + CommentStart(s[1..], if quote.None? then Some(s[0]) else if quote == Some(s[0]) then None else quote, false)
    else if s[0] == '#' && quote.None? then 0
    else 1 + CommentStart(s[1..], quote, false)
  }

  function WithoutComment(line: string): string {
    line[..CommentStart(line, None, false)]
  }

  /** `strip_inline_comments`: one scan with the open quote and the escape as its state. */
  method StripInlineComments(line: string) returns (stripped: string)
    ensures stripped == WithoutComment(line)
  {
    var quote: Option<char>, escaped := None, false;
    assert line[0..] == line;
    for i := 0 to |line|
      invariant i + CommentStart(line[i..], quote, escaped) == CommentStart(line, None, false)
    {
      var c := line[i];
      assert line[i..][0] == c && line[i..][1..] == line[i + 1..];
      if escaped {
        escaped := false;
        continue;
      }
      if c == '\\' {
        escaped := true;
        continue;
      }
      if c == '"' || c == '\'' {
        if quote.Some? {
          if quote == Some(c) { quote := None; }
        } else {
          quote := Some(c);
        }
      }
      if c == '#' && quote.None? {
        return line[..i];
      }
    }
    assert line[|line|..] == [] && line[..|line|] == line;
    return line;
  }

  /** `strip_wrapping_quotes`. */
  function StripWrappingQuotes(s: string): string {
    if |s| >= 2 && s[0] == s[|s| - 1] && (s[0] == '"' || s[0] == '\'') then s[1..|s| - 1] else s
  }

  predicate IsDelimiter(c: char) {
    IsWhitespace(c) || c == '='
  }

  function DropDelimiters(s: string): (t: string)
    ensures |t| <= |s|
  {
    if s != [] && IsDelimiter(s[0]) then DropDelimiters(s[1..]) else s
  }

  /** The length of the keyword that a line starts with. */
  function KeyLength(s: string): (i: nat)
    ensures i <= |s|
  {
    if s == [] || IsDelimiter(s[0]) then 0 else 1 + KeyLength(s[1..])
  }

  datatype Setting = Setting(key: string, value: string)

  /** The setting on a line, if it holds one. */
  function ReadLine(line: string): Option<Setting> {
    var s := Trim(WithoutComment(line));
    if s == [] || s[0] == '#' then None else
      var i := KeyLength(s);
      Some(Setting(ToAsciiLower(s[..i]), StripWrappingQuotes(Trim(DropDelimiters(s[i..])))))
  }

  // ----- The hosts -----

  type U16 = n: nat | n <= MAX_U16

  /** `ParsedSshConnection`. */
  datatype Host = Host(
    id: string, name: string, host: string, username: string, port: U16, privateKeyPath: Option<string>,
    jumpAlias: Option<string>, jumpId: Option<string>, aliases: seq<string>)

  /** What the parser takes from its surroundings. `newIds` gives the identifiers of the hosts in order. */
  datatype Surroundings = Surroundings(user: string, home: Option<string>, newIds: nat -> string)

  /** `split_whitespace`. */
  function Words(s: string): seq<string>
    decreases |s|
  {
    var t := TrimStart(s);
    if t == [] then [] else
      var n := WordLength(t);
      [t[..n]] + Words(t[n..])
  }

  function WordLength(s: string): (n: nat)
    ensures n <= |s|
    ensures s != [] && !IsWhitespace(s[0]) ==> n > 0
  {
    if s == [] || IsWhitespace(s[0]) then 0 else 1 + WordLength(s[1..])
  }

  function NewHost(value: string, user: string): Host {
    var alias := if Words(value) == [] then value else Words(value)[0];
    Host("", alias, alias, user, 22, None, None, None, Words(value))
  }

  /** A leading tilde stands for the home directory, if that is known. */
  function ExpandTilde(path: string, home: Option<string>): string {
    if path != [] && path[0] == '~' && home.Some? then home.value + path[1..] else path
  }

  /** A setting inside a host block. */
  function Set(h: Host, s: Setting, home: Option<string>): Host {
    if s.key == "hostname" then h.(host := s.value)
    else if s.key == "user" then h.(username := s.value)
    else if s.key == "port" then
      match ParseUnsigned(s.value, MAX_U16)
      case Some(p) => h.(port := p)
      case None => h
    else if s.key == "identityfile" then h.(privateKeyPath := Some(ExpandTilde(s.value, home)))
    else if s.key == "proxyjump" then h.(jumpAlias := Some(s.value))
    else h
  }

  predicate IsWildcard(name: string) {
    '*' in name || '?' in name
  }

  /** Hands a finished block over; wildcard blocks are dropped. */
  function Push(hosts: seq<Host>, current: Option<Host>, newIds: nat -> string): seq<Host> {
    if current.None? || IsWildcard(current.value.name) then hosts
    else hosts + [current.value.(id := newIds(|hosts|))]
  }

  /** The rest of the lines, after some hosts and inside the current one. */
  function ParseLines(lines: seq<string>, hosts: seq<Host>, current: Option<Host>, around: Surroundings): seq<Host> {
    if lines == [] then Push(hosts, current, around.newIds) else
      match ReadLine(lines[0])
      case None => ParseLines(lines[1..], hosts, current, around)
      case Some(s) =>
        if s.key == "host" then
          ParseLines(lines[1..], Push(hosts, current, around.newIds), Some(NewHost(s.value, around.user)), around)
        else
          ParseLines(lines[1..], hosts, if current.Some? then Some(Set(current.value, s, around.home)) else None,
                     around)
  }

  /** The identifier of the first host that has this alias. */
  function FirstWithAlias(hosts: seq<Host>, alias: string): Option<string> {
    if hosts == [] then None
    else if alias in hosts[0].aliases then Some(hosts[0].id)
    else FirstWithAlias(hosts[1..], alias)
  }

  function Resolve(h: Host, hosts: seq<Host>): Host {
    if h.jumpAlias.Some? && FirstWithAlias(hosts, h.jumpAlias.value).Some? then
      h.(jumpId := FirstWithAlias(hosts, h.jumpAlias.value))
    else h
  }

  function ResolveAll(hosts: seq<Host>): seq<Host> {
    seq(|hosts|, i requires 0 <= i < |hosts| => Resolve(hosts[i], hosts))
  }

  /** `parse_config_text`. */
  function ParseConfigText(content: string, around: Surroundings): seq<Host> {
    ResolveAll(ParseLines(Lines(content), [], None, around))
  }

  // ----- The imperative form -----

  method ReadSetting(line: string) returns (setting: Option<Setting>)
    ensures setting == ReadLine(line)
  {
    var stripped := StripInlineComments(line);
    var s := Trim(stripped);
    if s == [] || s[0] == '#' { return None; }
    var i := KeyLength(s);
    return Some(Setting(ToAsciiLower(s[..i]), StripWrappingQuotes(Trim(DropDelimiters(s[i..])))));
  }

  method ReadHosts(content: string, around: Surroundings) returns (hosts: seq<Host>)
    ensures hosts == ParseLines(Lines(content), [], None, around)
  {
    hide ReadLine, Lines, NewHost, Set, Push;
    hosts := [];
    var current: Option<Host> := None;
    var lines := Lines(content);
    assert lines[0..] == lines;
    for i := 0 to |lines|
      invariant ParseLines(lines[i..], hosts, current, around) == ParseLines(lines, [], None, around)
    {
      assert lines[i..][0] == lines[i] && lines[i..][1..] == lines[i + 1..];
      var setting := ReadSetting(lines[i]);
      if setting.Some? {
        if setting.value.key == "host" {
          hosts := Push(hosts, current, around.newIds);
          current := Some(NewHost(setting.value.value, around.user));
        } else if current.Some? {
          current := Some(Set(current.value, setting.value, around.home));
        }
      }
    }
    assert lines[|lines|..] == [];
    hosts := Push(hosts, current, around.newIds);
  }

  /** The map from aliases to identifiers says what searching the hosts says. */
  ghost predicate IsAliasMap(ids: map<string, string>, hosts: seq<Host>) {
    forall alias :: (alias in ids <==> FirstWithAlias(hosts, alias).Some?)
                    && (alias in ids ==> FirstWithAlias(hosts, alias) == Some(ids[alias]))
  }

  lemma {:induction false} FirstWithAliasAppended(hosts: seq<Host>, last: Host, alias: string)
    ensures FirstWithAlias(hosts + [last], alias)
         == if FirstWithAlias(hosts, alias).Some? then FirstWithAlias(hosts, alias)
            else if alias in last.aliases then Some(last.id) else None
  {
    if hosts == [] {
      assert hosts + [last] == [last];
    } else {
      assert (hosts + [last])[1..] == hosts[1..] + [last];
      FirstWithAliasAppended(hosts[1..], last, alias);
    }
  }

  /** The first pass of the resolution. */
  method CollectAliases(hosts: seq<Host>) returns (ids: map<string, string>)
    ensures IsAliasMap(ids, hosts)
  {
    ids := map[];
    for i := 0 to |hosts|
      invariant IsAliasMap(ids, hosts[..i])
    {
      ghost var before := ids;
      var h := hosts[i];
      for j := 0 to |h.aliases|
        invariant forall alias :: alias in ids <==> alias in before || alias in h.aliases[..j]
        invariant forall alias :: alias in ids ==> ids[alias] == if alias in before then before[alias] else h.id
      {
        if h.aliases[j] !in ids {
          ids := ids[h.aliases[j] := h.id];
        }
      }
      assert h.aliases[..|h.aliases|] == h.aliases;
      assert hosts[..i + 1] == hosts[..i] + [h];
      forall alias
        ensures FirstWithAlias(hosts[..i + 1], alias)
             == if alias in before then Some(before[alias]) else if alias in h.aliases then Some(h.id) else None
      {
        FirstWithAliasAppended(hosts[..i], h, alias);
      }
    }
    assert hosts[..|hosts|] == hosts;
  }

  /** The parser with its two passes. */
  method ParseConfig(content: string, around: Surroundings) returns (connections: seq<Host>)
    ensures connections == ParseConfigText(content, around)
  {
    hide ParseLines, Lines;
    var hosts := ReadHosts(content, around);
    var ids := CollectAliases(hosts);
    connections := hosts;
    for i := 0 to |hosts|
      invariant |connections| == |hosts|
      invariant forall k :: 0 <= k < i ==> connections[k] == Resolve(hosts[k], hosts)
      invariant forall k :: i <= k < |hosts| ==> connections[k] == hosts[k]
    {
      var alias := hosts[i].jumpAlias;
      if alias.Some? && alias.value in ids {
        connections := connections[i := hosts[i].(jumpId := Some(ids[alias.value]))];
      }
    }
  }
}
