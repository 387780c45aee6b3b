/** Importing an exported OpenSSH client configuration. */
module SshConfigRoundTrip {
  import opened Wrappers
  import opened Text
  import opened Numbers
  import S = SshConfig
  import E = SshConfigExport

  // ----- What becomes of a value -----

  function Value(s: string): string {
    Trim(S.DropDelimiters(s))
  }

  /** What the parser makes of a value written after a keyword. */
  function ReadValue(v: string): string {
    S.StripWrappingQuotes(Value(S.WithoutComment(v)))
  }

  /** A value without a comment outside quotes, without margin, not beginning with an equals sign and not wrapped in
      quotes. */
  predicate IsPlain(v: string) {
    S.WithoutComment(v) == v && IsTrimmed(v) && (v == [] || v[0] != '=') && S.StripWrappingQuotes(v) == v
  }

  lemma TrimShortens(s: string)
    ensures |Trim(s)| <= |s| && (|Trim(s)| == |s| ==> Trim(s) == s)
  {
  }

  /** A value comes back as it was exactly when it is plain. */
  lemma ValueIsKept(v: string)
    ensures ReadValue(v) == v <==> IsPlain(v)
  {
    hide Trim, IsTrimmed;
    var w := S.WithoutComment(v);
    TrimShortens(S.DropDelimiters(w));
    TrimIsIdentity(v);
    assert v != [] && IsTrimmed(v) ==> !IsWhitespace(v[0]) by { TrimmedStart(v); }
    if ReadValue(v) == v {
      assert |w| == |v| && w == v;
      assert S.DropDelimiters(v) == v;
      assert Trim(v) == v;
    }
  }

  lemma TrimmedStart(v: string)
    ensures v != [] && IsTrimmed(v) ==> !IsWhitespace(v[0])
  {
  }

  // ----- A line -----

  /** A word that neither the comment scan nor the search for the end of the keyword stops at. */
  predicate IsKeyword(key: string) {
    key != [] && forall i :: 0 <= i < |key| ==> 'a' <= key[i] <= 'z' || 'A' <= key[i] <= 'Z'
  }

  predicate IsUnmarked(s: string) {
    forall i :: 0 <= i < |s| ==> s[i] != '"' && s[i] != '\'' && s[i] != '\\' && s[i] != '#'
  }

  lemma {:induction false} CommentAfter(prefix: string, s: string)
    requires IsUnmarked(prefix)
    ensures S.WithoutComment(prefix + s) == prefix + S.WithoutComment(s)
  {
    CommentStartAfter(prefix, s);
  }

  lemma {:induction false} CommentStartAfter(prefix: string, s: string)
    requires IsUnmarked(prefix)
    ensures S.CommentStart(prefix + s, None, false) == |prefix| + S.CommentStart(s, None, false)
  {
    if prefix == [] {
      assert prefix + s == s;
    } else {
      assert (prefix + s)[1..] == prefix[1..] + s;
      CommentStartAfter(prefix[1..], s);
    }
  }

  lemma {:induction false} TrimEndAfter(a: string, w: string)
    ensures TrimEnd(a + w) == if AllWhitespace(w) then TrimEnd(a) else a + TrimEnd(w)
  {
    if w == [] {
      assert a + w == a;
    } else {
      var x := w[..|w| - 1];
      assert (a + w)[..|a + w| - 1] == a + x;
      assert AllWhitespace(w) <==> AllWhitespace(x) && IsWhitespace(w[|w| - 1]);
      TrimEndAfter(a, x);
    }
  }

  lemma {:induction false} KeyLengthOf(key: string, rest: string)
    requires IsKeyword(key) && (rest == [] || rest[0] == ' ')
    ensures S.KeyLength(key + rest) == |key|
  {
    assert !S.IsDelimiter(key[0]);
    assert (key + rest)[1..] == key[1..] + rest;
    if |key| > 1 {
      KeyLengthOf(key[1..], rest);
    } else {
      assert key[1..] + rest == rest;
    }
  }

  lemma {:induction false} BlankValue(w: string)
    requires AllWhitespace(w)
    ensures Value(w) == []
  {
    if w != [] { BlankValue(w[1..]); }
  }

  lemma {:induction false} DropBeforeSpace(s: string, c: char)
    requires IsWhitespace(c)
    ensures || (S.DropDelimiters(s + [c]) == [] && S.DropDelimiters(s) == [])
            || S.DropDelimiters(s + [c]) == S.DropDelimiters(s) + [c]
  {
    hide IsWhitespace;
    if s == [] {
      assert s + [c] == [c] && [c][1..] == [];
    } else {
      assert (s + [c])[1..] == s[1..] + [c];
      DropBeforeSpace(s[1..], c);
    }
  }

  lemma {:induction false} ValueIgnoresEnd(w: string)
    ensures Value(TrimEnd(w)) == Value(w)
  {
    hide Trim, S.DropDelimiters;
    if w != [] && IsWhitespace(w[|w| - 1]) {
      var x, c := w[..|w| - 1], w[|w| - 1];
      assert w == x + [c];
      ValueIgnoresEnd(x);
      DropBeforeSpace(x, c);
      TrimIgnoresMargin(S.DropDelimiters(x), c);
    }
  }

  lemma ValueIgnoresSpace(w: string)
    ensures Value([' '] + w) == Value(w)
  {
    hide Trim;
    assert ([' '] + w)[1..] == w;
  }

  lemma KeywordHasNoMargin(key: string, rest: string)
    requires IsKeyword(key)
    ensures TrimStart(key + rest) == key + rest && TrimEnd(key + [' ']) == key && IsWhitespace(' ')
  {
    assert !IsWhitespace(key[0]) && !IsWhitespace(key[|key| - 1]);
    assert (key + rest)[0] == key[0] && (key + [' '])[..|key|] == key;
  }

  lemma TrimLine(margin: string, key: string, w: string)
    requires AllWhitespace(margin) && IsKeyword(key)
    ensures Trim(margin + (key + ([' '] + w))) == key + (if AllWhitespace(w) then [] else [' '] + TrimEnd(w))
  {
    hide TrimStart, TrimEnd, IsWhitespace, AllWhitespace, IsKeyword;
    TrimStartDropsMargin(margin, key + ([' '] + w));
    KeywordHasNoMargin(key, [' '] + w);
    TrimLineEnd(key, w);
  }

  lemma TrimLineEnd(key: string, w: string)
    requires IsKeyword(key)
    ensures TrimEnd(key + ([' '] + w)) == key + (if AllWhitespace(w) then [] else [' '] + TrimEnd(w))
  {
    hide TrimStart, TrimEnd, IsWhitespace, AllWhitespace, IsKeyword;
    Associates(key, [' '], w);
    TrimEndAfter(key + [' '], w);
    if AllWhitespace(w) {
      KeywordHasNoMargin(key, []);
    } else {
      Associates(key, [' '], TrimEnd(w));
    }
  }

  lemma Associates(a: string, b: string, c: string)
    ensures a + (b + c) == a + b + c
  {
  }

  /** A line made of a margin, a keyword, a space and a value is read as that keyword and what becomes of the value. */
  lemma SettingLine(margin: string, key: string, v: string)
    requires AllWhitespace(margin) && IsUnmarked(margin) && IsKeyword(key)
    ensures S.ReadLine(margin + (key + ([' '] + v))) == Some(S.Setting(ToAsciiLower(key), ReadValue(v)))
  {
    hide Trim, TrimEnd, S.WithoutComment, S.KeyLength, S.DropDelimiters, ToAsciiLower, S.StripWrappingQuotes,
         IsWhitespace;
    var w := S.WithoutComment(v);
    var prefix := margin + (key + [' ']);
    KeyIsUnmarked(margin, key);
    CommentAfter(prefix, v);
    assert margin + (key + ([' '] + v)) == prefix + v;
    assert margin + (key + ([' '] + w)) == prefix + w;
    TrimLine(margin, key, w);
    var rest := if AllWhitespace(w) then [] else [' '] + TrimEnd(w);
    var s := key + rest;
    KeyLengthOf(key, rest);
    assert s[..|key|] == key && s[|key|..] == rest;
    assert s[0] == key[0] && key[0] != '#';
    if AllWhitespace(w) {
      BlankValue(w);
      BlankValue([]);
    } else {
      ValueIgnoresSpace(TrimEnd(w));
      ValueIgnoresEnd(w);
    }
  }

  lemma KeyIsUnmarked(margin: string, key: string)
    requires IsUnmarked(margin) && IsKeyword(key)
    ensures IsUnmarked(margin + (key + [' ']))
  {
  }

  // ----- A block -----

  /** The parse after a line with this setting. */
  function AfterSetting(s: S.Setting, rest: seq<string>, hosts: seq<S.Host>, current: Option<S.Host>,
                        around: S.Surroundings): seq<S.Host> {
    if s.key == "host" then
      S.ParseLines(rest, S.Push(hosts, current, around.newIds), Some(S.NewHost(s.value, around.user)), around)
    else
      S.ParseLines(rest, hosts, if current.Some? then Some(S.Set(current.value, s, around.home)) else None, around)
  }

  lemma AtSetting(line: string, rest: seq<string>, hosts: seq<S.Host>, current: Option<S.Host>, around: S.Surroundings,
                  s: S.Setting)
    ensures S.ReadLine(line) == Some(s)
            ==> S.ParseLines([line] + rest, hosts, current, around) == AfterSetting(s, rest, hosts, current, around)
  {
    hide S.ReadLine, S.NewHost, S.Set, S.Push;
    assert ([line] + rest)[1..] == rest;
  }

  lemma AtBlank(rest: seq<string>, hosts: seq<S.Host>, current: Option<S.Host>, around: S.Surroundings)
    ensures S.ParseLines([""] + rest, hosts, current, around) == S.ParseLines(rest, hosts, current, around)
  {
    assert ([""] + rest)[1..] == rest;
    assert S.WithoutComment("") == "" && Trim("") == "";
  }

  /** The keywords of the exporter, as the parser lowers them. */
  lemma Keywords()
    ensures IsKeyword("Host") && ToAsciiLower("Host") == "host"
    ensures IsKeyword("HostName") && ToAsciiLower("HostName") == "hostname"
    ensures IsKeyword("User") && ToAsciiLower("User") == "user"
    ensures IsKeyword("Port") && ToAsciiLower("Port") == "port"
  {
  }

  lemma LongKeywords()
    ensures IsKeyword("IdentityFile") && ToAsciiLower("IdentityFile") == "identityfile"
    ensures IsKeyword("ProxyJump") && ToAsciiLower("ProxyJump") == "proxyjump"
  {
  }

  lemma FirstLines(v: string)
    ensures S.ReadLine("Host " + v) == Some(S.Setting("host", ReadValue(v)))
    ensures S.ReadLine("  HostName " + v) == Some(S.Setting("hostname", ReadValue(v)))
    ensures S.ReadLine("  User " + v) == Some(S.Setting("user", ReadValue(v)))
    ensures S.ReadLine("  Port " + v) == Some(S.Setting("port", ReadValue(v)))
  {
    hide S.ReadLine, ReadValue, ToAsciiLower, IsKeyword;
    Keywords();
    Margins();
    SettingLine("", "Host", v);
    assert "Host " + v == "" + ("Host" + ([' '] + v));
    SettingLine("  ", "HostName", v);
    assert "  HostName " + v == "  " + ("HostName" + ([' '] + v));
    SettingLine("  ", "User", v);
    assert "  User " + v == "  " + ("User" + ([' '] + v));
    SettingLine("  ", "Port", v);
    assert "  Port " + v == "  " + ("Port" + ([' '] + v));
  }

  lemma OptionalLines(v: string)
    ensures S.ReadLine("  IdentityFile " + v) == Some(S.Setting("identityfile", ReadValue(v)))
    ensures S.ReadLine("  ProxyJump " + v) == Some(S.Setting("proxyjump", ReadValue(v)))
  {
    hide S.ReadLine, ReadValue, ToAsciiLower, IsKeyword;
    LongKeywords();
    Margins();
    SettingLine("  ", "IdentityFile", v);
    assert "  IdentityFile " + v == "  " + ("IdentityFile" + ([' '] + v));
    SettingLine("  ", "ProxyJump", v);
    assert "  ProxyJump " + v == "  " + ("ProxyJump" + ([' '] + v));
  }

  lemma Margins()
    ensures AllWhitespace("") && IsUnmarked("") && AllWhitespace("  ") && IsUnmarked("  ")
  {
  }

  /** An alias that is one word to the parser and no pattern. */
  predicate IsAliasWord(a: string) {
    a != [] && IsPlain(a) && !S.IsWildcard(a) && forall i :: 0 <= i < |a| ==> !IsWhitespace(a[i])
  }

  lemma {:induction false} WordLengthOf(a: string)
    requires forall i :: 0 <= i < |a| ==> !IsWhitespace(a[i])
    ensures S.WordLength(a) == |a|
  {
    if a != [] { WordLengthOf(a[1..]); }
  }

  lemma OneWord(a: string)
    requires IsAliasWord(a)
    ensures S.Words(a) == [a] && ReadValue(a) == a
  {
    hide IsWhitespace, IsPlain, ReadValue;
    WordLengthOf(a);
    ValueIsKept(a);
    assert a[..|a|] == a && a[|a|..] == [] && S.Words([]) == [];
  }

  /** The key path that an exported connection comes back with. */
  function KeyOf(c: E.Connection, around: S.Surroundings): Option<string> {
    if c.privateKeyPath.Some? && Trim(c.privateKeyPath.value) != [] then
      Some(S.ExpandTilde(ReadValue(c.privateKeyPath.value), around.home))
    else None
  }

  function JumpOf(connections: seq<E.Connection>, c: E.Connection): Option<string> {
    if c.jumpServerId.Some? then E.AliasById(connections, c.jumpServerId.value) else None
  }

  /** What the block of a connection is read as. */
  function HostOf(connections: seq<E.Connection>, c: E.Connection, around: S.Surroundings): S.Host {
    var alias := E.AliasOf(connections, c);
    S.Host("", alias, ReadValue(c.host), ReadValue(c.username), c.port, KeyOf(c, around), JumpOf(connections, c), None,
           [alias])
  }

  lemma KeyRead(c: E.Connection, rest: seq<string>, hosts: seq<S.Host>, h: S.Host, around: S.Surroundings)
    requires h.privateKeyPath.None?
    ensures S.ParseLines(E.KeyLines(c) + rest, hosts, Some(h), around)
         == S.ParseLines(rest, hosts, Some(h.(privateKeyPath := KeyOf(c, around))), around)
  {
    hide S.ReadLine, S.ParseLines, S.ExpandTilde, ReadValue, Trim;
    if E.KeyLines(c) == [] {
      assert E.KeyLines(c) + rest == rest;
    } else {
      OptionalLines(c.privateKeyPath.value);
      AtSetting("  IdentityFile " + c.privateKeyPath.value, rest, hosts, Some(h), around,
                S.Setting("identityfile", ReadValue(c.privateKeyPath.value)));
    }
  }

  lemma JumpRead(connections: seq<E.Connection>, c: E.Connection, rest: seq<string>, hosts: seq<S.Host>, h: S.Host,
                 around: S.Surroundings)
    requires h.jumpAlias.None?
    requires JumpOf(connections, c).Some? ==> IsAliasWord(JumpOf(connections, c).value)
    ensures S.ParseLines(E.JumpLines(connections, c) + rest, hosts, Some(h), around)
         == S.ParseLines(rest, hosts, Some(h.(jumpAlias := JumpOf(connections, c))), around)
  {
    hide S.ReadLine, S.ParseLines, ReadValue, IsAliasWord, E.AliasById;
    if E.JumpLines(connections, c) == [] {
      assert E.JumpLines(connections, c) + rest == rest;
    } else {
      var alias := JumpOf(connections, c).value;
      OptionalLines(alias);
      OneWord(alias);
      AtSetting("  ProxyJump " + alias, rest, hosts, Some(h), around, S.Setting("proxyjump", ReadValue(alias)));
    }
  }

  function HeadLines(connections: seq<E.Connection>, c: E.Connection, rest: seq<string>): seq<string> {
    ["Host " + E.AliasOf(connections, c)]
    + (["  HostName " + c.host] + (["  User " + c.username] + (["  Port " + ToDecimal(c.port)] + rest)))
  }

  /** The four lines that every block has. */
  lemma HeadRead(connections: seq<E.Connection>, c: E.Connection, rest: seq<string>, hosts: seq<S.Host>,
                 current: Option<S.Host>, around: S.Surroundings)
    requires IsAliasWord(E.AliasOf(connections, c))
    ensures S.ParseLines(HeadLines(connections, c, rest), hosts, current, around)
         == S.ParseLines(rest, S.Push(hosts, current, around.newIds),
                         Some(HostOf(connections, c, around).(privateKeyPath := None, jumpAlias := None)), around)
  {
    hide S.ReadLine, S.ParseLines, S.Push, S.Words, ReadValue, IsAliasWord, E.AliasOf, ToDecimal, ParseUnsigned, KeyOf,
         JumpOf;
    var alias := E.AliasOf(connections, c);
    var port := ToDecimal(c.port);
    FirstLines(alias);
    FirstLines(c.host);
    FirstLines(c.username);
    FirstLines(port);
    OneWord(alias);
    PortRead(c.port);
    var pushed := S.Push(hosts, current, around.newIds);
    var r3 := ["  Port " + port] + rest;
    var r2 := ["  User " + c.username] + r3;
    var r1 := ["  HostName " + c.host] + r2;
    var h0 := S.NewHost(alias, around.user);
    AtSetting("Host " + alias, r1, hosts, current, around, S.Setting("host", alias));
    var h1 := h0.(host := ReadValue(c.host));
    AtSetting("  HostName " + c.host, r2, pushed, Some(h0), around, S.Setting("hostname", ReadValue(c.host)));
    var h2 := h1.(username := ReadValue(c.username));
    AtSetting("  User " + c.username, r3, pushed, Some(h1), around, S.Setting("user", ReadValue(c.username)));
    AtSetting("  Port " + port, rest, pushed, Some(h2), around, S.Setting("port", port));
  }

  lemma PortRead(port: E.U16)
    ensures ReadValue(ToDecimal(port)) == ToDecimal(port) && ParseUnsigned(ToDecimal(port), MAX_U16) == Some(port)
  {
    hide ReadValue, ToDecimal;
    DecimalReadsBack(port, MAX_U16);
    DecimalIsPlain(port);
    DigitsArePlain(ToDecimal(port));
  }

  lemma DigitsArePlain(s: string)
    requires s != [] && IsTrimmed(s) && forall c :: !IsDigit(c) ==> c !in s
    ensures ReadValue(s) == s
  {
    hide ReadValue, S.WithoutComment;
    forall i | 0 <= i < |s| ensures IsDigit(s[i]) {
      assert s[i] in s;
    }
    CommentAfter(s, []);
    assert s + [] == s && S.WithoutComment([]) == [] by { NoComment(); }
    ValueIsKept(s);
  }

  lemma NoComment()
    ensures S.WithoutComment([]) == []
  {
  }

  /** The values that an exported connection hands to the parser are single lines, and its alias is a word. */
  predicate IsWritable(connections: seq<E.Connection>, c: E.Connection) {
    && IsAliasWord(E.AliasOf(connections, c))
    && IsLine(c.host) && IsLine(c.username) && (c.privateKeyPath.Some? ==> IsLine(c.privateKeyPath.value))
    && (JumpOf(connections, c).Some? ==> IsAliasWord(JumpOf(connections, c).value))
  }

  lemma BlockRead(connections: seq<E.Connection>, c: E.Connection, rest: seq<string>, hosts: seq<S.Host>,
                  current: Option<S.Host>, around: S.Surroundings)
    requires IsWritable(connections, c)
    ensures S.ParseLines(E.Block(connections, c) + rest, hosts, current, around)
         == S.ParseLines(rest, S.Push(hosts, current, around.newIds), Some(HostOf(connections, c, around)), around)
  {
    hide S.ParseLines, S.Push, ReadValue, IsAliasWord, E.AliasOf, ToDecimal, KeyOf, JumpOf, E.KeyLines, E.JumpLines;
    var jump := E.JumpLines(connections, c) + ([""] + rest);
    var tail := E.KeyLines(c) + jump;
    assert E.Block(connections, c) + rest == HeadLines(connections, c, tail);
    var pushed := S.Push(hosts, current, around.newIds);
    var h := HostOf(connections, c, around);
    HeadRead(connections, c, tail, hosts, current, around);
    KeyRead(c, jump, pushed, h.(privateKeyPath := None, jumpAlias := None), around);
    JumpRead(connections, c, [""] + rest, pushed, h.(jumpAlias := None), around);
    AtBlank(rest, pushed, Some(h), around);
  }

  // ----- The file -----

  /** The hosts that some of the connections are read as, the first one with the `k`-th new identifier. */
  function HostsOf(connections: seq<E.Connection>, some: seq<E.Connection>, around: S.Surroundings, k: nat)
    : (hosts: seq<S.Host>)
    ensures |hosts| == |some|
  {
    seq(|some|, i requires 0 <= i < |some| => HostOf(connections, some[i], around).(id := around.newIds(k + i)))
  }

  lemma HostsOfFirst(connections: seq<E.Connection>, some: seq<E.Connection>, around: S.Surroundings, k: nat)
    requires some != []
    ensures HostsOf(connections, some, around, k)
         == [HostOf(connections, some[0], around).(id := around.newIds(k))]
            + HostsOf(connections, some[1..], around, k + 1)
  {
    hide HostOf;
  }

  lemma {:induction false} BlocksRead(connections: seq<E.Connection>, some: seq<E.Connection>, hosts: seq<S.Host>,
                                      current: S.Host, around: S.Surroundings)
    requires forall i :: 0 <= i < |some| ==> IsWritable(connections, some[i])
    requires !S.IsWildcard(current.name)
    ensures S.ParseLines(E.Blocks(connections, some), hosts, Some(current), around)
         == hosts + [current.(id := around.newIds(|hosts|))] + HostsOf(connections, some, around, |hosts| + 1)
    decreases |some|
  {
    hide IsWritable, HostOf, E.Block, S.ParseLines, HostsOf, S.IsWildcard;
    var pushed := hosts + [current.(id := around.newIds(|hosts|))];
    if some == [] {
      NoLines(hosts, Some(current), around);
      assert HostsOf(connections, some, around, |hosts| + 1) == [];
    } else {
      var next := HostOf(connections, some[0], around);
      BlockRead(connections, some[0], E.Blocks(connections, some[1..]), hosts, Some(current), around);
      NameIsWord(connections, some[0], around);
      BlocksRead(connections, some[1..], pushed, next, around);
      HostsOfFirst(connections, some, around, |hosts| + 1);
    }
  }

  lemma NoLines(hosts: seq<S.Host>, current: Option<S.Host>, around: S.Surroundings)
    ensures S.ParseLines([], hosts, current, around) == S.Push(hosts, current, around.newIds)
  {
  }

  lemma NameIsWord(connections: seq<E.Connection>, c: E.Connection, around: S.Surroundings)
    requires IsWritable(connections, c)
    ensures !S.IsWildcard(HostOf(connections, c, around).name)
  {
  }

  lemma FileRead(connections: seq<E.Connection>, around: S.Surroundings)
    requires forall i :: 0 <= i < |connections| ==> IsWritable(connections, connections[i])
    ensures S.ParseLines(E.Blocks(connections, connections), [], None, around)
         == HostsOf(connections, connections, around, 0)
  {
    hide IsWritable, HostOf, E.Block, HostsOf, S.IsWildcard, S.ParseLines;
    if connections == [] {
      NoLines([], None, around);
      assert HostsOf(connections, connections, around, 0) == [];
    } else {
      HostsOfFirst(connections, connections, around, 0);
      var first, rest := connections[0], connections[1..];
      BlockRead(connections, first, E.Blocks(connections, rest), [], None, around);
      NameIsWord(connections, first, around);
      BlocksRead(connections, rest, [], HostOf(connections, first, around), around);
    }
  }

  lemma BlockIsLines(connections: seq<E.Connection>, c: E.Connection)
    requires IsWritable(connections, c)
    ensures forall i :: 0 <= i < |E.Block(connections, c)| ==> IsLine(E.Block(connections, c)[i])
  {
    hide IsWhitespace, Trim, ToDecimal, E.AliasOf, IsLine, S.IsWildcard, IsAliasWord;
    var alias := E.AliasOf(connections, c);
    WordIsLine(alias);
    PrefixedIsLine("Host ", alias);
    PrefixedIsLine("  HostName ", c.host);
    PrefixedIsLine("  User ", c.username);
    DecimalIsLine(c.port);
    PrefixedIsLine("  Port ", ToDecimal(c.port));
    if c.privateKeyPath.Some? { PrefixedIsLine("  IdentityFile ", c.privateKeyPath.value); }
    if JumpOf(connections, c).Some? {
      WordIsLine(JumpOf(connections, c).value);
      PrefixedIsLine("  ProxyJump ", JumpOf(connections, c).value);
    }
    assert IsLine("") by { EmptyIsLine(); }
  }

  lemma EmptyIsLine()
    ensures IsLine("")
  {
  }

  lemma PrefixedIsLine(prefix: string, v: string)
    requires prefix != [] && NoChar(prefix, '\n') && prefix[|prefix| - 1] == ' ' && IsLine(v)
    ensures IsLine(prefix + v)
  {
  }

  lemma WordIsLine(a: string)
    requires IsAliasWord(a)
    ensures IsLine(a)
  {
    assert IsWhitespace('\n') && IsWhitespace('\r');
  }

  lemma DecimalIsLine(n: nat)
    ensures IsLine(ToDecimal(n))
  {
    hide ToDecimal;
    DecimalIsPlain(n);
    assert !IsDigit('\n') && !IsDigit('\r');
  }

  lemma {:induction false} BlocksAreLines(connections: seq<E.Connection>, some: seq<E.Connection>)
    requires forall i :: 0 <= i < |some| ==> IsWritable(connections, some[i])
    ensures forall i :: 0 <= i < |E.Blocks(connections, some)| ==> IsLine(E.Blocks(connections, some)[i])
  {
    hide IsWritable, E.Block, IsLine;
    if some != [] {
      BlockIsLines(connections, some[0]);
      BlocksAreLines(connections, some[1..]);
    }
  }

  /** Reading an exported file gives, in order, one host for every connection: its alias, its values as the parser reads
      them, and the alias of its jump host. */
  lemma ImportOfExport(connections: seq<E.Connection>, around: S.Surroundings)
    requires forall i :: 0 <= i < |connections| ==> IsWritable(connections, connections[i])
    ensures S.ParseConfigText(E.BuildSshConfigExport(connections), around)
         == S.ResolveAll(HostsOf(connections, connections, around, 0))
  {
    hide IsWritable, E.Block, IsLine, S.ParseLines, Lines, Terminated, S.ResolveAll, HostsOf, E.Blocks;
    BlocksAreLines(connections, connections);
    LinesOfTerminated(E.Blocks(connections, connections));
    FileRead(connections, around);
  }

  // ----- What a user sees -----

  /** Identifiers are distinct. */
  predicate DistinctIds(connections: seq<E.Connection>) {
    forall i, j :: 0 <= i < j < |connections| ==> connections[i].id != connections[j].id
  }

  lemma {:induction false} AliasOfId(connections: seq<E.Connection>, j: nat)
    requires DistinctIds(connections) && j < |connections|
    ensures E.AliasById(connections, connections[j].id) == Some(E.BuildHostAlias(connections[j]))
  {
    hide E.BuildHostAlias;
    var n := |connections| - 1;
    if j < n { AliasOfId(connections[..n], j); }
  }

  lemma {:induction false} NoAliasOfId(connections: seq<E.Connection>, id: string)
    requires forall j :: 0 <= j < |connections| ==> connections[j].id != id
    ensures E.AliasById(connections, id) == None
  {
    hide E.BuildHostAlias;
    if connections != [] { NoAliasOfId(connections[..|connections| - 1], id); }
  }

  /** The first connection that is written under this alias. */
  predicate IsFirstWithAlias(connections: seq<E.Connection>, j: nat, alias: string) {
    && j < |connections| && E.BuildHostAlias(connections[j]) == alias
    && forall k :: 0 <= k < j ==> E.BuildHostAlias(connections[k]) != alias
  }

  lemma {:induction false} FirstHost(hosts: seq<S.Host>, j: nat, alias: string)
    requires j < |hosts| && alias in hosts[j].aliases && forall k :: 0 <= k < j ==> alias !in hosts[k].aliases
    ensures S.FirstWithAlias(hosts, alias) == Some(hosts[j].id)
  {
    if j > 0 { FirstHost(hosts[1..], j - 1, alias); }
  }

  lemma OwnAlias(connections: seq<E.Connection>, i: nat)
    requires DistinctIds(connections) && i < |connections|
    ensures E.AliasOf(connections, connections[i]) == E.BuildHostAlias(connections[i])
  {
    AliasOfId(connections, i);
  }

  /** The connections can be written: single-line values, and aliases that are words. */
  predicate AllWritable(connections: seq<E.Connection>) {
    forall i :: 0 <= i < |connections| ==>
      var c := connections[i];
      && IsAliasWord(E.BuildHostAlias(c)) && IsLine(c.host) && IsLine(c.username)
      && (c.privateKeyPath.Some? ==> IsLine(c.privateKeyPath.value))
  }

  lemma WritableOneByOne(connections: seq<E.Connection>, i: nat)
    requires DistinctIds(connections) && AllWritable(connections) && i < |connections|
    ensures IsWritable(connections, connections[i])
  {
    hide E.BuildHostAlias, IsAliasWord, IsLine;
    OwnAlias(connections, i);
    var c := connections[i];
    if c.jumpServerId.Some? {
      var id := c.jumpServerId.value;
      if j: nat :| j < |connections| && connections[j].id == id {
        AliasOfId(connections, j);
      } else {
        NoAliasOfId(connections, id);
      }
    }
  }

  /** The `i`-th host of the imported file. */
  function Imported(connections: seq<E.Connection>, around: S.Surroundings): seq<S.Host> {
    S.ParseConfigText(E.BuildSshConfigExport(connections), around)
  }

  /** The home directory, where it is known, begins like a path. */
  predicate HasUsualHome(around: S.Surroundings) {
    around.home.Some? && around.home.value != [] ==>
      var c := around.home.value[0];
      !IsWhitespace(c) && c != '=' && c != '"' && c != '\'' && c != '#' && c != '~'
  }

  /** The parser replaces the tilde. */
  predicate IsExpanded(path: string, around: S.Surroundings) {
    path != [] && path[0] == '~' && around.home.Some?
  }

  lemma ReadValueIsNoLonger(v: string)
    ensures |ReadValue(v)| <= |v|
  {
    TrimShortens(S.DropDelimiters(S.WithoutComment(v)));
  }

  /** A value that begins like a path is read from its first character on. */
  lemma ReadValueKeepsStart(v: string)
    requires v != [] && !IsWhitespace(v[0]) && v[0] != '=' && v[0] != '"' && v[0] != '\'' && v[0] != '#'
    ensures ReadValue(v) != [] && ReadValue(v)[0] == v[0]
  {
    hide IsWhitespace, Trim, TrimStart, S.CommentStart;
    NoCommentAtStart(v);
    var w := S.WithoutComment(v);
    assert S.DropDelimiters(w) == w;
    TrimKeepsStart(w);
  }

  lemma NoCommentAtStart(v: string)
    requires v != [] && v[0] != '#'
    ensures S.WithoutComment(v) != [] && S.WithoutComment(v)[0] == v[0]
  {
    hide IsWhitespace;
  }

  lemma TrimKeepsStart(w: string)
    requires w != [] && !IsWhitespace(w[0])
    ensures Trim(w) != [] && Trim(w)[0] == w[0]
  {
    hide IsWhitespace;
    TrimEndKeepsFirst(w);
  }

  /** A key path comes back as it was exactly when it is plain and its tilde is not expanded. */
  lemma KeyPathIsKept(v: string, around: S.Surroundings)
    requires HasUsualHome(around)
    ensures S.ExpandTilde(ReadValue(v), around.home) == v <==> IsPlain(v) && !IsExpanded(v, around)
  {
    hide IsPlain, ReadValue, IsWhitespace;
    ValueIsKept(v);
    ReadValueIsNoLonger(v);
    var r := ReadValue(v);
    if IsExpanded(r, around) && S.ExpandTilde(r, around.home) == v {
      var home := around.home.value;
      assert home + r[1..] == v && home != [];
      assert v[0] == home[0];
      ReadValueKeepsStart(v);
      assert false;
    }
  }

  /** Every connection comes back at its place, under its alias and with its port; its host and its user are what they
      were exactly when they are plain, and so is its key path when it is plain and no tilde in it is expanded; a blank
      key path is dropped. */
  lemma ConnectionsComeBack(connections: seq<E.Connection>, around: S.Surroundings, i: nat)
    requires DistinctIds(connections) && AllWritable(connections) && i < |connections|
    ensures |Imported(connections, around)| == |connections|
    ensures var c, h := connections[i], Imported(connections, around)[i];
            && h.id == around.newIds(i) && h.port == c.port
            && h.name == E.BuildHostAlias(c) && h.aliases == [E.BuildHostAlias(c)]
            && (h.host == c.host <==> IsPlain(c.host)) && (h.username == c.username <==> IsPlain(c.username))
            && (c.privateKeyPath.None? || Trim(c.privateKeyPath.value) == [] ==> h.privateKeyPath == None)
            && (c.privateKeyPath.Some? && Trim(c.privateKeyPath.value) != [] && HasUsualHome(around)
                ==> (h.privateKeyPath == c.privateKeyPath
                     <==> IsPlain(c.privateKeyPath.value) && !IsExpanded(c.privateKeyPath.value, around)))
            && (c.privateKeyPath.Some? && Trim(c.privateKeyPath.value) != [] && IsPlain(c.privateKeyPath.value)
                ==> h.privateKeyPath == Some(S.ExpandTilde(c.privateKeyPath.value, around.home)))
  {
    hide E.BuildHostAlias, E.BuildSshConfigExport, S.ParseConfigText, ReadValue, IsPlain, IsAliasWord, IsLine,
         E.AliasOf, S.ExpandTilde, JumpOf, S.FirstWithAlias, Trim, AllWritable, IsWritable, HasUsualHome, IsExpanded;
    forall k | 0 <= k < |connections| ensures IsWritable(connections, connections[k]) {
      WritableOneByOne(connections, k);
    }
    ImportOfExport(connections, around);
    OwnAlias(connections, i);
    var c := connections[i];
    ValueIsKept(c.host);
    ValueIsKept(c.username);
    if c.privateKeyPath.Some? {
      ValueIsKept(c.privateKeyPath.value);
      if HasUsualHome(around) { KeyPathIsKept(c.privateKeyPath.value, around); }
    }
  }

  /** The identifiers given to the first `n` hosts are distinct. */
  predicate HasDistinctNewIds(around: S.Surroundings, n: nat) {
    forall k, l :: 0 <= k < l < n ==> around.newIds(k) != around.newIds(l)
  }

  /** A jump reference resolves to the record of its jump host exactly when no earlier connection is written under the
      same alias. */
  lemma JumpsResolve(connections: seq<E.Connection>, around: S.Surroundings, i: nat, j: nat)
    requires DistinctIds(connections) && AllWritable(connections) && i < |connections| && j < |connections|
    ensures |Imported(connections, around)| == |connections|
    ensures connections[i].jumpServerId == Some(connections[j].id)
            ==> Imported(connections, around)[i].jumpAlias == Some(E.BuildHostAlias(connections[j]))
    ensures connections[i].jumpServerId == Some(connections[j].id) && HasDistinctNewIds(around, |connections|)
            ==> (Imported(connections, around)[i].jumpId == Some(Imported(connections, around)[j].id)
                 <==> IsFirstWithAlias(connections, j, E.BuildHostAlias(connections[j])))
  {
    hide E.BuildHostAlias, E.BuildSshConfigExport, S.ParseConfigText, ReadValue, IsAliasWord, IsLine, E.AliasOf,
         E.AliasById, S.FirstWithAlias, KeyOf, AllWritable, IsWritable;
    forall k | 0 <= k < |connections| ensures IsWritable(connections, connections[k]) {
      WritableOneByOne(connections, k);
    }
    ImportOfExport(connections, around);
    AliasOfId(connections, j);
    var alias := E.BuildHostAlias(connections[j]);
    var first := FirstUnder(connections, alias, j);
    var hosts := HostsOf(connections, connections, around, 0);
    forall k | 0 <= k < |connections| ensures hosts[k].aliases == [E.BuildHostAlias(connections[k])] {
      OwnAlias(connections, k);
    }
    FirstHost(hosts, first, alias);
  }

  lemma {:induction false} FirstUnder(connections: seq<E.Connection>, alias: string, j: nat) returns (first: nat)
    requires j < |connections| && E.BuildHostAlias(connections[j]) == alias
    ensures first <= j && IsFirstWithAlias(connections, first, alias)
  {
    hide E.BuildHostAlias;
    if k: nat :| k < j && E.BuildHostAlias(connections[k]) == alias {
      first := FirstUnder(connections, alias, k);
    } else {
      first := j;
    }
  }

  /** A reference to a connection that is not exported is dropped. */
  lemma JumpsAreDropped(connections: seq<E.Connection>, around: S.Surroundings, i: nat)
    requires DistinctIds(connections) && AllWritable(connections) && i < |connections|
    ensures |Imported(connections, around)| == |connections|
    ensures (forall j :: 0 <= j < |connections| ==> connections[i].jumpServerId != Some(connections[j].id))
            ==> Imported(connections, around)[i].jumpAlias == None && Imported(connections, around)[i].jumpId == None
  {
    hide E.BuildHostAlias, E.BuildSshConfigExport, S.ParseConfigText, ReadValue, IsAliasWord, IsLine, E.AliasOf,
         E.AliasById, S.FirstWithAlias, KeyOf, AllWritable, IsWritable;
    forall k | 0 <= k < |connections| ensures IsWritable(connections, connections[k]) {
      WritableOneByOne(connections, k);
    }
    ImportOfExport(connections, around);
    var jump := connections[i].jumpServerId;
    if jump.Some? && forall j :: 0 <= j < |connections| ==> jump != Some(connections[j].id) {
      NoAliasOfId(connections, jump.value);
    }
  }

  /** An alias made of the name or the host is always a word. */
  lemma MadeAliasesAreWords(c: E.Connection)
    requires E.AliasFrom(c.name) != [] || E.AliasFrom(c.host) != []
    ensures IsAliasWord(E.BuildHostAlias(c))
  {
    hide E.AliasFrom;
    E.AliasChars(c.name);
    E.AliasChars(c.host);
    AliasCharsMakeWord(E.BuildHostAlias(c));
  }

  lemma AliasCharsMakeWord(a: string)
    requires a != [] && forall i :: 0 <= i < |a| ==> E.IsAliasChar(a[i])
    ensures IsAliasWord(a)
  {
    hide S.WithoutComment;
    forall i | 0 <= i < |a| ensures !IsWhitespace(a[i]) && a[i] !in "\"'\\#=*?" {
      assert E.IsAliasChar(a[i]);
    }
    CommentAfter(a, []);
    NoComment();
    assert a + [] == a;
    assert a[0] !in "\"'\\#=*?";
  }
}
