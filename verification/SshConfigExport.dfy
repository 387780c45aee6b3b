/** Writing saved connections as an OpenSSH client configuration. */
module SshConfigExport {
  import opened Wrappers
  import opened Text
  import opened Numbers

  type U16 = n: nat | n <= MAX_U16

  /** The part of a saved connection that is written. */
  datatype Connection = Connection(id: string, name: string, host: string, username: string, port: U16,
                                   privateKeyPath: Option<string>, jumpServerId: Option<string>)

  // ----- Aliases -----

  predicate IsAlphanumeric(c: char) {
    'a' <= c <= 'z' || 'A' <= c <= 'Z' || '0' <= c <= '9'
  }

  predicate IsAliasChar(c: char) {
    IsAlphanumeric(c) || c == '-' || c == '_' || c == '.'
  }

  function Replaced(s: string): string {
    seq(|s|, i requires 0 <= i < |s| => if IsAliasChar(s[i]) then s[i] else '-')
  }

  function DropDashes(s: string): (t: string)
    ensures |t| <= |s| && t == s[|s| - |t|..]
  {
    if s != [] && s[0] == '-' then DropDashes(s[1..]) else s
  }

  function DropLastDashes(s: string): (t: string)
    ensures t <= s
  {
    if s != [] && s[|s| - 1] == '-' then DropLastDashes(s[..|s| - 1]) else s
  }

  function AliasFrom(s: string): string {
    DropLastDashes(DropDashes(Replaced(Trim(s))))
  }

  /** `build_host_alias`. */
  function BuildHostAlias(c: Connection): string {
    if AliasFrom(c.name) != [] then AliasFrom(c.name)
    else if AliasFrom(c.host) != [] then AliasFrom(c.host)
    else c.id
  }

  lemma AliasChars(s: string)
    ensures forall i :: 0 <= i < |AliasFrom(s)| ==> IsAliasChar(AliasFrom(s)[i])
  {
    var replaced := Replaced(Trim(s));
    assert forall i :: 0 <= i < |replaced| ==> IsAliasChar(replaced[i]);
  }

  // ----- The file -----

  /** The alias that the map from identifiers holds: that of the last connection with the identifier. */
  function AliasById(connections: seq<Connection>, id: string): Option<string> {
    if connections == [] then None
    else
      var last := connections[|connections| - 1];
      if last.id == id then Some(BuildHostAlias(last)) else AliasById(connections[..|connections| - 1], id)
  }

  function AliasOf(connections: seq<Connection>, c: Connection): string {
    match AliasById(connections, c.id) case Some(alias) => alias case None => BuildHostAlias(c)
  }

  function KeyLines(c: Connection): seq<string> {
    if c.privateKeyPath.Some? && Trim(c.privateKeyPath.value) != [] then ["  IdentityFile " + c.privateKeyPath.value]
    else []
  }

  function JumpLines(connections: seq<Connection>, c: Connection): seq<string> {
    if c.jumpServerId.Some? && AliasById(connections, c.jumpServerId.value).Some? then
      ["  ProxyJump " + AliasById(connections, c.jumpServerId.value).value]
    else []
  }

  /** The lines of one host block. */
  function Block(connections: seq<Connection>, c: Connection): seq<string> {
    ["Host " + AliasOf(connections, c), "  HostName " + c.host, "  User " + c.username, "  Port " + ToDecimal(c.port)]
    + KeyLines(c) + JumpLines(connections, c) + [""]
  }

  /** The blocks of some of the connections. */
  function Blocks(connections: seq<Connection>, some: seq<Connection>): seq<string> {
    if some == [] then [] else Block(connections, some[0]) + Blocks(connections, some[1..])
  }

  /** `build_ssh_config_export`. */
  function BuildSshConfigExport(connections: seq<Connection>): string {
    Terminated(Blocks(connections, connections))
  }

  /** The map from identifiers to aliases, as it is collected. */
  method CollectAliases(connections: seq<Connection>) returns (aliases: map<string, string>)
    ensures forall id :: id in aliases <==> AliasById(connections, id).Some?
    ensures forall id :: id in aliases ==> AliasById(connections, id) == Some(aliases[id])
  {
    hide BuildHostAlias;
    aliases := map[];
    for i := 0 to |connections|
      invariant forall id :: id in aliases <==> AliasById(connections[..i], id).Some?
      invariant forall id :: id in aliases ==> AliasById(connections[..i], id) == Some(aliases[id])
    {
      assert connections[..i + 1][..i] == connections[..i];
      aliases := aliases[connections[i].id := BuildHostAlias(connections[i])];
    }
    assert connections[..|connections|] == connections;
  }

  /** The exporter as it runs: block after block is appended to the output. */
  method WriteSshConfig(connections: seq<Connection>) returns (output: string)
    ensures output == BuildSshConfigExport(connections)
  {
    hide AliasById, Block;
    var aliases := CollectAliases(connections);
    output := "";
    assert connections[0..] == connections;
    for i := 0 to |connections|
      invariant output + Terminated(Blocks(connections, connections[i..])) == BuildSshConfigExport(connections)
    {
      var c := connections[i];
      ghost var rest := Blocks(connections, connections[i + 1..]);
      assert connections[i..][0] == c && connections[i..][1..] == connections[i + 1..];
      TerminatedAppends(Block(connections, c), rest);
      var block := WriteBlock(connections, c, aliases);
      assert output + (block + Terminated(rest)) == output + block + Terminated(rest);
      output := output + block;
    }
    assert connections[|connections|..] == [];
    assert output + [] == output;
  }

  method WriteBlock(ghost connections: seq<Connection>, c: Connection, aliases: map<string, string>)
    returns (block: string)
    requires forall id :: id in aliases <==> AliasById(connections, id).Some?
    requires forall id :: id in aliases ==> AliasById(connections, id) == Some(aliases[id])
    ensures block == Terminated(Block(connections, c))
  {
    hide AliasById, BuildHostAlias, ToDecimal, Terminated, Trim;
    var alias := if c.id in aliases then aliases[c.id] else BuildHostAlias(c);
    var lines := ["Host " + alias, "  HostName " + c.host, "  User " + c.username, "  Port " + ToDecimal(c.port)];
    if c.privateKeyPath.Some? && Trim(c.privateKeyPath.value) != [] {
      lines := lines + ["  IdentityFile " + c.privateKeyPath.value];
    }
    if c.jumpServerId.Some? && c.jumpServerId.value in aliases {
      lines := lines + ["  ProxyJump " + aliases[c.jumpServerId.value]];
    }
    lines := lines + [""];
    assert lines == Block(connections, c);
    block := Terminated(lines);
  }
}
