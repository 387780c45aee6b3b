/**
  Which hosts a configuration stands for: the settings are cut into blocks at every `Host`, and
  each block is read on its own, the last setting of a kind deciding.
 */
module SshConfigBlocks {
  import opened Wrappers
  import opened Numbers
  import opened Text
  import opened SshConfig

  /** The settings on the lines, in order. */
  function Settings(lines: seq<string>): seq<Setting> {
    if lines == [] then []
    else match ReadLine(lines[0]) case Some(s) => [s] + Settings(lines[1..]) case None => Settings(lines[1..])
  }

  /** A `Host` with its value, and the settings up to the next one. */
  datatype Block = Block(value: string, settings: seq<Setting>)

  function NextHost(settings: seq<Setting>): (i: nat)
    ensures i <= |settings|
    ensures i < |settings| ==> settings[i].key == "host"
    ensures forall j :: 0 <= j < i ==> settings[j].key != "host"
  {
    if settings == [] || settings[0].key == "host" then 0 else 1 + NextHost(settings[1..])
  }

  /** What stands before the first `Host` belongs to no block. */
  function Blocks(settings: seq<Setting>): seq<Block>
    decreases |settings|
  {
    var first := NextHost(settings);
    if first == |settings| then [] else
      var rest := settings[first + 1..];
      [Block(settings[first].value, rest[..NextHost(rest)])] + Blocks(rest[NextHost(rest)..])
  }

  // ----- One block -----

  function FirstWord(value: string): string {
    if Words(value) == [] then value else Words(value)[0]
  }

  /** The last setting under this keyword. */
  function LastValue(settings: seq<Setting>, key: string): Option<string> {
    if settings == [] then None
    else if settings[|settings| - 1].key == key then Some(settings[|settings| - 1].value)
    else LastValue(settings[..|settings| - 1], key)
  }

  /** The last port that is a number in range. */
  function LastPort(settings: seq<Setting>): Option<nat> {
    if settings == [] then None
    else
      var last := settings[|settings| - 1];
      if last.key == "port" && ParseUnsigned(last.value, 65535).Some? then ParseUnsigned(last.value, 65535)
      else LastPort(settings[..|settings| - 1])
  }

  function KeyPath(value: Option<string>, home: Option<string>): Option<string> {
    match value
    case None => None
    case Some(path) => Some(if path != [] && path[0] == '~' && home.Some? then home.value + path[1..] else path)
  }

  function OrElse<T>(value: Option<T>, other: T): T {
    if value.Some? then value.value else other
  }

  /** The host is what the block says, and has the usual defaults where it says nothing. */
  predicate IsHostOf(h: Host, b: Block, around: Surroundings) {
    && h.name == FirstWord(b.value) && h.aliases == Words(b.value)
    && h.host == OrElse(LastValue(b.settings, "hostname"), FirstWord(b.value))
    && h.username == OrElse(LastValue(b.settings, "user"), around.user)
    && h.port == OrElse(LastPort(b.settings), 22)
    && h.privateKeyPath == KeyPath(LastValue(b.settings, "identityfile"), around.home)
    && h.jumpAlias == LastValue(b.settings, "proxyjump") && h.jumpId == None
  }

  /** The name has no pattern character. */
  predicate IsKept(b: Block) {
    forall i :: 0 <= i < |FirstWord(b.value)| ==> FirstWord(b.value)[i] != '*' && FirstWord(b.value)[i] != '?'
  }

  function KeptBlocks(blocks: seq<Block>): seq<Block> {
    if blocks == [] then []
    else (if IsKept(blocks[0]) then [blocks[0]] else []) + KeptBlocks(blocks[1..])
  }

  /** These hosts are those of the blocks, one for each and in order, numbered from `k` on. */
  ghost predicate AreHostsOf(hosts: seq<Host>, blocks: seq<Block>, around: Surroundings, k: nat) {
    && |hosts| == |blocks|
    && forall i :: 0 <= i < |hosts| ==> IsHostOf(hosts[i], blocks[i], around) && hosts[i].id == around.newIds(k + i)
  }

  // ----- Reading -----

  lemma NewHostIsOfBlock(value: string, around: Surroundings)
    ensures IsHostOf(NewHost(value, around.user), Block(value, []), around)
  {
  }

  /** One more setting of the block. */
  lemma SetIsOfBlock(h: Host, b: Block, s: Setting, around: Surroundings)
    requires IsHostOf(h, b, around) && s.key != "host"
    ensures IsHostOf(Set(h, s, around.home), Block(b.value, b.settings + [s]), around)
  {
    hide Words, LastValue, LastPort, FirstWord, ParseUnsigned;
    LastOfLonger(b.settings, s, "hostname");
    LastOfLonger(b.settings, s, "user");
    LastOfLonger(b.settings, s, "identityfile");
    LastOfLonger(b.settings, s, "proxyjump");
  }

  lemma LastOfLonger(settings: seq<Setting>, s: Setting, key: string)
    ensures LastValue(settings + [s], key) == if s.key == key then Some(s.value) else LastValue(settings, key)
    ensures LastPort(settings + [s])
         == if s.key == "port" && ParseUnsigned(s.value, 65535).Some? then ParseUnsigned(s.value, 65535)
            else LastPort(settings)
  {
    hide ParseUnsigned;
    assert (settings + [s])[..|settings|] == settings;
  }

  lemma PushKeeps(hosts: seq<Host>, h: Host, b: Block, around: Surroundings)
    requires IsHostOf(h, b, around)
    ensures var pushed := Push(hosts, Some(h), around.newIds);
            hosts <= pushed && AreHostsOf(pushed[|hosts|..], KeptBlocks([b]), around, |hosts|)
  {
    hide LastValue, LastPort, KeyPath, Words;
    assert KeptBlocks([b]) == if IsKept(b) then [b] else [];
  }

  lemma HostsTwice(hosts: seq<Host>, more: seq<Host>, all: seq<Host>, a: Block, b: seq<Block>,
                   around: Surroundings)
    requires hosts <= more <= all
    requires AreHostsOf(more[|hosts|..], KeptBlocks([a]), around, |hosts|)
    requires AreHostsOf(all[|more|..], KeptBlocks(b), around, |more|)
    ensures AreHostsOf(all[|hosts|..], KeptBlocks([a] + b), around, |hosts|)
  {
    hide IsHostOf, KeptBlocks;
    KeptFirst(a, b);
    var n := |more| - |hosts|;
    forall i | 0 <= i < |all| - |hosts|
      ensures IsHostOf(all[|hosts|..][i], KeptBlocks([a] + b)[i], around)
      ensures all[|hosts|..][i].id == around.newIds(|hosts| + i)
    {
      if i < n {
        assert more[|hosts|..][i] == all[|hosts|..][i];
      } else {
        assert all[|more|..][i - n] == all[|hosts|..][i];
      }
    }
  }

  lemma KeptFirst(a: Block, b: seq<Block>)
    ensures KeptBlocks([a] + b) == KeptBlocks([a]) + KeptBlocks(b)
  {
    hide IsKept;
    assert ([a] + b)[1..] == b && KeptBlocks([a]) == if IsKept(a) then [a] else [];
  }

  /** The blocks of the rest of the lines, inside a block. */
  function BlocksInside(b: Block, settings: seq<Setting>): seq<Block> {
    [Block(b.value, b.settings + settings[..NextHost(settings)])] + Blocks(settings[NextHost(settings)..])
  }

  lemma BlocksAtHost(settings: seq<Setting>)
    requires settings != [] && settings[0].key == "host"
    ensures Blocks(settings) == BlocksInside(Block(settings[0].value, []), settings[1..])
  {
    assert settings[0 + 1..] == settings[1..];
    var rest := settings[1..];
    assert [] + rest[..NextHost(rest)] == rest[..NextHost(rest)];
  }

  lemma InsideAtHost(b: Block, settings: seq<Setting>)
    requires settings != [] && settings[0].key == "host"
    ensures BlocksInside(b, settings) == [b] + Blocks(settings)
  {
    hide Blocks;
    assert settings[..0] == [] && b.settings + [] == b.settings && settings[0..] == settings;
  }

  lemma BlocksAtSetting(settings: seq<Setting>)
    requires settings != [] && settings[0].key != "host"
    ensures Blocks(settings) == Blocks(settings[1..])
  {
    var n, rest := NextHost(settings), settings[1..];
    assert n == NextHost(rest) + 1;
    assert n < |settings| ==> settings[n + 1..] == rest[n..];
  }

  lemma InsideAtSetting(b: Block, settings: seq<Setting>)
    requires settings != [] && settings[0].key != "host"
    ensures BlocksInside(b, settings) == BlocksInside(Block(b.value, b.settings + [settings[0]]), settings[1..])
  {
    hide Blocks;
    var n := NextHost(settings);
    assert settings[..n] == [settings[0]] + settings[1..][..n - 1] && settings[n..] == settings[1..][n - 1..];
    assert b.settings + settings[..n] == b.settings + [settings[0]] + settings[1..][..n - 1];
  }

  lemma {:induction false} RestInsideBlock(lines: seq<string>, hosts: seq<Host>, h: Host, b: Block,
                                           around: Surroundings)
    requires IsHostOf(h, b, around)
    ensures var all := ParseLines(lines, hosts, Some(h), around);
            hosts <= all
            && AreHostsOf(all[|hosts|..], KeptBlocks(BlocksInside(b, Settings(lines))), around, |hosts|)
    decreases |lines|
  {
    hide IsHostOf, KeptBlocks, ReadLine, Blocks, NewHost, Set, Push, AreHostsOf;
    if lines == [] {
      PushKeeps(hosts, h, b, around);
      NoMoreBlocks(b);
    } else if ReadLine(lines[0]).None? {
      RestInsideBlock(lines[1..], hosts, h, b, around);
    } else {
      var s, settings := ReadLine(lines[0]).value, Settings(lines);
      assert settings[0] == s && settings[1..] == Settings(lines[1..]);
      if s.key == "host" {
        var pushed, next := Push(hosts, Some(h), around.newIds), Block(s.value, []);
        PushKeeps(hosts, h, b, around);
        NewHostIsOfBlock(s.value, around);
        RestInsideBlock(lines[1..], pushed, NewHost(s.value, around.user), next, around);
        InsideAtHost(b, settings);
        BlocksAtHost(settings);
        var all := ParseLines(lines, hosts, Some(h), around);
        HostsTwice(hosts, pushed, all, b, BlocksInside(next, settings[1..]), around);
      } else {
        SetIsOfBlock(h, b, s, around);
        InsideAtSetting(b, settings);
        RestInsideBlock(lines[1..], hosts, Set(h, s, around.home), Block(b.value, b.settings + [s]), around);
      }
    }
  }

  lemma NoMoreBlocks(b: Block)
    ensures BlocksInside(b, Settings([])) == [b]
  {
    assert b.settings + [] == b.settings;
  }

  lemma {:induction false} RestOutsideBlocks(lines: seq<string>, around: Surroundings)
    ensures AreHostsOf(ParseLines(lines, [], None, around), KeptBlocks(Blocks(Settings(lines))), around, 0)
    decreases |lines|
  {
    hide IsHostOf, ReadLine, NewHost, IsKept, BlocksInside;
    if lines != [] {
      if ReadLine(lines[0]).None? {
        RestOutsideBlocks(lines[1..], around);
      } else {
        var s, settings := ReadLine(lines[0]).value, Settings(lines);
        assert settings[0] == s && settings[1..] == Settings(lines[1..]);
        BlocksAtHostOrSetting(settings);
        if s.key == "host" {
          NewHostIsOfBlock(s.value, around);
          RestInsideBlock(lines[1..], [], NewHost(s.value, around.user), Block(s.value, []), around);
        } else {
          RestOutsideBlocks(lines[1..], around);
        }
      }
    }
  }

  lemma BlocksAtHostOrSetting(settings: seq<Setting>)
    requires settings != []
    ensures Blocks(settings)
         == if settings[0].key == "host" then BlocksInside(Block(settings[0].value, []), settings[1..])
            else Blocks(settings[1..])
  {
    if settings[0].key == "host" {
      BlocksAtHost(settings);
    } else {
      BlocksAtSetting(settings);
    }
  }

  /** Reading a configuration gives one host for every block whose name has neither `*` nor `?`, once and in order. */
  lemma HostsAreTheBlocks(content: string, around: Surroundings)
    ensures var hosts := ParseLines(Lines(content), [], None, around);
            AreHostsOf(hosts, KeptBlocks(Blocks(Settings(Lines(content)))), around, 0)
  {
    RestOutsideBlocks(Lines(content), around);
  }

  lemma {:induction false} KeptIsKept(blocks: seq<Block>, i: nat)
    requires i < |KeptBlocks(blocks)|
    ensures IsKept(KeptBlocks(blocks)[i]) && KeptBlocks(blocks)[i] in blocks
  {
    hide IsKept;
    if !IsKept(blocks[0]) {
      KeptIsKept(blocks[1..], i);
    } else if i > 0 {
      KeptIsKept(blocks[1..], i - 1);
    }
  }

  /** No pattern becomes a host; resolving jump hosts changes nothing but the resolved reference. */
  lemma NoPatternIsImported(content: string, around: Surroundings, i: nat)
    requires i < |ParseConfigText(content, around)|
    ensures var h := ParseConfigText(content, around)[i];
            forall j :: 0 <= j < |h.name| ==> h.name[j] != '*' && h.name[j] != '?'
    ensures i < |ParseLines(Lines(content), [], None, around)|
    ensures ParseConfigText(content, around)[i]
         == ParseLines(Lines(content), [], None, around)[i].(jumpId := ParseConfigText(content, around)[i].jumpId)
  {
    HostsAreTheBlocks(content, around);
    KeptIsKept(Blocks(Settings(Lines(content))), i);
  }
}
