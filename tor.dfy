/**
 * The Tor process wrapper of backend/torengine.go: the recorded process and
 * the command line built for it. The environment variable TOR_BINARY, whether
 * `dir/torrc` exists, the lines of `dir/bridges.txt` (None when it cannot be
 * read), the OBFS4 setting and the outcomes of launching and killing the
 * process are parameters.
 */
module Tor {
  import opened Wrappers

  /** Go's unicode.IsSpace, the set strings.TrimSpace strips. */
  predicate IsSpace(c: char) {
    c == '\t' || c == '\n' || c == '\U{000B}' || c == '\U{000C}' || c == '\r' || c == ' ' ||
    c == '\U{0085}' || c == '\U{00A0}' || c == '\U{1680}' || ('\U{2000}' <= c <= '\U{200A}') ||
    c == '\U{2028}' || c == '\U{2029}' || c == '\U{202F}' || c == '\U{205F}' || c == '\U{3000}'
  }

  /** `s` without its leading white space. */
  function TrimLeft(s: string): (r: string)
    ensures |r| <= |s|
  {
    if s != [] && IsSpace(s[0]) then TrimLeft(s[1..]) else s
  }

  /** TrimLeft keeps a suffix of `s`, cuts off only white space and leaves no leading white space. */
  lemma {:induction false} TrimLeftShape(s: string)
    ensures var r := TrimLeft(s);
      |r| <= |s| && r == s[|s| - |r|..] &&
      (forall k :: 0 <= k < |s| - |r| ==> IsSpace(s[k])) &&
      (r != [] ==> !IsSpace(r[0]))
  {
    if s != [] && IsSpace(s[0]) {
      TrimLeftShape(s[1..]);
      var r := TrimLeft(s);
      forall k | 1 <= k < |s| - |r| ensures IsSpace(s[k]) {
        assert s[k] == s[1..][k - 1];
      }
    }
  }

  /** `s` without its trailing white space. */
  function TrimRight(s: string): (r: string)
    ensures |r| <= |s|
  {
    if s != [] && IsSpace(s[|s| - 1]) then TrimRight(s[..|s| - 1]) else s
  }

  /** TrimRight keeps a prefix of `s`, cuts off only white space and leaves no trailing white space. */
  lemma {:induction false} TrimRightShape(s: string)
    ensures var r := TrimRight(s);
      |r| <= |s| && r == s[..|r|] &&
      (forall k :: |r| <= k < |s| ==> IsSpace(s[k])) &&
      (r != [] ==> !IsSpace(r[|r| - 1]))
  {
    if s != [] && IsSpace(s[|s| - 1]) {
      TrimRightShape(s[..|s| - 1]);
      var r := TrimRight(s);
      forall k | |r| <= k < |s| - 1 ensures IsSpace(s[k]) {
        assert s[k] == s[..|s| - 1][k];
      }
    }
  }

  /** strings.TrimSpace: `s` with the white space at both ends cut off. */
  function TrimSpace(s: string): (r: string)
    ensures |r| <= |s|
  {
    TrimRight(TrimLeft(s))
  }

  /**
   * What TrimSpace keeps is one contiguous piece of `s` with no white space at
   * either end, and everything it cuts off is white space.
   */
  lemma TrimSpaceShape(s: string)
    ensures |TrimLeft(s)| <= |s|
    ensures var r, lead := TrimSpace(s), |s| - |TrimLeft(s)|;
      lead + |r| <= |s| && r == s[lead..lead + |r|] &&
      (r != [] ==> !IsSpace(r[0]) && !IsSpace(r[|r| - 1])) &&
      (forall k :: 0 <= k < lead ==> IsSpace(s[k])) &&
      (forall k :: lead + |r| <= k < |s| ==> IsSpace(s[k]))
  {
    var l := TrimLeft(s);
    TrimLeftShape(s);
    TrimRightShape(l);
    var lead := |s| - |l|;
    var r := TrimRight(l);
    assert r == s[lead..lead + |r|];
    if r != [] {
      assert r[0] == l[0];
    }
    forall k | lead + |r| <= k < |s| ensures IsSpace(s[k]) {
      assert s[k] == l[k - lead];
    }
  }

  /** A trimmed line of bridges.txt that becomes a bridge: not blank and not a `#` comment. */
  predicate IsBridge(t: string) {
    t != "" && t[0] != '#'
  }

  /** The bridges given by the lines of bridges.txt, in file order. */
  function Kept(lines: seq<string>): (r: seq<string>)
    ensures |r| <= |lines|
    ensures forall j :: 0 <= j < |r| ==> IsBridge(r[j])
  {
    if lines == [] then []
    else
      var t := TrimSpace(lines[0]);
      if IsBridge(t) then [t] + Kept(lines[1..]) else Kept(lines[1..])
  }

  /** Trimming a trimmed string changes nothing. */
  lemma TrimSpaceIdempotent(s: string)
    ensures TrimSpace(TrimSpace(s)) == TrimSpace(s)
  {
    var t := TrimSpace(s);
    TrimSpaceShape(s);
    assert TrimLeft(t) == t;
    assert TrimRight(t) == t;
  }

  /** Kept works line by line: the bridges of two pieces of the file are those of each piece, in order. */
  lemma {:induction false} KeptConcat(a: seq<string>, b: seq<string>)
    ensures Kept(a + b) == Kept(a) + Kept(b)
  {
    if a == [] {
      assert a + b == b;
    } else {
      assert (a + b)[0] == a[0];
      assert (a + b)[1..] == a[1..] + b;
      KeptConcat(a[1..], b);
      var t := TrimSpace(a[0]);
      if IsBridge(t) {
        assert Kept(a + b) == [t] + Kept(a[1..] + b);
        assert Kept(a) == [t] + Kept(a[1..]);
      } else {
        assert Kept(a + b) == Kept(a[1..] + b);
      }
    }
  }

  /** Every line whose trimmed form is a bridge is kept. */
  lemma {:induction false} KeptComplete(lines: seq<string>, i: nat)
    requires i < |lines| && IsBridge(TrimSpace(lines[i]))
    ensures TrimSpace(lines[i]) in Kept(lines)
  {
    if i > 0 {
      KeptComplete(lines[1..], i - 1);
    }
  }

  /** Every kept bridge is the trimmed form of a line of the file. */
  lemma {:induction false} KeptSound(lines: seq<string>, j: nat)
    requires j < |Kept(lines)|
    ensures exists i :: 0 <= i < |lines| && Kept(lines)[j] == TrimSpace(lines[i])
  {
    var t := TrimSpace(lines[0]);
    if IsBridge(t) && j == 0 {
      assert Kept(lines)[0] == TrimSpace(lines[0]);
    } else {
      var j' := if IsBridge(t) then j - 1 else j;
      KeptSound(lines[1..], j');
      var i' :| 0 <= i' < |lines| - 1 && Kept(lines[1..])[j'] == TrimSpace(lines[1..][i']);
      assert Kept(lines)[j] == Kept(lines[1..])[j'];
      assert lines[1..][i'] == lines[i' + 1];
    }
  }

  /** "--Bridge", line for each bridge, in order. */
  function BridgePairs(bridges: seq<string>): (r: seq<string>)
    ensures |r| == 2 * |bridges|
  {
    if bridges == [] then [] else ["--Bridge", bridges[0]] + BridgePairs(bridges[1..])
  }

  lemma {:induction false} BridgePairsAt(bridges: seq<string>, j: nat)
    requires j < |bridges|
    ensures BridgePairs(bridges)[2 * j] == "--Bridge" && BridgePairs(bridges)[2 * j + 1] == bridges[j]
  {
    if j > 0 {
      BridgePairsAt(bridges[1..], j - 1);
      assert BridgePairs(bridges)[2 * j] == BridgePairs(bridges[1..])[2 * (j - 1)];
      assert BridgePairs(bridges)[2 * j + 1] == BridgePairs(bridges[1..])[2 * (j - 1) + 1];
    }
  }

  lemma {:induction false} BridgePairsConcat(a: seq<string>, b: seq<string>)
    ensures BridgePairs(a + b) == BridgePairs(a) + BridgePairs(b)
  {
    if a == [] {
      assert a + b == b;
    } else {
      assert (a + b)[0] == a[0];
      assert (a + b)[1..] == a[1..] + b;
      BridgePairsConcat(a[1..], b);
      assert BridgePairs(a + b) == ["--Bridge", a[0]] + BridgePairs(a[1..] + b);
    }
  }

  /** The flags that switch on obfs4 bridges. */
  const BridgeFlags: seq<string> := ["--UseBridges", "1", "--ClientTransportPlugin", "obfs4 exec obfs4proxy"]

  /** filepath.Join of a directory and a file name, without the path cleaning. */
  function JoinPath(dir: string, name: string): string {
    if dir == "" then name else dir + "/" + name
  }

  /** The executable: TOR_BINARY when it is set to a non-empty value, "tor" otherwise. */
  function Binary(torBinaryEnv: string): (bin: string)
    ensures bin != ""
    ensures torBinaryEnv != "" ==> bin == torBinaryEnv
    ensures torBinaryEnv == "" ==> bin == "tor"
  {
    if torBinaryEnv == "" then "tor" else torBinaryEnv
  }

  /** The argument list Start passes to the Tor binary. */
  function TorArgs(dir: string, torrcExists: bool, obfs4: bool, bridgesFile: Option<seq<string>>): (args: seq<string>)
    ensures |args| == (if torrcExists then 2 else 0) +
                      (if obfs4 && bridgesFile.Some? then 4 + 2 * |Kept(bridgesFile.value)| else 0)
  {
    (if torrcExists then ["-f", JoinPath(dir, "torrc")] else []) +
    (if obfs4 && bridgesFile.Some? then BridgeFlags + BridgePairs(Kept(bridgesFile.value)) else [])
  }

  /** The command line opens with "-f" and dir/torrc exactly when the torrc exists. */
  lemma TorArgsTorrc(dir: string, torrcExists: bool, obfs4: bool, bridgesFile: Option<seq<string>>)
    ensures var args := TorArgs(dir, torrcExists, obfs4, bridgesFile);
      (torrcExists <==> |args| > 0 && args[0] == "-f") &&
      (torrcExists ==> |args| > 1 && args[1] == JoinPath(dir, "torrc"))
  {
    var args := TorArgs(dir, torrcExists, obfs4, bridgesFile);
    if !torrcExists && obfs4 && bridgesFile.Some? {
      assert args[0] == BridgeFlags[0];
    }
  }

  /**
   * After the torrc part, the bridge section is there exactly when OBFS4 is on
   * and bridges.txt was read, and then holds the bridge flags followed by one
   * "--Bridge" pair per kept line, in file order.
   */
  lemma TorArgsBridges(dir: string, torrcExists: bool, obfs4: bool, bridgesFile: Option<seq<string>>)
    ensures var args, start := TorArgs(dir, torrcExists, obfs4, bridgesFile), if torrcExists then 2 else 0;
      (obfs4 && bridgesFile.Some? <==> |args| > start) &&
      (obfs4 && bridgesFile.Some? ==>
        var bridges := Kept(bridgesFile.value);
        |args| == start + 4 + 2 * |bridges| && args[start..start + 4] == BridgeFlags &&
        forall j :: 0 <= j < |bridges| ==> args[start + 4 + 2 * j] == "--Bridge" && args[start + 4 + 2 * j + 1] == bridges[j])
  {
    var args := TorArgs(dir, torrcExists, obfs4, bridgesFile);
    var head: seq<string> := if torrcExists then ["-f", JoinPath(dir, "torrc")] else [];
    var start := if torrcExists then 2 else 0;
    assert |head| == start;
    if obfs4 && bridgesFile.Some? {
      var bridges := Kept(bridgesFile.value);
      assert args == head + (BridgeFlags + BridgePairs(bridges));
      BridgeSection(head, bridges, start);
    } else {
      assert args == head;
    }
  }

  /** The flags and pairs of a bridge section, read off behind any `head`. */
  lemma BridgeSection(head: seq<string>, bridges: seq<string>, start: nat)
    requires start == |head|
    ensures var args := head + (BridgeFlags + BridgePairs(bridges));
      |args| == start + 4 + 2 * |bridges| && args[start..start + 4] == BridgeFlags &&
      forall j :: 0 <= j < |bridges| ==> args[start + 4 + 2 * j] == "--Bridge" && args[start + 4 + 2 * j + 1] == bridges[j]
  {
    var pairs := BridgePairs(bridges);
    forall j | 0 <= j < |bridges|
      ensures pairs[2 * j] == "--Bridge" && pairs[2 * j + 1] == bridges[j]
    {
      BridgePairsAt(bridges, j);
    }
    assert |BridgeFlags| == 4;
    FlagsLayout(head, BridgeFlags, pairs);
    SectionLayout(head, BridgeFlags, pairs, bridges);
  }

  /** The `flags` sit right behind `head` in head + (flags + pairs). */
  lemma FlagsLayout(head: seq<string>, flags: seq<string>, pairs: seq<string>)
    ensures (head + (flags + pairs))[|head|..|head| + |flags|] == flags
  {
    assert (head + (flags + pairs))[|head|..] == flags + pairs;
  }

  /** Pairs laid out behind `head` and `flags`: pair `j` sits at |head| + |flags| + 2j. */
  lemma SectionLayout(head: seq<string>, flags: seq<string>, pairs: seq<string>, bridges: seq<string>)
    requires |pairs| == 2 * |bridges|
    requires forall j :: 0 <= j < |bridges| ==> pairs[2 * j] == "--Bridge" && pairs[2 * j + 1] == bridges[j]
    ensures forall j :: 0 <= j < |bridges| ==>
      (head + (flags + pairs))[|head| + |flags| + 2 * j] == "--Bridge" &&
      (head + (flags + pairs))[|head| + |flags| + 2 * j + 1] == bridges[j]
  {
    forall j | 0 <= j < |bridges|
      ensures (head + (flags + pairs))[|head| + |flags| + 2 * j] == "--Bridge"
      ensures (head + (flags + pairs))[|head| + |flags| + 2 * j + 1] == bridges[j]
    {
      assert (flags + pairs)[|flags| + 2 * j] == pairs[2 * j];
      assert (flags + pairs)[|flags| + 2 * j + 1] == pairs[2 * j + 1];
    }
  }

  /** One more line of bridges.txt adds its "--Bridge" pair when its trimmed form is a bridge, and nothing otherwise. */
  lemma ArgsStep(lines: seq<string>, i: nat)
    requires i < |lines|
    ensures var t := TrimSpace(lines[i]);
      BridgePairs(Kept(lines[..i + 1])) == BridgePairs(Kept(lines[..i])) + (if IsBridge(t) then ["--Bridge", t] else [])
  {
    var t := TrimSpace(lines[i]);
    var one := if IsBridge(t) then [t] else [];
    assert lines[..i + 1] == lines[..i] + [lines[i]];
    KeptConcat(lines[..i], [lines[i]]);
    assert Kept([lines[i]]) == one;
    BridgePairsConcat(Kept(lines[..i]), one);
    assert BridgePairs(one) == if IsBridge(t) then ["--Bridge", t] else [];
  }

  /** The scanner loop of Start: one "--Bridge" pair per line that trims to a bridge, in file order. */
  method ScanBridges(lines: seq<string>) returns (pairs: seq<string>)
    ensures pairs == BridgePairs(Kept(lines))
  {
    pairs := [];
    for i := 0 to |lines|
      invariant pairs == BridgePairs(Kept(lines[..i]))
    {
      var line := TrimSpace(lines[i]);
      ArgsStep(lines, i);
      if line == "" || line[0] == '#' {
        continue;
      }
      pairs := pairs + ["--Bridge", line];
    }
    assert lines[..|lines|] == lines;
  }

  /** Builds the argument list the way Start does. */
  method BuildArgs(dir: string, torrcExists: bool, obfs4: bool, bridgesFile: Option<seq<string>>) returns (args: seq<string>)
    ensures args == TorArgs(dir, torrcExists, obfs4, bridgesFile)
  {
    args := [];
    if torrcExists {
      args := args + ["-f", JoinPath(dir, "torrc")];
    }
    if obfs4 && bridgesFile.Some? {
      args := args + BridgeFlags;
      var pairs := ScanBridges(bridgesFile.value);
      args := args + pairs;
    }
  }

  /** What exec.Command was given for the recorded process. */
  datatype Process = Process(binary: string, args: seq<string>)

  datatype TorError = LaunchFailed | KillFailed

  class TorEngine {
    /** The running process Start recorded, if any. */
    var cmd: Option<Process>

    constructor ()
      ensures cmd == None
    {
      cmd := None;
    }

    /** Launches Tor unless a process is already recorded; records it only when the launch succeeds. */
    method Start(dir: string, torBinaryEnv: string, torrcExists: bool, bridgesFile: Option<seq<string>>,
                 obfs4: bool, launchOk: bool) returns (err: Option<TorError>)
      modifies this
      ensures old(cmd).Some? ==> err == None && cmd == old(cmd)
      ensures old(cmd).None? && !launchOk ==> err == Some(LaunchFailed) && cmd == None
      ensures old(cmd).None? && launchOk ==>
                err == None && cmd == Some(Process(Binary(torBinaryEnv), TorArgs(dir, torrcExists, obfs4, bridgesFile)))
    {
      if cmd.Some? {
        return None;
      }
      var tor := torBinaryEnv;
      if tor == "" {
        tor := "tor";
      }
      var args := BuildArgs(dir, torrcExists, obfs4, bridgesFile);
      if !launchOk {
        return Some(LaunchFailed);
      }
      cmd := Some(Process(tor, args));
      err := None;
    }

    /** Kills and forgets the recorded process, if any; reports the kill error. */
    method Stop(killOk: bool) returns (err: Option<TorError>)
      modifies this
      ensures cmd == None
      ensures old(cmd).None? ==> err == None
      ensures old(cmd).Some? ==> (err == None <==> killOk)
    {
      if cmd.None? {
        return None;
      }
      err := if killOk then None else Some(KillFailed);
      cmd := None;
    }
  }
}
