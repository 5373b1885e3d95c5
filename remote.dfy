/** How server.js reaches the remote host: the `ssh` argument vector, the shell commands
    it runs there, and the session id it reads off a session file's path. `os.homedir()`
    and `path.join` are the parameters `home` and `join`. */
module Remote {
  import opened JsValues
  import opened ShellQuote

  /** The parts of `config.json` the server reads. */
  datatype Config = Config(
    region: string, instanceId: string,
    user: string, host: string, keyPath: string,
    sessions: string, runOutput: string, logTailLines: Value)

  /** `expandTilde`: a path starting with `~` is joined onto the home directory. */
  function ExpandTilde(p: string, home: string, join: (string, string) -> string): (r: string)
    ensures p == "" || p[0] != '~' ==> r == p
    ensures p != "" && p[0] == '~' ==> r == join(home, p[1..])
  {
    if p == "" || p[0] != '~' then p else join(home, p[1..])
  }

  /** `sshArgs`: the key, three fixed options, and `user@host` last. */
  function SshArgs(cfg: Config, home: string, join: (string, string) -> string): (r: seq<string>)
    ensures |r| == 9
    ensures r[1] == ExpandTilde(cfg.keyPath, home, join)
    ensures r[8] == cfg.user + "@" + cfg.host
  {
    ["-i", ExpandTilde(cfg.keyPath, home, join),
     "-o", "BatchMode=yes", "-o", "ConnectTimeout=5", "-o", "StrictHostKeyChecking=accept-new",
     cfg.user + "@" + cfg.host]
  }

  /** `sshArgs(cfg).concat([cmd])`: every remote invocation. */
  function SshCall(cfg: Config, home: string, join: (string, string) -> string, cmd: string): (r: seq<string>)
    ensures |r| == 10 && r[9] == cmd
    ensures r[..9] == SshArgs(cfg, home, join)
  {
    SshArgs(cfg, home, join) + [cmd]
  }

  /** Only the key path and the destination depend on the configuration: batch mode,
      the connect timeout and the host-key policy are the same for every call. */
  lemma SshOptionsFixed(c1: Config, h1: string, j1: (string, string) -> string, cmd1: string,
                        c2: Config, h2: string, j2: (string, string) -> string, cmd2: string)
    ensures forall i :: 0 <= i < 9 && i != 1 && i != 8 ==>
      SshCall(c1, h1, j1, cmd1)[i] == SshCall(c2, h2, j2, cmd2)[i]
    ensures SshCall(c1, h1, j1, cmd1)[2..8] == ["-o", "BatchMode=yes", "-o", "ConnectTimeout=5", "-o", "StrictHostKeyChecking=accept-new"]
  {
    var a := SshCall(c1, h1, j1, cmd1);
    var b := SshCall(c2, h2, j2, cmd2);
    assert a[..9] == SshArgs(c1, h1, j1);
    assert b[..9] == SshArgs(c2, h2, j2);
    forall i | 0 <= i < 9 && i != 1 && i != 8 ensures a[i] == b[i] {
      assert a[i] == a[..9][i];
      assert b[i] == b[..9][i];
    }
  }

  /** The aws CLI arguments of `awsDescribeState`. */
  function AwsDescribeArgs(cfg: Config): seq<string>
  {
    ["ec2", "describe-instances", "--region", cfg.region, "--instance-ids", cfg.instanceId,
     "--query", "Reservations[0].Instances[0].State.Name", "--output", "text"]
  }

  const CheckCommand: string := "echo ok"

  function SessionGlob(cfg: Config): string
  {
    cfg.sessions + "/*.jsonl"
  }

  function RunGlob(cfg: Config): string
  {
    cfg.runOutput + "/clawdbot-*.log"
  }

  /** `sshLatestFile`: the newest file matching the glob, or nothing. */
  function LatestFileCommand(glob: string): string
  {
    "ls -t " + glob + " 2>/dev/null | head -1"
  }

  /** `sshTail`: the last `lines` lines of the file. */
  function TailCommand(file: string, lines: Value): string
  {
    "tail -n " + ToStr(lines) + " \"" + file + "\""
  }

  /** The append in `/api/chat`: echo the single-quoted line onto the end of the file. */
  function AppendCommand(line: string, file: string): string
  {
    "echo " + SingleQuoted(line) + " >> \"" + file + "\""
  }

  function TouchCommand(file: string): string
  {
    "touch \"" + file + "\""
  }

  /** The word `echo` receives in the append command is exactly the line, whatever
      quotes it holds. */
  lemma AppendEchoesLine(line: string, file: string)
    ensures AppendCommand(line, file)[..5] == "echo "
    ensures ReadWord(AppendCommand(line, file)[5..], Unquoted, "") == Some((line, " >> \"" + file + "\""))
  {
    var rest := " >> \"" + file + "\"";
    assert AppendCommand(line, file) == "echo " + (SingleQuoted(line) + rest);
    SingleQuotedRoundTrip(line, rest);
  }

  /** The first occurrence of `pat` in `s` at or after `i`. */
  function IndexOf(s: string, pat: string, i: nat): (r: Option<nat>)
    requires i <= |s|
    decreases |s| - i
    ensures r.Some? ==> i <= r.value && StartsWithAt(s, r.value, pat)
    ensures r.Some? ==> forall j :: i <= j < r.value ==> !StartsWithAt(s, j, pat)
    ensures r.None? ==> forall j :: i <= j <= |s| ==> !StartsWithAt(s, j, pat)
  {
    if i + |pat| > |s| then None
    else if StartsWithAt(s, i, pat) then Some(i)
    else IndexOf(s, pat, i + 1)
  }

  /** `s.replace(pat, "")` with a string pattern: only the first occurrence goes. */
  function RemoveFirst(s: string, pat: string): (r: string)
    ensures forall c :: c in r ==> c in s
  {
    match IndexOf(s, pat, 0)
    case None => s
    case Some(k) =>
      assert forall c :: c in s[..k] + s[k + |pat|..] ==> c in s;
      s[..k] + s[k + |pat|..]
  }

  lemma RemoveAt(s: string, pat: string, k: nat)
    requires IndexOf(s, pat, 0) == Some(k)
    ensures RemoveFirst(s, pat) == s[..k] + s[k + |pat|..]
  {
  }

  /** `latestSession.split('/').pop().replace('.jsonl', '')`. */
  function SessionId(path: string): (r: string)
    ensures '/' !in r
  {
    var parts := Split(path, '/');
    SplitPiecesFree(path, '/');
    RemoveFirst(parts[|parts| - 1], ".jsonl")
  }

  lemma {:induction false} SplitAround(s: string, c: char, t: string)
    ensures Split(s + [c] + t, c) == Split(s, c) + Split(t, c)
  {
    if s == [] {
      assert s + [c] + t == [c] + t;
      assert ([c] + t)[1..] == t;
    } else {
      var x := s + [c] + t;
      assert x[0] == s[0];
      assert x[1..] == s[1..] + [c] + t;
      SplitAround(s[1..], c, t);
    }
  }

  lemma {:induction false} SplitWithout(t: string, c: char)
    requires c !in t
    ensures Split(t, c) == [t]
  {
    if t != [] {
      SplitWithout(t[1..], c);
      assert [t[0]] + t[1..] == t;
    }
  }

  /** The last `/`-separated segment of `<dir>/<file>` is `file`. */
  lemma LastSegment(dir: string, file: string)
    requires '/' !in file
    ensures var parts := Split(dir + "/" + file, '/'); parts[|parts| - 1] == file
  {
    assert dir + "/" + file == dir + ['/'] + file;
    SplitAround(dir, '/', file);
    SplitWithout(file, '/');
  }

  /** In `<name>.jsonl`, with no `.` in the name, the first `.jsonl` is the suffix. */
  lemma RemoveExtension(name: string)
    requires '.' !in name
    ensures RemoveFirst(name + ".jsonl", ".jsonl") == name
  {
    var file := name + ".jsonl";
    var k := |name|;
    assert StartsWithAt(file, k, ".jsonl");
    forall j | 0 <= j < k ensures !StartsWithAt(file, j, ".jsonl") {
      assert file[j] == name[j];
    }
    assert IndexOf(file, ".jsonl", 0) == Some(k);
    assert file[..k] == name;
    assert file[k + 6..] == "";
  }

  /** The id of `<dir>/<name>.jsonl` is `name`, when the name has no `/` and no `.`. */
  lemma SessionIdOfFile(dir: string, name: string)
    requires '/' !in name && '.' !in name
    ensures SessionId(dir + "/" + name + ".jsonl") == name
  {
    var file := name + ".jsonl";
    assert '/' !in file;
    assert dir + "/" + name + ".jsonl" == dir + "/" + file;
    LastSegment(dir, file);
    RemoveExtension(name);
  }

  /** `.jsonl` first occurs in "a.jsonl.bak" at index 1. */
  lemma InnerIndex()
    ensures IndexOf("a.jsonl.bak", ".jsonl", 0) == Some(1)
  {
    var f := "a.jsonl.bak";
    assert !StartsWithAt(f, 0, ".jsonl") by {
      assert f[0..6][0] == 'a';
    }
    assert StartsWithAt(f, 1, ".jsonl");
  }

  lemma InnerRemoved()
    ensures RemoveFirst("a.jsonl.bak", ".jsonl") == "a.bak"
  {
    var f := "a.jsonl.bak";
    InnerIndex();
    RemoveAt(f, ".jsonl", 1);
    assert f[..1] == "a";
    assert f[7..] == ".bak";
  }

  /** The occurrence removed need not be the suffix: in any directory,
      `a.jsonl.bak` gives the id `a.bak`. */
  lemma SessionIdInnerOccurrence(dir: string)
    ensures SessionId(dir + "/a.jsonl.bak") == "a.bak"
  {
    var f := "a.jsonl.bak";
    assert '/' !in f;
    assert dir + "/a.jsonl.bak" == dir + "/" + f;
    LastSegment(dir, f);
    InnerRemoved();
  }
}
