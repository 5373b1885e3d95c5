/** The HTTP handlers of server.js that assemble a result from remote calls:
    `/api/status`, `/api/logs` and `/api/chat`. The `ssh` and `aws` processes are the
    functions `env.ssh` and `env.aws` from an argument vector to what the process did;
    the clock, `Math.random` and `JSON.stringify` are parameters as well. */
module Handlers {
  import opened JsValues
  import opened TextContent
  import opened MetadataWrapper
  import opened Remote

  /** What `execFileAsync` settles with: the output of a run, or the rejection with
      the error's `stderr` and `message`. */
  datatype ExecResult = Ran(stdout: string, stderr: string) | Failed(stderr: string, message: string)

  /** The environment the handlers run in. */
  datatype Env = Env(
    home: string,
    join: (string, string) -> string,
    ssh: seq<string> -> ExecResult,
    aws: seq<string> -> ExecResult)

  /** `err.stderr || err.message`. */
  function Reason(e: ExecResult): (r: string)
    requires e.Failed?
    ensures r == e.stderr || (e.stderr == "" && r == e.message)
  {
    if e.stderr != "" then e.stderr else e.message
  }

  /** Runs `cmd` on the remote host. */
  function Ssh(cfg: Config, env: Env, cmd: string): ExecResult
  {
    env.ssh(SshCall(cfg, env.home, env.join, cmd))
  }

  datatype Status = Status(awsState: string, sshOk: bool, errors: seq<string>)

  /** `/api/status`: the instance state and whether ssh answers, each defaulting when
      its call fails, with one error entry per failed call, the aws one first. */
  method ApiStatus(cfg: Config, env: Env) returns (result: Status)
    ensures var a := env.aws(AwsDescribeArgs(cfg));
      result.awsState == (if a.Ran? then Trim(a.stdout) else "unknown")
    ensures var s := Ssh(cfg, env, CheckCommand);
      result.sshOk <==> s.Ran? && Trim(s.stdout) == "ok"
    ensures var a := env.aws(AwsDescribeArgs(cfg));
      var s := Ssh(cfg, env, CheckCommand);
      |result.errors| == (if a.Failed? then 1 else 0) + (if s.Failed? then 1 else 0)
      && (a.Failed? ==> result.errors[0] == "aws: " + Reason(a))
      && (s.Failed? ==> result.errors[|result.errors| - 1] == "ssh: " + Reason(s))
  {
    result := Status("unknown", false, []);
    var a := env.aws(AwsDescribeArgs(cfg));
    match a {
      case Ran(out, _) =>
        result := result.(awsState := Trim(out));
      case Failed(_, _) =>
        result := result.(errors := result.errors + ["aws: " + Reason(a)]);
    }
    var s := Ssh(cfg, env, CheckCommand);
    match s {
      case Ran(out, _) =>
        result := result.(sshOk := Trim(out) == "ok");
      case Failed(_, _) =>
        result := result.(sshOk := false);
        result := result.(errors := result.errors + ["ssh: " + Reason(s)]);
    }
  }

  /** `filter(Boolean)` on strings. */
  function NonEmpty(xs: seq<string>): (r: seq<string>)
    ensures |r| <= |xs|
    ensures forall x :: x in r <==> x in xs && x != ""
  {
    if xs == [] then []
    else
      assert forall x :: x in xs <==> x == xs[0] || x in xs[1..];
      (if xs[0] == "" then [] else [xs[0]]) + NonEmpty(xs[1..])
  }

  /** `filter(Boolean)` keeps the order: filtering `a + b` filters `a`, then `b`. */
  lemma {:induction false} NonEmptyConcat(a: seq<string>, b: seq<string>)
    ensures NonEmpty(a + b) == NonEmpty(a) + NonEmpty(b)
  {
    if a == [] {
      assert a + b == b;
    } else {
      assert (a + b)[0] == a[0];
      assert (a + b)[1..] == a[1..] + b;
      NonEmptyConcat(a[1..], b);
    }
  }

  /** `filter(Boolean)` keeps every non-empty string as often as it occurs. */
  lemma {:induction false} NonEmptyCount(xs: seq<string>, x: string)
    ensures multiset(NonEmpty(xs))[x] == if x == "" then 0 else multiset(xs)[x]
  {
    if xs != [] {
      NonEmptyCount(xs[1..], x);
      assert xs == [xs[0]] + xs[1..];
      assert multiset(xs) == multiset([xs[0]]) + multiset(xs[1..]);
    }
  }

  datatype LogsResult = LogsResult(sessionFile: Value, sessionLines: seq<string>, runFile: Value, runLines: seq<string>)

  /** `/api/logs`: the tail of the newest session log without its empty lines, and the
      tail of the newest run log as it is; a failed call turns its list into a single
      error entry. */
  method ApiLogs(cfg: Config, env: Env) returns (result: LogsResult)
    ensures "" !in result.sessionLines
    ensures var latest := Ssh(cfg, env, LatestFileCommand(SessionGlob(cfg)));
      && (latest.Failed? ==> result.sessionFile == Null && result.sessionLines == ["session log error: " + Reason(latest)])
      && (latest.Ran? && Trim(latest.stdout) == "" ==> result.sessionFile == Null && result.sessionLines == [])
      && (latest.Ran? && Trim(latest.stdout) != "" ==>
        var file := Trim(latest.stdout);
        var tail := Ssh(cfg, env, TailCommand(file, cfg.logTailLines));
        result.sessionFile == Str(file)
        && (tail.Failed? ==> result.sessionLines == ["session log error: " + Reason(tail)])
        && (tail.Ran? ==>
          result.sessionLines == NonEmpty(Split(tail.stdout, '\n'))
          && (forall l :: l in result.sessionLines <==> l in Split(tail.stdout, '\n') && l != "")
          && forall l :: l in result.sessionLines ==> '\n' !in l))
    ensures var latest := Ssh(cfg, env, LatestFileCommand(RunGlob(cfg)));
      && (latest.Failed? ==> result.runFile == Null && result.runLines == ["run log error: " + Reason(latest)])
      && (latest.Ran? && Trim(latest.stdout) == "" ==> result.runFile == Null && result.runLines == [])
      && (latest.Ran? && Trim(latest.stdout) != "" ==>
        var file := Trim(latest.stdout);
        var tail := Ssh(cfg, env, TailCommand(file, cfg.logTailLines));
        result.runFile == Str(file)
        && (tail.Failed? ==> result.runLines == ["run log error: " + Reason(tail)])
        && (tail.Ran? ==> result.runLines == Split(tail.stdout, '\n') && Join(result.runLines, "\n") == tail.stdout))
  {
    result := LogsResult(Null, [], Null, []);

    var latest := Ssh(cfg, env, LatestFileCommand(SessionGlob(cfg)));
    match latest {
      case Failed(_, _) =>
        result := result.(sessionLines := ["session log error: " + Reason(latest)]);
      case Ran(out, _) =>
        var latestSession := Trim(out);
        if latestSession != "" {
          result := result.(sessionFile := Str(latestSession));
          var tail := Ssh(cfg, env, TailCommand(latestSession, cfg.logTailLines));
          match tail {
            case Failed(_, _) =>
              result := result.(sessionLines := ["session log error: " + Reason(tail)]);
            case Ran(lines, _) =>
              SplitPiecesFree(lines, '\n');
              result := result.(sessionLines := NonEmpty(Split(lines, '\n')));
              forall l | l in result.sessionLines ensures '\n' !in l {
                var i :| 0 <= i < |Split(lines, '\n')| && Split(lines, '\n')[i] == l;
              }
          }
        }
    }

    var latestRun := Ssh(cfg, env, LatestFileCommand(RunGlob(cfg)));
    match latestRun {
      case Failed(_, _) =>
        result := result.(runLines := ["run log error: " + Reason(latestRun)]);
      case Ran(out, _) =>
        var runFile := Trim(out);
        if runFile != "" {
          result := result.(runFile := Str(runFile));
          var tail := Ssh(cfg, env, TailCommand(runFile, cfg.logTailLines));
          match tail {
            case Failed(_, _) =>
              result := result.(runLines := ["run log error: " + Reason(tail)]);
            case Ran(lines, _) =>
              SplitJoin(lines, '\n');
              result := result.(runLines := Split(lines, '\n'));
          }
        }
    }
  }

  /** The clock and random readings `/api/chat` takes: the ISO timestamp, the two
      `Date.now()` readings and the random id suffix. */
  datatype Clock = Clock(iso: string, idMs: int, entryMs: int, randomPart: string)

  function DashboardEntryId(clock: Clock): string
  {
    "dash_" + IntToString(clock.idMs) + "_" + clock.randomPart
  }

  /** The session-log record `/api/chat` appends for `message`. */
  function DashboardEntry(clock: Clock, message: string): Value
  {
    Obj(map[
      "type" := Str("message"),
      "id" := Str(DashboardEntryId(clock)),
      "parentId" := Null,
      "timestamp" := Str(clock.iso),
      "message" := Obj(map[
        "role" := Str("user"),
        "content" := Arr([TextPart(DashboardText(clock.iso, message))]),
        "timestamp" := Num(clock.entryMs)])])
  }

  datatype ChatReply = Sent(sessionFile: string) | Rejected(status: int, error: string)

  /** `/api/chat`: a missing, empty or non-string message is refused before any remote
      call; with no session file nothing is appended; otherwise the record is echoed
      onto the end of the newest session file and the file is touched. `calls` are
      the ssh argument vectors in the order they are made. */
  method ApiChat(cfg: Config, env: Env, message: Value, clock: Clock, stringify: Value -> string)
    returns (reply: ChatReply, calls: seq<seq<string>>)
    ensures reply == Rejected(400, "Message required") <==> !(message.Str? && message.s != "")
    ensures !(message.Str? && message.s != "") ==> calls == []
    ensures message.Str? && message.s != "" ==>
      var latest := Ssh(cfg, env, LatestFileCommand(SessionGlob(cfg)));
      calls != [] && calls[0] == SshCall(cfg, env.home, env.join, LatestFileCommand(SessionGlob(cfg)))
      && (latest.Failed? ==> reply == Rejected(500, Reason(latest)) && |calls| == 1)
      && (latest.Ran? && Trim(latest.stdout) == "" ==> reply == Rejected(404, "No active session found") && |calls| == 1)
      && (latest.Ran? && Trim(latest.stdout) != "" ==>
        var file := Trim(latest.stdout);
        var append := AppendCommand(stringify(DashboardEntry(clock, message.s)), file);
        var touch := TouchCommand(file);
        |calls| >= 2 && calls[1] == SshCall(cfg, env.home, env.join, append)
        && (reply.Sent? <==> Ssh(cfg, env, append).Ran? && Ssh(cfg, env, touch).Ran?)
        && (Ssh(cfg, env, append).Failed? ==> reply == Rejected(500, Reason(Ssh(cfg, env, append))) && |calls| == 2)
        && (Ssh(cfg, env, append).Ran? && Ssh(cfg, env, touch).Failed? ==>
          reply == Rejected(500, Reason(Ssh(cfg, env, touch))) && |calls| == 3 && calls[2] == SshCall(cfg, env.home, env.join, touch))
        && (reply.Sent? ==> reply.sessionFile == file && |calls| == 3 && calls[2] == SshCall(cfg, env.home, env.join, touch)))
  {
    calls := [];
    if !Truthy(message) || !message.Str? {
      return Rejected(400, "Message required"), calls;
    }
    var sessionGlob := SessionGlob(cfg);
    var latest := Ssh(cfg, env, LatestFileCommand(sessionGlob));
    calls := calls + [SshCall(cfg, env.home, env.join, LatestFileCommand(sessionGlob))];
    if latest.Failed? {
      return Rejected(500, Reason(latest)), calls;
    }
    var latestSession := Trim(latest.stdout);
    if latestSession == "" {
      return Rejected(404, "No active session found"), calls;
    }
    // computed by the handler and never used
    var sessionId := SessionId(latestSession);
    var messageEntry := stringify(DashboardEntry(clock, message.s));
    var cmd := AppendCommand(messageEntry, latestSession);
    var appended := Ssh(cfg, env, cmd);
    calls := calls + [SshCall(cfg, env.home, env.join, cmd)];
    if appended.Failed? {
      return Rejected(500, Reason(appended)), calls;
    }
    var touchCmd := TouchCommand(latestSession);
    var touched := Ssh(cfg, env, touchCmd);
    calls := calls + [SshCall(cfg, env.home, env.join, touchCmd)];
    if touched.Failed? {
      return Rejected(500, Reason(touched)), calls;
    }
    reply := Sent(latestSession);
  }
}
