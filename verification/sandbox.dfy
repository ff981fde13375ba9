/** The sandbox runner (backend/src/services/sandbox.ts): the shell command a
    run executes, the shape of its result, and the crash evidence extracted
    from the captured output. Copying the project, creating directories and
    running docker are left to an `ExecOutcome` oracle; the two regular
    expressions are the `Matchers` parameter. */
module Sandbox {
  import opened Wrappers
  import opened Strings
  import opened Types

  /** `buildInstallCommand`. */
  function InstallCommand(u: DependencyUpdate): string {
    match u.kind
    case Npm => "npm install " + u.name + "@" + u.latestVersion
    case Pypi => "pip install " + u.name + "==" + u.latestVersion
  }

  /** The single pipeline a run executes: the install, then the project's own
      test command, only if the install succeeded. */
  function ShellCommand(u: DependencyUpdate, projectCommand: string): string {
    InstallCommand(u) + " && " + projectCommand
  }

  /** When one cut leaves the shorter suffix, the other suffix holds `c`. */
  lemma SeparatorInLongerSuffix(x: string, y: string, x2: string, y2: string, c: char)
    requires x + [c] + y == x2 + [c] + y2
    requires |y| < |y2|
    ensures y2[|y2| - |y| - 1] == c
  {
    var s := x + [c] + y;
    assert s[|x|] == c;
    assert s[|x|] == y2[|x| - |x2| - 1];
  }

  /** Two strings cut at the last occurrence of `c` agree on both sides of it. */
  lemma {:induction false} CutAtLast(x: string, y: string, x2: string, y2: string, c: char)
    requires x + [c] + y == x2 + [c] + y2
    requires c !in y && c !in y2
    ensures x == x2 && y == y2
  {
    var s := x + [c] + y;
    if |y| < |y2| {
      SeparatorInLongerSuffix(x, y, x2, y2, c);
      assert false;
    }
    if |y2| < |y| {
      SeparatorInLongerSuffix(x2, y2, x, y, c);
      assert false;
    }
    assert y == s[|s| - |y|..] == y2;
    assert x == s[..|x|] == x2;
  }

  /** The install command identifies its target: kind, package and version can
      be read back from it, for versions without `@` or `=` (no valid version
      has either). */
  lemma InstallCommandInjective(a: DependencyUpdate, b: DependencyUpdate)
    requires '@' !in a.latestVersion && '=' !in a.latestVersion
    requires '@' !in b.latestVersion && '=' !in b.latestVersion
    requires InstallCommand(a) == InstallCommand(b)
    ensures a.kind == b.kind && a.name == b.name && a.latestVersion == b.latestVersion
  {
    var s := InstallCommand(a);
    assert s[0] == (if a.kind == Npm then 'n' else 'p');
    assert s[0] == (if b.kind == Npm then 'n' else 'p');
    match a.kind
    case Npm =>
      assert s == ("npm install " + a.name) + ['@'] + a.latestVersion;
      assert s == ("npm install " + b.name) + ['@'] + b.latestVersion;
      CutAtLast("npm install " + a.name, a.latestVersion, "npm install " + b.name, b.latestVersion, '@');
      assert a.name == ("npm install " + a.name)[12..];
      assert b.name == ("npm install " + b.name)[12..];
    case Pypi =>
      assert s == ("pip install " + a.name + "=") + ['='] + a.latestVersion;
      assert s == ("pip install " + b.name + "=") + ['='] + b.latestVersion;
      CutAtLast("pip install " + a.name + "=", a.latestVersion, "pip install " + b.name + "=", b.latestVersion, '=');
      assert a.name == ("pip install " + a.name + "=")[12..|a.name| + 12];
      assert b.name == ("pip install " + b.name + "=")[12..|b.name| + 12];
  }

  /** What the docker invocation did: exited normally, or threw (a non-zero
      exit, a timeout or a failure to start), with whatever the error object
      carried. */
  datatype ExecOutcome =
    | Exited(stdout: string, stderr: string, exitCode: Option<int>)
    | Threw(errStdout: Option<string>, errStderr: Option<string>, errExitCode: Option<int>)

  /** The two line matchers: `path:line` and `deprecated <api>`. */
  datatype Matchers = Matchers(pathLine: string -> Option<(string, int)>, deprecatedApi: string -> Option<string>)

  datatype SandboxResult = SandboxResult(
    crashed: bool,
    stdout: string,
    stderr: string,
    exitCode: Option<int>,
    stacktrace: Option<string>,
    file: Option<string>,
    line: Option<int>,
    api: Option<string>,
    command: string)

  /** What one output line says about the crash. */
  datatype LineEvidence = NoMatch | PathLine(file: string, line: int) | DeprecatedApi(api: string)

  /** A line's evidence: a `path:line` match takes priority over a
      `deprecated` match on the same line. */
  function Classify(m: Matchers, line: string): LineEvidence {
    match m.pathLine(line)
    case Some(hit) => PathLine(hit.0, hit.1)
    case None =>
      match m.deprecatedApi(line)
      case Some(api) => DeprecatedApi(api)
      case None => NoMatch
  }

  /** The loop of `parseStack`: lines are tried in order and the first one
      with any match decides. */
  function Scan(m: Matchers, lines: seq<string>): LineEvidence
    decreases |lines|
  {
    if |lines| == 0 then NoMatch
    else if Classify(m, lines[0]) != NoMatch then Classify(m, lines[0])
    else Scan(m, lines[1..])
  }

  /** The index of the first line with any match. */
  function FirstHit(m: Matchers, lines: seq<string>): (r: Option<nat>)
    ensures r.Some? ==> r.value < |lines| && Classify(m, lines[r.value]) != NoMatch
    ensures r.Some? ==> forall j :: 0 <= j < r.value ==> Classify(m, lines[j]) == NoMatch
    ensures r.None? ==> forall j :: 0 <= j < |lines| ==> Classify(m, lines[j]) == NoMatch
    decreases |lines|
  {
    if |lines| == 0 then None
    else if Classify(m, lines[0]) != NoMatch then Some(0)
    else
      match FirstHit(m, lines[1..])
      case Some(i) => Some(i + 1)
      case None => None
  }

  /** First match wins: the scan's verdict is the evidence of the first line
      that matches either pattern, and no match at all when none does. */
  lemma {:induction false} ScanIsFirstHit(m: Matchers, lines: seq<string>)
    ensures Scan(m, lines) == match FirstHit(m, lines)
                              case Some(i) => Classify(m, lines[i])
                              case None => NoMatch
    decreases |lines|
  {
    if |lines| > 0 && Classify(m, lines[0]) == NoMatch {
      ScanIsFirstHit(m, lines[1..]);
    }
  }

  /** Keeps the non-empty strings, in order (`filter(Boolean)`). */
  function NonEmpty(xs: seq<string>): (r: seq<string>)
    ensures forall k :: 0 <= k < |r| ==> r[k] != [] && r[k] in xs
    ensures |r| <= |xs|
    decreases |xs|
  {
    if |xs| == 0 then []
    else (if xs[0] == [] then [] else [xs[0]]) + NonEmpty(xs[1..])
  }

  /** Exactly the non-empty strings of `xs` are kept. */
  lemma {:induction false} NonEmptyMembers(xs: seq<string>)
    ensures forall x :: x in NonEmpty(xs) <==> x in xs && x != []
    decreases |xs|
  {
    if |xs| > 0 {
      NonEmptyMembers(xs[1..]);
      assert xs == [xs[0]] + xs[1..];
    }
  }

  /** Filtering keeps the order: the kept strings of two stretches are those
      of the first, then those of the second. */
  lemma {:induction false} NonEmptyAppend(a: seq<string>, b: seq<string>)
    ensures NonEmpty(a + b) == NonEmpty(a) + NonEmpty(b)
    decreases |a|
  {
    if |a| == 0 {
      assert a + b == b;
    } else {
      var head: seq<string> := if a[0] == [] then [] else [a[0]];
      assert (a + b)[0] == a[0] && (a + b)[1..] == a[1..] + b;
      assert NonEmpty(a + b) == head + NonEmpty(a[1..] + b);
      assert NonEmpty(a) == head + NonEmpty(a[1..]);
      NonEmptyAppend(a[1..], b);
    }
  }

  /** `output.split('\n').filter(Boolean)`. */
  function OutputLines(output: string): (lines: seq<string>)
    ensures forall k :: 0 <= k < |lines| ==> lines[k] != [] && '\n' !in lines[k]
  {
    var parts := Split(output, "\n");
    SplitPieces(output, "\n");
    var lines := NonEmpty(parts);
    forall k | 0 <= k < |lines| ensures '\n' !in lines[k] {
      var j :| 0 <= j < |parts| && parts[j] == lines[k];
      NotContainsChar(parts[j], '\n');
    }
    lines
  }

  /** The lines are exactly the non-empty pieces of the output between
      newlines. */
  lemma OutputLinesMembers(output: string)
    ensures forall line :: line in OutputLines(output) <==> line != [] && line in Split(output, "\n")
  {
    NonEmptyMembers(Split(output, "\n"));
  }

  /** How many trailing lines the stack keeps. */
  const StackDepth: nat := 25

  /** `xs.slice(-n)` for positive `n`: the last `n` elements, or all of them. */
  function Tail<T>(xs: seq<T>, n: nat): (r: seq<T>)
    ensures |r| == if |xs| <= n then |xs| else n
    ensures r == xs[|xs| - |r|..]
  {
    if |xs| <= n then xs else xs[|xs| - n..]
  }

  datatype StackInfo = StackInfo(stack: string, file: Option<string>, line: Option<int>, api: Option<string>)

  /** `parseStack`. Its declared result may be null, but every path returns an
      object: the tail of the output as `stack`, plus the evidence of the first
      matching line of the whole output. */
  function ParseStack(m: Matchers, output: string): (r: Option<StackInfo>)
    ensures r.Some?
    ensures r.value.file.Some? <==> r.value.line.Some?
    ensures r.value.api.Some? ==> r.value.file.None?
    ensures r.value.file.Some? <==> Scan(m, OutputLines(output)).PathLine?
    ensures r.value.api.Some? <==> Scan(m, OutputLines(output)).DeprecatedApi?
    ensures var ev := Scan(m, OutputLines(output));
            ev.PathLine? ==> r.value.file == Some(ev.file) && r.value.line == Some(ev.line)
    ensures var ev := Scan(m, OutputLines(output));
            ev.DeprecatedApi? ==> r.value.api == Some(ev.api)
  {
    var lines := OutputLines(output);
    var stack := Join(Tail(lines, StackDepth), "\n");
    match Scan(m, lines)
    case PathLine(file, line) => Some(StackInfo(stack, Some(file), Some(line), None))
    case DeprecatedApi(api) => Some(StackInfo(stack, None, None, Some(api)))
    case NoMatch => Some(StackInfo(stack, None, None, None))
  }

  /** The stack is exactly the last (at most 25) non-empty lines: split it on
      newlines and they come back; with no such line it is empty. */
  lemma StackIsTail(m: Matchers, output: string)
    ensures var lines := OutputLines(output);
            var stack := ParseStack(m, output).value.stack;
            (|lines| == 0 ==> stack == []) && (|lines| > 0 ==> Split(stack, "\n") == Tail(lines, StackDepth))
  {
    var lines := OutputLines(output);
    var tail := Tail(lines, StackDepth);
    if |lines| > 0 {
      forall k | 0 <= k < |tail| ensures '\n' !in tail[k] {
        assert tail[k] == lines[|lines| - |tail| + k];
      }
      SplitJoin(tail, '\n');
    }
  }

  /** The scan is over every line, not only the tail kept as the stack: with
      more than 25 lines, a match on the very first line still decides the
      evidence although that line is not part of the stack. */
  lemma ScanCoversWholeOutput(m: Matchers, output: string, file: string, line: int)
    requires |OutputLines(output)| > StackDepth
    requires m.pathLine(OutputLines(output)[0]) == Some((file, line))
    ensures ParseStack(m, output).value.file == Some(file)
    ensures ParseStack(m, output).value.line == Some(line)
  {
  }

  /** `parseStack(stderr) || parseStack(stdout)`. */
  function CrashEvidence(m: Matchers, stderr: string, stdout: string): Option<StackInfo> {
    match ParseStack(m, stderr)
    case Some(info) => Some(info)
    case None => ParseStack(m, stdout)
  }

  /** The fallback to stdout is never taken: the evidence of a crash depends
      on stderr alone. */
  lemma EvidenceIgnoresStdout(m: Matchers, stderr: string, stdout: string, stdout2: string)
    ensures CrashEvidence(m, stderr, stdout) == CrashEvidence(m, stderr, stdout2)
    ensures CrashEvidence(m, stderr, stdout) == ParseStack(m, stderr)
  {
  }

  /** `runSandbox` once the project copy is in place and docker has run. */
  function RunSandbox(m: Matchers, u: DependencyUpdate, projectCommand: string, exec: ExecOutcome): (r: SandboxResult)
    ensures r.command == ShellCommand(u, projectCommand)
    ensures r.crashed <==> exec.Threw?
    ensures exec.Exited? ==> r.stdout == exec.stdout && r.stderr == exec.stderr && r.exitCode == exec.exitCode
    ensures !r.crashed ==> r.stacktrace.None? && r.file.None? && r.line.None? && r.api.None?
    ensures exec.Threw? ==> r.stdout == exec.errStdout.GetOr("") && r.stderr == exec.errStderr.GetOr("")
    ensures exec.Threw? ==> r.exitCode == exec.errExitCode
    ensures r.crashed ==> r.stacktrace.Some?
    ensures r.crashed ==> var info := ParseStack(m, r.stderr).value;
                          r.stacktrace == Some(info.stack) && r.file == info.file && r.line == info.line && r.api == info.api
  {
    var command := ShellCommand(u, projectCommand);
    match exec
    case Exited(stdout, stderr, exitCode) =>
      SandboxResult(false, stdout, stderr, exitCode, None, None, None, None, command)
    case Threw(errStdout, errStderr, errExitCode) =>
      var stdout := errStdout.GetOr("");
      var stderr := errStderr.GetOr("");
      match CrashEvidence(m, stderr, stdout)
      case Some(info) =>
        SandboxResult(true, stdout, stderr, errExitCode, Some(info.stack), info.file, info.line, info.api, command)
      case None =>
        SandboxResult(true, stdout, stderr, errExitCode, None, None, None, None, command)
  }
}
