/** The git adapter of the changed-files package
    (packages/jest-changed-files/src/git.ts): which `git` argument lists it
    runs for a set of options, how their standard output is parsed into
    absolute paths, and how failures surface. Spawning `git` (execa) and
    Node's `path` functions are oracles held by a `Host`. */
module GitChangedFiles {
  import opened Wrappers
  import Text

  /** How one `execa('git', args, {cwd})` call settles. */
  datatype ExecOutcome =
    | Exited(stdout: string)
    | Failed(stderr: string, message: string)

  /** The error the adapter rethrows: execa's error with `message`
      overwritten by the command's standard error. */
  datatype GitError = GitError(message: string, stderr: string)

  datatype Host = Host(
    /** `execa('git', args, {cwd})` */
    exec: (seq<string>, string) -> ExecOutcome,
    /** `path.resolve(cwd, p)` */
    resolve: (string, string) -> string,
    /** `path.normalize(path.relative(cwd, root))` */
    relativize: (string, string) -> string
  )

  /** The adapter's options. Absent booleans are `false`; `changedSince`
      and `includePaths` may be absent. */
  datatype Options = Options(
    lastCommit: bool,
    withAncestor: bool,
    changedSince: Option<string>,
    includePaths: Option<seq<string>>
  )

  /** The argument lists `findChangedFiles` runs: one command, or the three
      commands whose outputs are concatenated when a base revision is given. */
  datatype CommandPlan =
    | Single(args: seq<string>)
    | SinceRevision(committed: seq<string>, staged: seq<string>, unstaged: seq<string>)

  const ShowLastCommit: seq<string> := ["show", "--name-only", "--pretty=format:", "HEAD"]
  const StagedDiff: seq<string> := ["diff", "--cached", "--name-only"]
  const UntrackedOrModified: seq<string> := ["ls-files", "--other", "--modified", "--exclude-standard"]

  function CommittedLog(since: string): seq<string> {
    ["log", "--name-only", "--pretty=format:", "HEAD", "^" + since]
  }

  /** `args` is `prefix` followed by exactly the include paths. */
  predicate EndsWithIncludes(args: seq<string>, prefix: seq<string>, includes: seq<string>) {
    |args| == |prefix| + |includes| && args[..|prefix|] == prefix && args[|prefix|..] == includes
  }

  /** The non-empty lines of `git`'s standard output, in order. */
  function ChangedLines(stdout: string): seq<string> {
    Text.NonEmpty(Text.Split(stdout, '\n'))
  }

  /** Every parsed line is a non-empty piece of the output holding no line
      break, and together the lines are the whole output minus its line
      breaks: nothing but separators and empty lines is dropped. */
  lemma ChangedLinesSpec(stdout: string)
    ensures forall i :: 0 <= i < |ChangedLines(stdout)| ==>
      |ChangedLines(stdout)[i]| > 0 && '\n' !in ChangedLines(stdout)[i]
    ensures Text.Concat(ChangedLines(stdout)) == Text.Without(stdout, '\n')
  {
    var pieces := Text.Split(stdout, '\n');
    Text.ConcatSplit(stdout, '\n');
    Text.NonEmptyConcat(pieces);
    forall i | 0 <= i < |ChangedLines(stdout)|
      ensures '\n' !in ChangedLines(stdout)[i]
    {
      var line := ChangedLines(stdout)[i];
      assert line in pieces;
      var k :| 0 <= k < |pieces| && pieces[k] == line;
    }
  }

  /** Parsing inverts printing: non-empty file names without line breaks,
      written one per line, are read back exactly. */
  lemma ChangedLinesJoin(lines: seq<string>)
    requires forall i :: 0 <= i < |lines| ==> |lines[i]| > 0 && '\n' !in lines[i]
    ensures ChangedLines(Text.Join(lines, '\n')) == lines
  {
    if |lines| == 0 {
      assert Text.Split("", '\n') == [""];
    } else {
      Text.SplitJoin(lines, '\n');
      Text.NonEmptyKeepsAll(lines);
    }
  }

  /** The tail of `findChangedFilesUsingCommand`: each non-empty output
      line, in order, resolved against `cwd`. */
  function ParseChangedFiles(stdout: string, cwd: string, host: Host): (r: seq<string>)
    ensures |r| == |ChangedLines(stdout)|
    ensures forall i :: 0 <= i < |r| ==> r[i] == host.resolve(cwd, ChangedLines(stdout)[i])
  {
    var lines := ChangedLines(stdout);
    seq(|lines|, i requires 0 <= i < |lines| => host.resolve(cwd, lines[i]))
  }

  /** `findChangedFilesUsingCommand`: run `git args` in `cwd`; on failure
      rethrow with the message replaced by the standard error. */
  function RunGit(args: seq<string>, cwd: string, host: Host): (r: Result<seq<string>, GitError>)
    ensures host.exec(args, cwd).Exited? <==> r.Success?
    ensures r.Success? ==> r.value == ParseChangedFiles(host.exec(args, cwd).stdout, cwd, host)
    ensures r.Failure? ==> r.error.message == host.exec(args, cwd).stderr
  {
    match host.exec(args, cwd)
    case Exited(stdout) => Success(ParseChangedFiles(stdout, cwd, host))
    case Failed(stderr, _) => Failure(GitError(stderr, stderr))
  }

  /** The base revision: `HEAD^` when `withAncestor` is set, otherwise
      `options.changedSince`; nothing when there are no options. */
  function EffectiveSince(options: Option<Options>): (r: Option<string>)
    ensures options.None? ==> r.None?
    ensures options.Some? && options.value.withAncestor ==> r == Some("HEAD^")
    ensures options.Some? && !options.value.withAncestor ==> r == options.value.changedSince
  {
    match options
    case None => None
    case Some(o) => if o.withAncestor then Some("HEAD^") else o.changedSince
  }

  /** The include paths, each made relative to `cwd`; none without options. */
  function IncludePaths(cwd: string, options: Option<Options>, host: Host): (r: seq<string>)
    ensures (options.None? || options.value.includePaths.None?) ==> r == []
    ensures options.Some? && options.value.includePaths.Some? ==>
      |r| == |options.value.includePaths.value| &&
      forall i :: 0 <= i < |r| ==> r[i] == host.relativize(cwd, options.value.includePaths.value[i])
  {
    var roots := if options.Some? && options.value.includePaths.Some? then options.value.includePaths.value else [];
    seq(|roots|, i requires 0 <= i < |roots| => host.relativize(cwd, roots[i]))
  }

  /** JavaScript truthiness of an optional string: present and non-empty. */
  predicate Truthy(s: Option<string>) {
    s.Some? && s.value != ""
  }

  /** The command selection of `findChangedFiles`. */
  function PlanCommands(cwd: string, options: Option<Options>, host: Host): (r: CommandPlan)
    // `lastCommit` wins over any base revision
    ensures options.Some? && options.value.lastCommit ==>
      r.Single? && EndsWithIncludes(r.args, ShowLastCommit, IncludePaths(cwd, options, host))
    // a non-empty base revision runs the three commands
    ensures r.SinceRevision? <==>
      !(options.Some? && options.value.lastCommit) && Truthy(EffectiveSince(options))
    ensures r.SinceRevision? ==>
      && EndsWithIncludes(r.committed, CommittedLog(EffectiveSince(options).value), IncludePaths(cwd, options, host))
      && EndsWithIncludes(r.staged, StagedDiff, IncludePaths(cwd, options, host))
      && EndsWithIncludes(r.unstaged, UntrackedOrModified, IncludePaths(cwd, options, host))
    // otherwise (no options, no base revision, or an empty one) only `ls-files`
    ensures !(options.Some? && options.value.lastCommit) && !Truthy(EffectiveSince(options)) ==>
      r.Single? && EndsWithIncludes(r.args, UntrackedOrModified, IncludePaths(cwd, options, host))
  {
    var since := EffectiveSince(options);
    var includes := IncludePaths(cwd, options, host);
    if options.Some? && options.value.lastCommit then
      Single(ShowLastCommit + includes)
    else if Truthy(since) then
      SinceRevision(CommittedLog(since.value) + includes, StagedDiff + includes, UntrackedOrModified + includes)
    else
      Single(UntrackedOrModified + includes)
  }

  /** `adapter.findChangedFiles`: run the planned commands one after the
      other; the first failure rejects the whole call. */
  function FindChangedFiles(cwd: string, options: Option<Options>, host: Host): (r: Result<seq<string>, GitError>)
    ensures PlanCommands(cwd, options, host).Single? ==>
      r == RunGit(PlanCommands(cwd, options, host).args, cwd, host)
    ensures PlanCommands(cwd, options, host).SinceRevision? ==>
      var p := PlanCommands(cwd, options, host);
      var c := RunGit(p.committed, cwd, host);
      var s := RunGit(p.staged, cwd, host);
      var u := RunGit(p.unstaged, cwd, host);
      && (r.Success? <==> c.Success? && s.Success? && u.Success?)
      && (r.Success? ==> r.value == c.value + s.value + u.value)
      && (c.Failure? ==> r == Failure(c.error))
      && (c.Success? && s.Failure? ==> r == Failure(s.error))
      && (c.Success? && s.Success? && u.Failure? ==> r == Failure(u.error))
  {
    match PlanCommands(cwd, options, host)
    case Single(args) => RunGit(args, cwd, host)
    case SinceRevision(committedArgs, stagedArgs, unstagedArgs) =>
      var committed :- RunGit(committedArgs, cwd, host);
      var staged :- RunGit(stagedArgs, cwd, host);
      var unstaged :- RunGit(unstagedArgs, cwd, host);
      Success(committed + staged + unstaged)
  }

  /** `withAncestor` replaces whatever `changedSince` says with `HEAD^`. */
  lemma WithAncestorOverridesChangedSince(cwd: string, o: Options, other: Option<string>, host: Host)
    requires o.withAncestor
    ensures PlanCommands(cwd, Some(o), host) == PlanCommands(cwd, Some(o.(changedSince := other)), host)
    ensures !o.lastCommit ==>
      PlanCommands(cwd, Some(o), host) ==
      SinceRevision(
        CommittedLog("HEAD^") + IncludePaths(cwd, Some(o), host),
        StagedDiff + IncludePaths(cwd, Some(o), host),
        UntrackedOrModified + IncludePaths(cwd, Some(o), host))
  {
  }

  /** `adapter.getRoot`: `git rev-parse --show-cdup` resolved against `cwd`,
      or null when the command fails. */
  function GetRoot(cwd: string, host: Host): (r: Option<string>)
    ensures host.exec(["rev-parse", "--show-cdup"], cwd).Failed? <==> r.None?
    ensures r.Some? ==> r.value == host.resolve(cwd, host.exec(["rev-parse", "--show-cdup"], cwd).stdout)
  {
    match host.exec(["rev-parse", "--show-cdup"], cwd)
    case Exited(stdout) => Some(host.resolve(cwd, stdout))
    case Failed(_, _) => None
  }
}
