/**
 `repository_implementation` of src/league/delegation_policy.py: which tool calls
 count as an effect on a repository. The file system and Python's Unicode tables
 are inputs (`Host`); the payload is taken as already split into an edit with its
 targets or a shell command.
 */
module RepositoryPolicy {
  import opened Prelude
  import opened ShellWords

  /** A POSIX `pathlib.Path`: its root ("", "/" or "//") and its parts. */
  datatype Path = Path(root: string, parts: seq<string>) {
    predicate IsAbsolute() { root != "" }

    /** The `name` property. */
    function Name(): string { if parts == [] then "" else parts[|parts| - 1] }

    /** `this / other` */
    function Join(other: Path): (r: Path)
      ensures IsAbsolute() ==> r.IsAbsolute()
    {
      if other.IsAbsolute() then other else Path(root, parts + other.parts)
    }
  }

  /** Everything the policy reads from the machine it runs on. */
  datatype Host = Host(
    alnum: Alnum,
    digit: char -> bool,
    home: string -> Path,        // what expanduser puts for a leading "~..." part
    inRepository: Path -> bool)  // the resolved path or one of its parents holds ".git"

  function SplitParts(s: string, part: string): seq<string> {
    if s == "" then KeepPart(part)
    else if s[0] == '/' then KeepPart(part) + SplitParts(s[1..], "")
    else SplitParts(s[1..], part + [s[0]])
  }

  function KeepPart(part: string): seq<string> {
    if part == "" || part == "." then [] else [part]
  }

  function ParsePath(s: string): Path {
    var root :=
      if OccursAt(s, 0, "//") && !OccursAt(s, 0, "///") then "//"
      else if OccursAt(s, 0, "/") then "/" else "";
    Path(root, SplitParts(s, ""))
  }

  function ExpandUser(host: Host, p: Path): Path {
    if !p.IsAbsolute() && p.parts != [] && OccursAt(p.parts[0], 0, "~") then
      host.home(p.parts[0]).Join(Path("", p.parts[1..]))
    else p
  }

  /** `_repository_path` */
  predicate RepositoryPath(host: Host, value: Path, cwd: Path) {
    var candidate := ExpandUser(host, value);
    host.inRepository(if candidate.IsAbsolute() then candidate else cwd.Join(candidate))
  }

  const SLASH := Path("/", [])

  /** `_shell_path` */
  function ShellPath(host: Host, word: string, cwd: Option<Path>): Option<Path> {
    var literal := Decode(host.alnum, word);
    if literal.None? then None
    else
      var path := ParsePath(literal.value);
      if path.IsAbsolute() then Some(path)
      else if cwd.None? then None
      else Some(cwd.value.Join(path))
  }

  /** `_shell_target` */
  predicate ShellTarget(host: Host, word: string, cwd: Option<Path>) {
    var path := ShellPath(host, word, cwd);
    path.None? || RepositoryPath(host, path.value, SLASH)
  }

  datatype Call = Edit(targets: seq<string>) | Shell(command: string) | Other

  // ------------------------------------------------- edits

  predicate EditImplementation(host: Host, targets: seq<string>, cwd: Option<Path>) {
    if cwd.None? then
      targets == [] || exists t <- targets ::
        !ParsePath(t).IsAbsolute() || RepositoryPath(host, ParsePath(t), SLASH)
    else if targets == [] then RepositoryPath(host, cwd.value, cwd.value)
    else exists t <- targets :: RepositoryPath(host, ParsePath(t), cwd.value)
  }

  // ------------------------------------------------- segments of a command

  predicate Separates(token: string) { token in [";", "&&", "||", "|", "&", "\n"] }

  /** The words of each segment; a token that starts with `#` hides the rest of its line. */
  function Segments(tokens: seq<Piece>, segment: seq<string>, comment: bool): seq<seq<string>> {
    if tokens == [] then [segment]
    else
      var token := tokens[0].text;
      var hidden := token != "\n" && (OccursAt(token, 0, "#") || comment);
      if hidden then Segments(tokens[1..], segment, true)
      else if Separates(token) then [segment] + Segments(tokens[1..], [], false)
      else Segments(tokens[1..], segment + [token], false)
  }

  method SplitSegments(command: string) returns (segments: seq<seq<string>>)
    ensures segments == Segments(Tokens(Pieces(command)), [], false)
  {
    var tokens := Tokens(Pieces(command));
    var segment: seq<string> := [];
    var comment := false;
    segments := [];
    assert tokens[0..] == tokens;
    for i := 0 to |tokens|
      invariant segments + Segments(tokens[i..], segment, comment) == Segments(tokens, [], false)
    {
      var token := tokens[i].text;
      assert tokens[i..][1..] == tokens[i + 1..];
      if token == "\n" {
        comment := false;
      } else if OccursAt(token, 0, "#") {
        comment := true;
      }
      if comment {
        continue;
      }
      if Separates(token) {
        segments := segments + [segment];
        segment := [];
      } else {
        segment := segment + [token];
      }
    }
    segments := segments + [segment];
  }

  predicate Redirects(word: string) { word in [">", ">>", ">|", ">&", "&>", "&>>"] }

  predicate Descriptor(host: Host, word: string) {
    var literal := Decode(host.alnum, word);
    literal.Some? && (literal.value == "-" ||
      (literal.value != "" && forall c <- literal.value :: host.digit(c)))
  }

  /** The word at `k` redirects output to a target that may be in a repository. */
  predicate RedirectsAt(host: Host, words: seq<string>, k: nat, cwd: Option<Path>)
    requires k + 1 < |words|
  {
    && !(words[k] == ">&" && Descriptor(host, words[k + 1]))
    && Redirects(words[k])
    && ShellTarget(host, words[k + 1], cwd)
  }

  /** `^[A-Za-z_][A-Za-z0-9_]*=` matches. */
  predicate Assigns(word: string) {
    exists k | 1 <= k < |word| ::
      word[k] == '=' && NameStart(word[0]) && forall j | 0 < j < k :: NameStart(word[j]) || IsDigit(word[j])
  }

  predicate NameStart(c: char) { 'A' <= c <= 'Z' || 'a' <= c <= 'z' || c == '_' }

  function SkipAssignments(words: seq<string>): seq<string> {
    if words != [] && Assigns(words[0]) then SkipAssignments(words[1..]) else words
  }

  function Executable(host: Host, word: string): string {
    var literal := Decode(host.alnum, word);
    ParsePath(if literal.Some? then literal.value else "").Name()
  }

  predicate LiteralIn(host: Host, word: string, values: seq<string>) {
    Decode(host.alnum, word).Some? && Decode(host.alnum, word).value in values
  }

  function SkipCdOptions(host: Host, args: seq<string>): seq<string> {
    if args != [] && LiteralIn(host, args[0], ["--", "-L", "-P"]) then SkipCdOptions(host, args[1..])
    else args
  }

  /** The arguments after the leading `-C` options, and the directory they select. */
  function GitDirectory(host: Host, args: seq<string>, cwd: Option<Path>): (seq<string>, Option<Path>) {
    if |args| > 2 && LiteralIn(host, args[0], ["-C"]) then
      GitDirectory(host, args[2..], ShellPath(host, args[1], cwd))
    else (args, cwd)
  }

  /** `^-[^-]*i` matches. */
  predicate InPlaceFlag(literal: string) {
    literal != "" && literal[0] == '-' &&
    exists k | 0 < k < |literal| :: literal[k] == 'i' && forall j | 0 < j < k :: literal[j] != '-'
  }

  predicate InPlace(host: Host, arg: string) {
    var literal := Decode(host.alnum, arg);
    literal.Some? && (InPlaceFlag(literal.value) || literal.value == "--in-place")
  }

  const TARGET_OPTION := "--target-directory="

  /** The directory that the argument at `k` names as a target, with the one after it or by itself. */
  function DirectoryAt(host: Host, args: seq<string>, k: nat): Option<string>
    requires k < |args|
  {
    if LiteralIn(host, args[k], ["-t", "--target-directory"]) && k + 1 < |args| then Some(args[k + 1])
    else if OccursAt(args[k], 0, TARGET_OPTION) then Some(args[k][|TARGET_OPTION|..])
    else None
  }

  /** `targets` after looking at `args[k..]` for a target directory. */
  function CopyTargets(host: Host, args: seq<string>, k: nat, move: bool, targets: seq<string>): seq<string>
    requires k <= |args|
    decreases |args| - k
  {
    if k == |args| then targets
    else
      var directory := DirectoryAt(host, args, k);
      var next := if directory.Some? then [directory.value] + (if move then targets else []) else targets;
      CopyTargets(host, args, k + 1, move, next)
  }

  function WriteTargets(host: Host, executable: string, args: seq<string>): seq<string> {
    var targets := if executable == "cp" && args != [] then args[|args| - 1..] else args;
    if executable in ["cp", "mv"] then CopyTargets(host, args, 0, executable == "mv", targets)
    else targets
  }

  predicate AnyTarget(host: Host, targets: seq<string>, cwd: Option<Path>) {
    exists t <- targets :: !OccursAt(t, 0, "-") && ShellTarget(host, t, cwd)
  }

  /** What one segment decides: the whole call is an effect, or go on in a directory. */
  datatype Verdict = Effect | Continue(cwd: Option<Path>)

  function InspectCommand(host: Host, words: seq<string>, cwd: Option<Path>): Verdict
    requires words != []
  {
    var executable, args := Executable(host, words[0]), words[1..];
    if executable == "cd" then
      var rest := SkipCdOptions(host, args);
      Continue(if rest != [] && !LiteralIn(host, rest[0], ["-"]) then ShellPath(host, rest[0], cwd) else None)
    else if executable == "git" then
      var (rest, directory) := GitDirectory(host, args, cwd);
      if rest != [] && LiteralIn(host, rest[0], ["apply", "am"]) && ShellTarget(host, ".", directory) then Effect
      else Continue(cwd)
    else if executable in ["apply_patch", "patch"] then
      if ShellTarget(host, ".", cwd) then Effect else Continue(cwd)
    else if executable in ["sed", "perl"] && (exists arg <- args :: InPlace(host, arg)) then
      if ShellTarget(host, args[|args| - 1], cwd) then Effect else Continue(cwd)
    else if executable in ["tee", "touch", "cp", "mv", "rm"] then
      if AnyTarget(host, WriteTargets(host, executable, args), cwd) then Effect else Continue(cwd)
    else Continue(cwd)
  }

  function InspectSegment(host: Host, words: seq<string>, cwd: Option<Path>): Verdict {
    if exists k | 0 <= k < |words| - 1 :: RedirectsAt(host, words, k, cwd) then Effect
    else if SkipAssignments(words) == [] then Continue(cwd)
    else InspectCommand(host, SkipAssignments(words), cwd)
  }

  predicate InspectSegments(host: Host, segments: seq<seq<string>>, cwd: Option<Path>) {
    segments != [] &&
    match InspectSegment(host, segments[0], cwd)
    case Effect => true
    case Continue(next) => InspectSegments(host, segments[1..], next)
  }

  /** `repository_implementation` on a decoded payload and working directory. */
  predicate Implementation(host: Host, call: Call, cwd: Option<Path>) {
    match call
    case Edit(targets) => EditImplementation(host, targets, cwd)
    case Shell(command) => InspectSegments(host, Segments(Tokens(Pieces(command)), [], false), cwd)
    case Other => false
  }

  /** The loop over the segments, with the working directory it tracks. */
  method RepositoryImplementation(host: Host, call: Call, start: Option<Path>) returns (effect: bool)
    ensures effect == Implementation(host, call, start)
  {
    match call
    case Edit(targets) =>
      return EditImplementation(host, targets, start);
    case Other =>
      return false;
    case Shell(command) =>
      var segments := SplitSegments(command);
      var cwd := start;
      assert segments[0..] == segments;
      for i := 0 to |segments|
        invariant InspectSegments(host, segments[i..], cwd) == Implementation(host, call, start)
      {
        assert segments[i..][1..] == segments[i + 1..];
        var verdict := Inspect(host, segments[i], cwd);
        if verdict.Effect? {
          return true;
        }
        cwd := verdict.cwd;
      }
      return false;
  }

  /** The body of the segment loop. */
  method Inspect(host: Host, segment: seq<string>, start: Option<Path>) returns (verdict: Verdict)
    ensures verdict == InspectSegment(host, segment, start)
  {
    var words := segment;
    for index := 0 to |words| - (if words == [] then 0 else 1)
      invariant forall k | 0 <= k < index :: !RedirectsAt(host, words, k, start)
    {
      if words[index] == ">&" && Descriptor(host, words[index + 1]) {
        continue;
      }
      if Redirects(words[index]) && ShellTarget(host, words[index + 1], start) {
        assert RedirectsAt(host, words, index, start);
        return Effect;
      }
    }
    while words != [] && Assigns(words[0])
      invariant SkipAssignments(words) == SkipAssignments(segment)
    {
      words := words[1..];
    }
    if words == [] {
      return Continue(start);
    }
    verdict := InspectWords(host, words, start);
  }

  /** The chain of executables in the loop body. */
  method InspectWords(host: Host, words: seq<string>, start: Option<Path>) returns (verdict: Verdict)
    requires words != []
    ensures verdict == InspectCommand(host, words, start)
  {
    var executable := Executable(host, words[0]);
    var args := words[1..];
    if executable == "cd" {
      while args != [] && LiteralIn(host, args[0], ["--", "-L", "-P"])
        invariant SkipCdOptions(host, args) == SkipCdOptions(host, words[1..])
      {
        args := args[1..];
      }
      verdict := Continue(if args != [] && !LiteralIn(host, args[0], ["-"]) then ShellPath(host, args[0], start)
          else None);
    } else if executable == "git" {
      var directory;
      args, directory := FindGitDirectory(host, args, start);
      var applies := args != [] && LiteralIn(host, args[0], ["apply", "am"]);
      verdict := if applies && ShellTarget(host, ".", directory) then Effect else Continue(start);
    } else if executable in ["tee", "touch", "cp", "mv", "rm"] {
      var targets := FindTargets(host, executable, args);
      verdict := if AnyTarget(host, targets, start) then Effect else Continue(start);
    } else {
      verdict := InspectCommand(host, words, start);
    }
  }

  /** The loop over the leading `-C` options of `git`. */
  method FindGitDirectory(host: Host, words: seq<string>, start: Option<Path>)
    returns (args: seq<string>, directory: Option<Path>)
    ensures (args, directory) == GitDirectory(host, words, start)
  {
    args, directory := words, start;
    while |args| > 2 && LiteralIn(host, args[0], ["-C"])
      invariant GitDirectory(host, args, directory) == GitDirectory(host, words, start)
    {
      directory := ShellPath(host, args[1], directory);
      args := args[2..];
    }
  }

  /** The loop that lets `-t` and `--target-directory` replace the targets of `cp` and `mv`. */
  method FindTargets(host: Host, executable: string, args: seq<string>) returns (targets: seq<string>)
    ensures targets == WriteTargets(host, executable, args)
  {
    targets := if executable == "cp" && args != [] then args[|args| - 1..] else args;
    if executable in ["cp", "mv"] {
      for index := 0 to |args|
        invariant CopyTargets(host, args, index, executable == "mv", targets)
               == WriteTargets(host, executable, args)
      {
        var kept := if executable == "mv" then targets else [];
        if LiteralIn(host, args[index], ["-t", "--target-directory"]) && index + 1 < |args| {
          targets := [args[index + 1]] + kept;
        } else if OccursAt(args[index], 0, TARGET_OPTION) {
          targets := [args[index][|TARGET_OPTION|..]] + kept;
        }
      }
    }
  }

  // ------------------------------------------------- targets of cp and mv

  predicate NoDirectory(host: Host, args: seq<string>, k: nat) {
    forall j | k <= j < |args| :: DirectoryAt(host, args, j).None?
  }

  lemma {:induction false} NothingCopied(host: Host, args: seq<string>, k: nat, targets: seq<string>)
    requires k <= |args| && NoDirectory(host, args, k)
    ensures CopyTargets(host, args, k, false, targets) == targets
    decreases |args| - k
  {
    if k == |args| {
    } else {
      NothingCopied(host, args, k + 1, targets);
    }
  }

  lemma {:induction false} LastCopied(host: Host, args: seq<string>, k: nat, m: nat, targets: seq<string>)
    requires k <= m < |args| && DirectoryAt(host, args, m).Some? && NoDirectory(host, args, m + 1)
    ensures CopyTargets(host, args, k, false, targets) == [DirectoryAt(host, args, m).value]
    decreases |args| - k
  {
    var directory := DirectoryAt(host, args, k);
    if directory.Some? {
      Neutral([directory.value]);
    }
    if k == m {
      NothingCopied(host, args, k + 1, [directory.value]);
    } else {
      LastCopied(host, args, k + 1, m, if directory.Some? then [directory.value] else targets);
    }
  }

  /** `cp` writes to the directory of its last target option, or to its last argument if it has none. */
  lemma CopyWritesOne(host: Host, args: seq<string>)
    requires args != []
    ensures NoDirectory(host, args, 0) ==> WriteTargets(host, "cp", args) == [args[|args| - 1]]
    ensures forall m: nat | m < |args| && DirectoryAt(host, args, m).Some? && NoDirectory(host, args, m + 1) ::
              WriteTargets(host, "cp", args) == [DirectoryAt(host, args, m).value]
  {
    if NoDirectory(host, args, 0) {
      NothingCopied(host, args, 0, args[|args| - 1..]);
    }
    forall m: nat | m < |args| && DirectoryAt(host, args, m).Some? && NoDirectory(host, args, m + 1)
      ensures WriteTargets(host, "cp", args) == [DirectoryAt(host, args, m).value]
    {
      LastCopied(host, args, 0, m, args[|args| - 1..]);
    }
  }

  /** Some argument from `k` on names the directory `t`. */
  predicate Names(host: Host, args: seq<string>, k: nat, t: string) {
    exists j | k <= j < |args| :: DirectoryAt(host, args, j) == Some(t)
  }

  lemma {:induction false} MovedFrom(host: Host, args: seq<string>, k: nat, targets: seq<string>, t: string)
    requires k <= |args|
    ensures t in CopyTargets(host, args, k, true, targets) <==> t in targets || Names(host, args, k, t)
    decreases |args| - k
  {
    if k == |args| {
    } else {
      var directory := DirectoryAt(host, args, k);
      MovedFrom(host, args, k + 1, if directory.Some? then [directory.value] + targets else targets, t);
      assert Names(host, args, k, t) <==> directory == Some(t) || Names(host, args, k + 1, t);
    }
  }

  /** `mv` writes to all its arguments and to every directory that an option names, and to nothing else. */
  lemma MoveWritesAll(host: Host, args: seq<string>, t: string)
    ensures t in WriteTargets(host, "mv", args) <==> t in args || Names(host, args, 0, t)
  {
    MovedFrom(host, args, 0, args, t);
  }

  // ------------------------------------------------- an unknown directory

  /** `unknown` knows no more about the working directory than `known`. */
  predicate KnowsLess(unknown: Option<Path>, known: Option<Path>) {
    unknown == known || unknown.None?
  }

  lemma TargetMonotone(host: Host, word: string, known: Option<Path>, unknown: Option<Path>)
    requires KnowsLess(unknown, known)
    ensures ShellTarget(host, word, known) ==> ShellTarget(host, word, unknown)
    ensures KnowsLess(ShellPath(host, word, unknown), ShellPath(host, word, known))
  {
  }

  lemma {:induction false} GitMonotone(host: Host, args: seq<string>, known: Option<Path>, unknown: Option<Path>)
    requires KnowsLess(unknown, known)
    ensures GitDirectory(host, args, known).0 == GitDirectory(host, args, unknown).0
    ensures KnowsLess(GitDirectory(host, args, unknown).1, GitDirectory(host, args, known).1)
  {
    if |args| <= 2 || !LiteralIn(host, args[0], ["-C"]) {
    } else {
      TargetMonotone(host, args[1], known, unknown);
      GitMonotone(host, args[2..], ShellPath(host, args[1], known), ShellPath(host, args[1], unknown));
    }
  }

  lemma AnyTargetMonotone(host: Host, targets: seq<string>, known: Option<Path>, unknown: Option<Path>)
    requires KnowsLess(unknown, known)
    ensures AnyTarget(host, targets, known) ==> AnyTarget(host, targets, unknown)
  {
    if AnyTarget(host, targets, known) {
      var t :| t in targets && !OccursAt(t, 0, "-") && ShellTarget(host, t, known);
      TargetMonotone(host, t, known, unknown);
    }
  }

  /** The verdict under the unknown directory is an effect, or both go on and it knows less. */
  predicate VerdictMonotone(unknown: Verdict, known: Verdict) {
    unknown.Effect? || (known.Continue? && KnowsLess(unknown.cwd, known.cwd))
  }

  lemma {:induction false} CommandMonotone(host: Host, words: seq<string>, known: Option<Path>, unknown: Option<Path>)
    requires words != [] && KnowsLess(unknown, known)
    ensures VerdictMonotone(InspectCommand(host, words, unknown), InspectCommand(host, words, known))
  {
    var executable, args := Executable(host, words[0]), words[1..];
    if executable == "cd" {
      var rest := SkipCdOptions(host, args);
      if rest != [] {
        TargetMonotone(host, rest[0], known, unknown);
      }
    } else if executable == "git" {
      GitMonotone(host, args, known, unknown);
      TargetMonotone(host, ".", GitDirectory(host, args, known).1, GitDirectory(host, args, unknown).1);
    } else if executable in ["tee", "touch", "cp", "mv", "rm"] {
      AnyTargetMonotone(host, WriteTargets(host, executable, args), known, unknown);
    } else {
      TargetMonotone(host, ".", known, unknown);
      if args != [] {
        TargetMonotone(host, args[|args| - 1], known, unknown);
      }
    }
  }

  lemma SegmentMonotone(host: Host, words: seq<string>, known: Option<Path>, unknown: Option<Path>)
    requires KnowsLess(unknown, known)
    ensures VerdictMonotone(InspectSegment(host, words, unknown), InspectSegment(host, words, known))
  {
    if k: nat :| k + 1 < |words| && RedirectsAt(host, words, k, known) {
      TargetMonotone(host, words[k + 1], known, unknown);
      assert RedirectsAt(host, words, k, unknown);
    }
    if SkipAssignments(words) != [] {
      CommandMonotone(host, SkipAssignments(words), known, unknown);
    }
  }

  lemma {:induction false} SegmentsMonotone(
      host: Host, segments: seq<seq<string>>, known: Option<Path>, unknown: Option<Path>)
    requires KnowsLess(unknown, known)
    ensures InspectSegments(host, segments, known) ==> InspectSegments(host, segments, unknown)
  {
    if segments == [] {
    } else {
      SegmentMonotone(host, segments[0], known, unknown);
      var there, here := InspectSegment(host, segments[0], known), InspectSegment(host, segments[0], unknown);
      if here.Continue? {
        SegmentsMonotone(host, segments[1..], there.cwd, here.cwd);
      }
    }
  }

  /**
   Main result: not knowing the working directory never turns an effect into an
   allowed call, for every edit and every shell command, whatever `cd` and `git -C`
   do on the way.
   */
  lemma UnknownDirectoryIsSafe(host: Host, call: Call, cwd: Path)
    requires cwd.IsAbsolute()
    ensures Implementation(host, call, Some(cwd)) ==> Implementation(host, call, None)
  {
    match call
    case Edit(targets) =>
      if targets != [] && EditImplementation(host, targets, Some(cwd)) {
        var t :| t in targets && RepositoryPath(host, ParsePath(t), cwd);
        assert ParsePath(t).IsAbsolute() ==> RepositoryPath(host, ParsePath(t), SLASH);
      }
    case Shell(command) =>
      SegmentsMonotone(host, Segments(Tokens(Pieces(command)), [], false), Some(cwd), None);
    case Other =>
  }

  // ------------------------------------------------- quoted arguments

  function QuotedWords(values: seq<string>): seq<string> {
    if values == [] then [] else [Quoted(values[0])] + QuotedWords(values[1..])
  }

  lemma SegmentStep(t: Piece, rest: seq<Piece>, segment: seq<string>)
    requires |t.text| > 0 && t.text[0] == '\''
    ensures Segments([t] + rest, segment, false) == Segments(rest, segment + [t.text], false)
  {
    assert ([t] + rest)[1..] == rest;
  }

  lemma {:induction false} QuotedSegment(alnum: Alnum, values: seq<string>, segment: seq<string>)
    ensures Segments(Tokens(Pieces(JoinQuoted(values))), segment, false) == [segment + QuotedWords(values)]
  {
    if values == [] {
      Neutral(segment);
    } else {
      var q := Quoted(values[0]);
      LexJoined(alnum, values);
      SegmentStep(Token(Word, q), Tokens(Pieces(JoinQuoted(values[1..]))), segment);
      QuotedSegment(alnum, values[1..], segment + [q]);
      Associative(segment, [q], QuotedWords(values[1..]));
    }
  }

  lemma {:induction false} OnePart(s: string, part: string)
    requires '/' !in s
    ensures SplitParts(s, part) == KeepPart(part + s)
  {
    if s == "" {
      Neutral(part);
    } else {
      OnePart(s[1..], part + [s[0]]);
      assert part + [s[0]] + s[1..] == part + s;
    }
  }

  lemma ToolName(tool: string)
    requires tool in ["tee", "touch", "rm"]
    ensures ParsePath(tool).Name() == tool
  {
    OnePart(tool, "");
    Neutral(tool);
  }

  /** The path a literal argument names can be in a repository. */
  predicate NamesRepository(host: Host, value: string, cwd: Option<Path>) {
    var path := ParsePath(value);
    if path.IsAbsolute() then RepositoryPath(host, path, SLASH)
    else cwd.None? || RepositoryPath(host, cwd.value.Join(path), SLASH)
  }

  /**
   On a command whose words are all quoted, the classification of `tee`, `touch`
   and `rm` is exact: the call is an effect if and only if one of the arguments, as
   the caller wrote it before quoting, names a path in a repository or a relative
   path in an unknown directory.
   */
  lemma QuotedArgumentsExact(host: Host, tool: string, values: seq<string>, cwd: Option<Path>)
    requires tool in ["tee", "touch", "rm"]
    ensures Implementation(host, Shell(JoinQuoted([tool] + values)), cwd)
        <==> exists v <- values :: NamesRepository(host, v, cwd)
  {
    var words := QuotedWords([tool] + values);
    QuotedSegment(host.alnum, [tool] + values, []);
    Neutral(words);
    QuotedInspection(host, tool, values, cwd);
    var verdict := InspectSegment(host, words, cwd);
    assert [words][1..] == [];
    assert InspectSegments(host, [words], cwd) <==> verdict.Effect?;
  }

  lemma QuotedInspection(host: Host, tool: string, values: seq<string>, cwd: Option<Path>)
    requires tool in ["tee", "touch", "rm"]
    ensures InspectSegment(host, QuotedWords([tool] + values), cwd).Effect?
        <==> exists v <- values :: NamesRepository(host, v, cwd)
  {
    var all := [tool] + values;
    var words := QuotedWords(all);
    forall k | 0 <= k < |words|
      ensures words[k] != "" && words[k][0] == '\''
    {
      QuotedWordsQuote(all, k);
    }
    assert all[0] == tool && all[1..] == values;
    assert words == [Quoted(tool)] + QuotedWords(values);
    NoRedirect(host, words, cwd);
    assert !Assigns(words[0]);
    ToolInspection(host, tool, QuotedWords(values), cwd);
    QuotedTargets(host, values, cwd);
  }

  lemma QuotedWordsQuote(values: seq<string>, k: nat)
    requires k < |QuotedWords(values)|
    ensures QuotedWords(values)[k] != "" && QuotedWords(values)[k][0] == '\''
  {
    if k > 0 {
      QuotedWordsQuote(values[1..], k - 1);
    }
  }

  lemma NoRedirect(host: Host, words: seq<string>, cwd: Option<Path>)
    requires forall k | 0 <= k < |words| :: words[k] != "" && words[k][0] == '\''
    ensures !exists k | 0 <= k < |words| - 1 :: RedirectsAt(host, words, k, cwd)
  {
    forall k | 0 <= k < |words| - 1
      ensures !RedirectsAt(host, words, k, cwd)
    {
      assert words[k][0] == '\'';
    }
  }

  lemma ToolCommand(host: Host, words: seq<string>, cwd: Option<Path>, tool: string)
    requires words != [] && Executable(host, words[0]) == tool && tool in ["tee", "touch", "rm"]
    ensures InspectCommand(host, words, cwd).Effect? <==> AnyTarget(host, words[1..], cwd)
  {
    assert "rm"[0] == 'r' && "mv"[0] == 'm' && "cp"[0] == 'c' && tool !in ["cp", "mv"];
  }

  lemma ToolInspection(host: Host, tool: string, args: seq<string>, cwd: Option<Path>)
    requires tool in ["tee", "touch", "rm"]
    ensures InspectCommand(host, [Quoted(tool)] + args, cwd).Effect? <==> AnyTarget(host, args, cwd)
  {
    var words := [Quoted(tool)] + args;
    assert words[1..] == args;
    DecodeQuoted(host.alnum, tool, "");
    ToolName(tool);
    ToolCommand(host, words, cwd, tool);
  }

  lemma {:induction false} QuotedTargets(host: Host, values: seq<string>, cwd: Option<Path>)
    ensures AnyTarget(host, QuotedWords(values), cwd) <==> exists v <- values :: NamesRepository(host, v, cwd)
  {
    if values == [] {
    } else {
      var q, rest := Quoted(values[0]), QuotedWords(values[1..]);
      QuotedTargets(host, values[1..], cwd);
      DecodeQuoted(host.alnum, values[0], "");
      assert !OccursAt(q, 0, "-");
      assert ShellTarget(host, q, cwd) <==> NamesRepository(host, values[0], cwd);
      assert AnyTarget(host, [q] + rest, cwd) <==> ShellTarget(host, q, cwd) || AnyTarget(host, rest, cwd);
      assert values == [values[0]] + values[1..];
    }
  }
}
