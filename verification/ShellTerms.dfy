/**
 Which tool calls are effects on a repository, written out on what the caller wrote:
 command lines of words, redirections, separators and comments, with the value of each
 word and the directory that each command runs in. `ShellSegments` and `ShellScripts`
 prove that the policy decides exactly this.
 */
module ShellTerms {
  import opened Prelude
  import opened ShellWords
  import opened RepositoryPolicy

  /** What the shell makes of a word: its text as written, and its value if nothing in it is expanded. */
  datatype Value = Value(raw: string, value: Option<string>)

  // ------------------------------------------------------------- directories

  predicate Absolute(cwd: Option<Path>) { cwd.Some? ==> cwd.value.root != "" }

  /** A path as it is seen from a directory, which may not be known. */
  function Resolved(value: string, cwd: Option<Path>): Option<Path> {
    var p := ParsePath(value);
    if p.root != "" then Some(p)
    else if cwd.None? then None
    else Some(Path(cwd.value.root, cwd.value.parts + p.parts))
  }

  /** The directory is in a repository, or not known. */
  predicate Here(host: Host, cwd: Option<Path>) { cwd.None? || host.inRepository(cwd.value) }

  /** The value names something in a repository, or cannot be told not to. */
  predicate Reaches(host: Host, v: Option<string>, cwd: Option<Path>) {
    v.None? || Here(host, Resolved(v.value, cwd))
  }

  function Follow(v: Option<string>, cwd: Option<Path>): Option<Path> {
    if v.None? then None else Resolved(v.value, cwd)
  }

  // ------------------------------------------------------------ redirections

  predicate Redirection(text: string) {
    text == ">" || text == ">>" || text == ">|" || text == ">&" || text == "&>" || text == "&>>"
  }

  /** A file descriptor: digits, or `-` to close one. */
  predicate NamesDescriptor(host: Host, v: Option<string>) {
    v.Some? && (v.value == "-" || (|v.value| > 0 && forall i | 0 <= i < |v.value| :: host.digit(v.value[i])))
  }

  predicate RedirectsInto(host: Host, ws: seq<Value>, cwd: Option<Path>) {
    exists k | 0 <= k < |ws| - 1 ::
      && Redirection(ws[k].raw) && !(ws[k].raw == ">&" && NamesDescriptor(host, ws[k + 1].value))
      && Reaches(host, ws[k + 1].value, cwd)
  }

  // ----------------------------------------------------------------- commands

  predicate Letter(c: char) { 'a' <= c <= 'z' || 'A' <= c <= 'Z' || c == '_' }

  /** `NAME=...`, as written. */
  predicate Assignment(raw: string) {
    exists k | 0 < k < |raw| ::
      raw[k] == '=' && Letter(raw[0]) && forall j | 0 < j < k :: Letter(raw[j]) || '0' <= raw[j] <= '9'
  }

  /** The words behind the leading assignments. */
  function Behind(ws: seq<Value>): (r: seq<Value>)
    ensures |r| <= |ws| && r == ws[|ws| - |r|..] && (r == [] || !Assignment(r[0].raw))
    ensures forall i | 0 <= i < |ws| - |r| :: Assignment(ws[i].raw)
  {
    if ws != [] && Assignment(ws[0].raw) then Behind(ws[1..]) else ws
  }

  /** The last part of the path that the first word is. */
  function Tool(w: Value): string {
    var p := ParsePath(if w.value.Some? then w.value.value else "");
    if p.parts == [] then "" else p.parts[|p.parts| - 1]
  }

  predicate Dashed(raw: string) { |raw| > 0 && raw[0] == '-' }

  /** An argument that is written to. */
  predicate Written(host: Host, w: Value, cwd: Option<Path>) { !Dashed(w.raw) && Reaches(host, w.value, cwd) }

  /** `cd` skips its options; without an argument, with `-` or with an expansion it leads anywhere. */
  function CdTarget(args: seq<Value>, cwd: Option<Path>): Option<Path> {
    if args == [] || args[0].value == Some("-") then None
    else if args[0].value == Some("--") || args[0].value == Some("-L") || args[0].value == Some("-P")
        then CdTarget(args[1..], cwd)
    else Follow(args[0].value, cwd)
  }

  /** `git -C d1 -C d2 ... apply` or `am` writes to the directory that the options lead to. */
  predicate GitWrites(host: Host, args: seq<Value>, cwd: Option<Path>) {
    if |args| > 2 && args[0].value == Some("-C") then GitWrites(host, args[2..], Follow(args[1].value, cwd))
    else args != [] && (args[0].value == Some("apply") || args[0].value == Some("am")) && Here(host, cwd)
  }

  /** `--in-place`, or options in one word of which one is `i`. */
  predicate AsksInPlace(v: Option<string>) {
    v.Some? && (v.value == "--in-place"
                || exists k | 0 < k < |v.value| ::
                     v.value[0] == '-' && v.value[k] == 'i' && forall j | 0 < j < k :: v.value[j] != '-')
  }

  /** A stream editor asked to edit in place writes to its last argument. */
  predicate StreamWrites(host: Host, args: seq<Value>, cwd: Option<Path>) {
    (exists a <- args :: AsksInPlace(a.value)) && Reaches(host, args[|args| - 1].value, cwd)
  }

  /** The directory that the argument at `m` makes the target: the next one, or the rest of its own text. */
  function Into(host: Host, args: seq<Value>, m: nat): Option<Value>
    requires m < |args|
  {
    var raw := args[m].raw;
    if (args[m].value == Some("-t") || args[m].value == Some("--target-directory")) && m + 1 < |args|
        then Some(args[m + 1])
    else if "--target-directory=" <= raw then Some(Value(raw[19..], Decode(host.alnum, raw[19..])))
    else None
  }

  /** `cp` writes to the directory named last, or to its last argument if none is named. */
  predicate CopyWrites(host: Host, args: seq<Value>, cwd: Option<Path>) {
    if exists m: nat | m < |args| :: Into(host, args, m).Some? then
      exists m: nat | m < |args| ::
        && Into(host, args, m).Some? && Written(host, Into(host, args, m).value, cwd)
        && forall j: nat | m < j < |args| :: Into(host, args, j).None?
    else args != [] && Written(host, args[|args| - 1], cwd)
  }

  /** `mv` writes to all its arguments, and to the directories that they name. */
  predicate MoveWrites(host: Host, args: seq<Value>, cwd: Option<Path>) {
    exists m: nat | m < |args| ::
      Written(host, args[m], cwd)
      || (Into(host, args, m).Some? && Written(host, Into(host, args, m).value, cwd))
  }

  predicate ToolWrites(host: Host, tool: string, args: seq<Value>, cwd: Option<Path>) {
    if tool == "git" then GitWrites(host, args, cwd)
    else if tool == "patch" || tool == "apply_patch" then Here(host, cwd)
    else if tool == "sed" || tool == "perl" then StreamWrites(host, args, cwd)
    else if tool == "tee" || tool == "touch" || tool == "rm" then exists a <- args :: Written(host, a, cwd)
    else if tool == "cp" then CopyWrites(host, args, cwd)
    else tool == "mv" && MoveWrites(host, args, cwd)
  }

  /** A command writes to a repository by a redirection or by what its tool does. */
  predicate CommandWrites(host: Host, ws: seq<Value>, cwd: Option<Path>) {
    RedirectsInto(host, ws, cwd)
    || (Behind(ws) != [] && ToolWrites(host, Tool(Behind(ws)[0]), Behind(ws)[1..], cwd))
  }

  /** The directory behind a command: only `cd` changes it. */
  function DirectoryBehind(ws: seq<Value>, cwd: Option<Path>): Option<Path> {
    if Behind(ws) != [] && Tool(Behind(ws)[0]) == "cd" then CdTarget(Behind(ws)[1..], cwd) else cwd
  }

  /** The directory that the command at `i` runs in. */
  function DirectoryOf(commands: seq<seq<Value>>, i: nat, cwd: Option<Path>): Option<Path>
    requires i <= |commands|
  {
    if i == 0 then cwd else DirectoryBehind(commands[i - 1], DirectoryOf(commands, i - 1, cwd))
  }

  /** Some command writes to a repository, from the directory that it runs in. */
  predicate ScriptWrites(host: Host, commands: seq<seq<Value>>, cwd: Option<Path>) {
    exists i: nat | i < |commands| :: CommandWrites(host, commands[i], DirectoryOf(commands, i, cwd))
  }

  // ------------------------------------------------------------------ scripts

  /** A word of the grammar, or a symbol: a run of operator characters or a line feed. */
  datatype Lexeme = Grammar(parts: seq<Part>) | Symbol(text: string)

  function TextOf(x: Lexeme): string { if x.Grammar? then Show(x.parts) else x.text }

  predicate LexemeOk(x: Lexeme) {
    match x
    case Grammar(ps) => ps != [] && WordOk(ps)
    case Symbol(s) =>
      s == "\n" || (s != "" && forall i | 0 <= i < |s| ::
                      s[i] == ';' || s[i] == '&' || s[i] == '|' || s[i] == '<' || s[i] == '>')
  }

  predicate EndsCommand(s: string) { s == ";" || s == "&&" || s == "||" || s == "|" || s == "&" || s == "\n" }

  /** A comment starts with a word that starts with `#` and ends at the end of the line. */
  datatype Command = Command(words: seq<Lexeme>, comment: seq<Lexeme>, end: string)

  predicate Hashed(text: string) { |text| > 0 && text[0] == '#' }

  predicate CommandOk(c: Command) {
    && (forall x <- c.words :: LexemeOk(x) && !EndsCommand(TextOf(x)) && !Hashed(TextOf(x)))
    && (forall x <- c.comment :: LexemeOk(x) && TextOf(x) != "\n")
    && EndsCommand(c.end)
    && (c.comment != [] ==> Hashed(TextOf(c.comment[0])) && c.end == "\n")
  }

  /** What is written of a script, one after the other. The last command has no end of its own. */
  function Flat(script: seq<Command>): seq<Lexeme>
    requires script != []
  {
    var c := script[0];
    c.words + c.comment + (if |script| == 1 then [] else [Symbol(c.end)] + Flat(script[1..]))
  }

  /** The lexemes with a space between neighbours. */
  function Line(xs: seq<Lexeme>): string {
    if xs == [] then ""
    else if |xs| == 1 then TextOf(xs[0])
    else TextOf(xs[0]) + " " + Line(xs[1..])
  }

  /** What the shell makes of a lexeme: quote removal, where nothing in it is expanded. */
  function ValueOf(host: Host, x: Lexeme): Value {
    match x
    case Grammar(ps) => Value(Show(ps), if Active(host.alnum, ps) then None else Some(QuoteRemoval(ps)))
    case Symbol(s) => Value(s, Some(s))
  }

  function ValuesOf(host: Host, xs: seq<Lexeme>): seq<Value> {
    seq(|xs|, i requires 0 <= i < |xs| => ValueOf(host, xs[i]))
  }

  function CommandsOf(host: Host, script: seq<Command>): seq<seq<Value>> {
    seq(|script|, i requires 0 <= i < |script| => ValuesOf(host, script[i].words))
  }

  // -------------------------------------------------------------------- edits

  /** A path with a leading `~` part replaced by a home directory. */
  function AtHome(host: Host, p: Path): Path {
    if p.root == "" && |p.parts| > 0 && Tilde(p.parts[0]) then
      var home := host.home(p.parts[0]);
      Path(home.root, home.parts + p.parts[1..])
    else p
  }

  predicate Tilde(part: string) { |part| > 0 && part[0] == '~' }

  /** A target of an edit is in a repository, seen from a known directory. */
  predicate TargetInside(host: Host, target: string, cwd: Path) {
    var p := AtHome(host, ParsePath(target));
    host.inRepository(if p.root != "" then p else Path(cwd.root, cwd.parts + p.parts))
  }

  /** An edit is an effect if a target is in a repository, or cannot be told, or, without targets, its directory is. */
  predicate EditWrites(host: Host, targets: seq<string>, cwd: Option<Path>) {
    match cwd
    case Some(dir) =>
      if targets == [] then host.inRepository(dir) else exists t <- targets :: TargetInside(host, t, dir)
    case None =>
      targets == [] || exists t <- targets :: ParsePath(t).root == "" || host.inRepository(ParsePath(t))
  }
}
