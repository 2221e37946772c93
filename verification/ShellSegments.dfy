/**
 The policy judges every segment exactly as `ShellTerms` says, for every list of words,
 and every segment in the directory that the `cd`s before it lead to.
 */
module ShellSegments {
  import opened Prelude
  import opened ShellWords
  import opened RepositoryPolicy
  import opened ShellTerms

  // -------------------------------------------------------------------- paths

  /** The components with a `/` between neighbours. */
  function Slashed(components: seq<string>): string {
    if components == [] then ""
    else if |components| == 1 then components[0]
    else components[0] + "/" + Slashed(components[1..])
  }

  /** The components that say something. */
  function Said(components: seq<string>): seq<string> {
    if components == [] then []
    else (if components[0] == "" || components[0] == "." then [] else [components[0]]) + Said(components[1..])
  }

  lemma {:induction false} SplitOff(c: string, rest: string, part: string)
    requires '/' !in c
    ensures SplitParts(c + "/" + rest, part) == KeepPart(part + c) + SplitParts(rest, "")
  {
    var s := c + "/" + rest;
    if c == "" {
      assert s == "/" + rest && s[1..] == rest;
      Neutral(part);
    } else {
      SplitOff(c[1..], rest, part + [c[0]]);
      assert s[1..] == c[1..] + "/" + rest;
      assert part + [c[0]] + c[1..] == part + c;
    }
  }

  /** The parts of a path are its components between slashes, without empty ones and single dots. */
  lemma {:induction false} PartsExactly(components: seq<string>)
    requires components != [] && forall c <- components :: '/' !in c
    ensures SplitParts(Slashed(components), "") == Said(components)
  {
    var c := components[0];
    Neutral(c);
    if |components| == 1 {
      OnePart(c, "");
    } else {
      SplitOff(c, Slashed(components[1..]), "");
      PartsExactly(components[1..]);
    }
  }

  /** A path starts at the root exactly when its first component of several is empty. */
  lemma PathExactly(components: seq<string>)
    requires components != [] && forall c <- components :: '/' !in c
    ensures var p := ParsePath(Slashed(components));
            && p.parts == Said(components)
            && (p.root != "" <==> |components| > 1 && components[0] == "")
            && (p.root == "//" <==> |components| > 2 && components[0] == components[1] == ""
                                    && !(|components| > 3 && components[2] == ""))
            && (p.root == "" || p.root == "/" || p.root == "//")
  {
    PartsExactly(components);
    Slashes(components);
  }

  lemma SlashPrefixes(s: string)
    ensures OccursAt(s, 0, "/") <==> |s| > 0 && s[0] == '/'
    ensures OccursAt(s, 0, "//") <==> |s| > 1 && s[0] == s[1] == '/'
    ensures OccursAt(s, 0, "///") <==> |s| > 2 && s[0] == s[1] == s[2] == '/'
  {
    if |s| > 0 {
      assert s[..1] == [s[0]];
    }
    if |s| > 1 {
      assert s[..2] == [s[0], s[1]];
    }
    if |s| > 2 {
      assert s[..3] == [s[0], s[1], s[2]];
    }
  }

  /** Which slashes a path starts with. */
  lemma Slashes(components: seq<string>)
    requires components != [] && forall c <- components :: '/' !in c
    ensures var s := Slashed(components);
            && (OccursAt(s, 0, "/") <==> |components| > 1 && components[0] == "")
            && (OccursAt(s, 0, "//") <==> |components| > 2 && components[0] == components[1] == "")
            && (OccursAt(s, 0, "///") <==> |components| > 3 && components[0] == components[1] == components[2] == "")
  {
    var s := Slashed(components);
    SlashPrefixes(s);
    SlashFirst(components);
    if |components| > 1 && components[0] == "" {
      var rest := components[1..];
      SlashFirst(rest);
      assert |s| > 1 ==> s[1] == s[1..][0];
      if |rest| > 1 && rest[0] == "" {
        SlashFirst(rest[1..]);
        assert |s| > 2 ==> s[2] == s[1..][1..][0];
      }
    }
  }

  lemma SlashFirst(components: seq<string>)
    requires components != [] && forall c <- components :: '/' !in c
    ensures var s := Slashed(components);
            && (s != "" && s[0] == '/' <==> |components| > 1 && components[0] == "")
            && (|components| > 1 && components[0] == "" ==> s[1..] == Slashed(components[1..]))
  {
    assert components[0] in components;
  }

  // ------------------------------------------------------------------ targets

  /** What the policy sees of a list of words. */
  function Seen(host: Host, words: seq<string>): (r: seq<Value>)
    ensures |r| == |words| && forall i | 0 <= i < |words| :: r[i] == Value(words[i], Decode(host.alnum, words[i]))
  {
    seq(|words|, i requires 0 <= i < |words| => Value(words[i], Decode(host.alnum, words[i])))
  }

  lemma PathOfWord(host: Host, word: string, cwd: Option<Path>)
    requires Absolute(cwd)
    ensures ShellPath(host, word, cwd) == Follow(Decode(host.alnum, word), cwd)
    ensures Absolute(ShellPath(host, word, cwd))
  {
  }

  lemma TargetExactly(host: Host, word: string, cwd: Option<Path>)
    requires Absolute(cwd)
    ensures ShellTarget(host, word, cwd) <==> Reaches(host, Decode(host.alnum, word), cwd)
  {
    PathOfWord(host, word, cwd);
  }

  lemma DotExactly(host: Host, cwd: Option<Path>)
    requires Absolute(cwd)
    ensures ShellTarget(host, ".", cwd) <==> Here(host, cwd)
  {
    var dot := [Bare('.')];
    assert dot[1..] == [];
    assert Show(dot) == "." && QuoteRemoval(dot) == ".";
    DecodeIsQuoteRemoval(host.alnum, dot);
    OnePart(".", "");
    assert ParsePath(".") == Path("", []);
    if cwd.Some? {
      Neutral(cwd.value.parts);
    }
  }

  lemma RedirectsExactly(host: Host, words: seq<string>, cwd: Option<Path>)
    requires Absolute(cwd)
    ensures (exists k | 0 <= k < |words| - 1 :: RedirectsAt(host, words, k, cwd))
       <==> RedirectsInto(host, Seen(host, words), cwd)
  {
    var ws := Seen(host, words);
    forall k | 0 <= k < |words| - 1
      ensures RedirectsAt(host, words, k, cwd) <==>
                && Redirection(ws[k].raw) && !(ws[k].raw == ">&" && NamesDescriptor(host, ws[k + 1].value))
                && Reaches(host, ws[k + 1].value, cwd)
    {
      TargetExactly(host, words[k + 1], cwd);
      DescriptorExactly(host, words[k + 1]);
    }
  }

  lemma DescriptorExactly(host: Host, word: string)
    ensures Descriptor(host, word) <==> NamesDescriptor(host, Decode(host.alnum, word))
  {
    var v := Decode(host.alnum, word);
    if v.Some? {
      assert forall i | 0 <= i < |v.value| :: v.value[i] in v.value;
    }
  }

  // ----------------------------------------------------------------- commands

  lemma AssignsExactly(word: string)
    ensures Assigns(word) <==> Assignment(word)
  {
    if k :| 1 <= k < |word| && word[k] == '=' && NameStart(word[0])
            && forall j | 0 < j < k :: NameStart(word[j]) || IsDigit(word[j]) {
      assert forall j | 0 < j < k :: Letter(word[j]) || '0' <= word[j] <= '9';
    }
    if k :| 0 < k < |word| && word[k] == '=' && Letter(word[0])
            && forall j | 0 < j < k :: Letter(word[j]) || '0' <= word[j] <= '9' {
      assert forall j | 0 < j < k :: NameStart(word[j]) || IsDigit(word[j]);
    }
  }

  lemma {:induction false} BehindExactly(host: Host, words: seq<string>)
    ensures Behind(Seen(host, words)) == Seen(host, SkipAssignments(words))
  {
    if words == [] {
    } else {
      AssignsExactly(words[0]);
      assert Seen(host, words)[1..] == Seen(host, words[1..]);
      BehindExactly(host, words[1..]);
    }
  }

  lemma ToolExactly(host: Host, word: string)
    ensures Executable(host, word) == Tool(Value(word, Decode(host.alnum, word)))
  {
  }

  lemma {:induction false} CdExactly(host: Host, args: seq<string>, cwd: Option<Path>)
    requires Absolute(cwd)
    ensures var rest := SkipCdOptions(host, args);
            (if rest != [] && !LiteralIn(host, rest[0], ["-"]) then ShellPath(host, rest[0], cwd) else None)
            == CdTarget(Seen(host, args), cwd)
  {
    if args == [] {
    } else {
      PathOfWord(host, args[0], cwd);
      assert Seen(host, args)[1..] == Seen(host, args[1..]);
      CdExactly(host, args[1..], cwd);
    }
  }

  lemma {:induction false} GitExactly(host: Host, args: seq<string>, cwd: Option<Path>)
    requires Absolute(cwd)
    ensures var (rest, directory) := GitDirectory(host, args, cwd);
            rest != [] && LiteralIn(host, rest[0], ["apply", "am"]) && ShellTarget(host, ".", directory)
            <==> GitWrites(host, Seen(host, args), cwd)
  {
    if |args| > 2 && LiteralIn(host, args[0], ["-C"]) {
      PathOfWord(host, args[1], cwd);
      assert Seen(host, args)[2..] == Seen(host, args[2..]);
      GitExactly(host, args[2..], ShellPath(host, args[1], cwd));
    } else {
      DotExactly(host, cwd);
    }
  }

  lemma InPlaceExactly(host: Host, args: seq<string>)
    ensures (exists arg <- args :: InPlace(host, arg)) <==> exists a <- Seen(host, args) :: AsksInPlace(a.value)
  {
    var ws := Seen(host, args);
    forall i | 0 <= i < |args|
      ensures InPlace(host, args[i]) <==> AsksInPlace(ws[i].value)
    {
      FlagExactly(Decode(host.alnum, args[i]));
    }
    if a :| a in ws && AsksInPlace(a.value) {
      var i :| 0 <= i < |ws| && ws[i] == a;
      assert args[i] in args;
    }
    if arg :| arg in args && InPlace(host, arg) {
      var i :| 0 <= i < |args| && args[i] == arg;
      assert ws[i] in ws;
    }
  }

  lemma FlagExactly(v: Option<string>)
    ensures v.Some? && (InPlaceFlag(v.value) || v.value == "--in-place") <==> AsksInPlace(v)
  {
  }

  lemma WrittenExactly(host: Host, word: string, cwd: Option<Path>)
    requires Absolute(cwd)
    ensures !OccursAt(word, 0, "-") && ShellTarget(host, word, cwd)
       <==> Written(host, Value(word, Decode(host.alnum, word)), cwd)
  {
    TargetExactly(host, word, cwd);
    if |word| > 0 {
      assert word[0..1] == [word[0]];
    }
  }

  lemma AnyExactly(host: Host, targets: seq<string>, cwd: Option<Path>)
    requires Absolute(cwd)
    ensures AnyTarget(host, targets, cwd) <==> exists a <- Seen(host, targets) :: Written(host, a, cwd)
  {
    var ws := Seen(host, targets);
    forall i | 0 <= i < |targets|
      ensures !OccursAt(targets[i], 0, "-") && ShellTarget(host, targets[i], cwd) <==> Written(host, ws[i], cwd)
    {
      WrittenExactly(host, targets[i], cwd);
    }
    if a :| a in ws && Written(host, a, cwd) {
      var i :| 0 <= i < |ws| && ws[i] == a;
      assert targets[i] in targets;
    }
    if t :| t in targets && !OccursAt(t, 0, "-") && ShellTarget(host, t, cwd) {
      var i :| 0 <= i < |targets| && targets[i] == t;
      assert ws[i] in ws;
    }
  }

  lemma IntoExactly(host: Host, args: seq<string>, m: nat)
    requires m < |args|
    ensures var d := DirectoryAt(host, args, m);
            Into(host, Seen(host, args), m)
            == if d.Some? then Some(Value(d.value, Decode(host.alnum, d.value))) else None
  {
    assert |TARGET_OPTION| == 19;
    assert OccursAt(args[m], 0, TARGET_OPTION) <==> TARGET_OPTION <= args[m];
  }

  lemma {:induction false} LastNamed(host: Host, args: seq<string>, m: nat) returns (last: nat)
    requires m < |args| && DirectoryAt(host, args, m).Some?
    ensures last < |args| && DirectoryAt(host, args, last).Some? && NoDirectory(host, args, last + 1)
    decreases |args| - m
  {
    if j: nat :| m < j < |args| && DirectoryAt(host, args, j).Some? {
      last := LastNamed(host, args, j);
    } else {
      last := m;
    }
  }

  lemma OneTarget(host: Host, word: string, cwd: Option<Path>)
    requires Absolute(cwd)
    ensures AnyTarget(host, [word], cwd) <==> Written(host, Value(word, Decode(host.alnum, word)), cwd)
  {
    AnyExactly(host, [word], cwd);
    var ws := Seen(host, [word]);
    assert ws == [Value(word, Decode(host.alnum, word))];
  }

  lemma IntoAll(host: Host, args: seq<string>)
    ensures forall m: nat | m < |args| ::
              Into(host, Seen(host, args), m).Some? <==> DirectoryAt(host, args, m).Some?
  {
    forall m: nat | m < |args|
      ensures Into(host, Seen(host, args), m).Some? <==> DirectoryAt(host, args, m).Some?
    {
      IntoExactly(host, args, m);
    }
  }

  lemma CopyNamed(host: Host, args: seq<string>, last: nat, cwd: Option<Path>)
    requires last < |args| && DirectoryAt(host, args, last).Some? && NoDirectory(host, args, last + 1)
    requires Absolute(cwd)
    ensures AnyTarget(host, WriteTargets(host, "cp", args), cwd) <==> CopyWrites(host, Seen(host, args), cwd)
  {
    var ws := Seen(host, args);
    IntoAll(host, args);
    IntoExactly(host, args, last);
    CopyWritesOne(host, args);
    OneTarget(host, DirectoryAt(host, args, last).value, cwd);
    LastWrites(host, ws, last, cwd);
  }

  lemma LastWrites(host: Host, ws: seq<Value>, last: nat, cwd: Option<Path>)
    requires last < |ws| && Into(host, ws, last).Some? && forall j: nat | last < j < |ws| :: Into(host, ws, j).None?
    ensures CopyWrites(host, ws, cwd) <==> Written(host, Into(host, ws, last).value, cwd)
  {
  }

  lemma CopyUnnamed(host: Host, args: seq<string>, cwd: Option<Path>)
    requires args != [] && NoDirectory(host, args, 0) && Absolute(cwd)
    ensures AnyTarget(host, WriteTargets(host, "cp", args), cwd) <==> CopyWrites(host, Seen(host, args), cwd)
  {
    IntoAll(host, args);
    CopyWritesOne(host, args);
    OneTarget(host, args[|args| - 1], cwd);
  }

  lemma CopyExactly(host: Host, args: seq<string>, cwd: Option<Path>)
    requires Absolute(cwd)
    ensures AnyTarget(host, WriteTargets(host, "cp", args), cwd) <==> CopyWrites(host, Seen(host, args), cwd)
  {
    if args == [] {
      assert WriteTargets(host, "cp", args) == [];
    } else if m: nat :| m < |args| && DirectoryAt(host, args, m).Some? {
      var last := LastNamed(host, args, m);
      CopyNamed(host, args, last, cwd);
    } else {
      CopyUnnamed(host, args, cwd);
    }
  }

  lemma MoveExactly(host: Host, args: seq<string>, cwd: Option<Path>)
    requires Absolute(cwd)
    ensures AnyTarget(host, WriteTargets(host, "mv", args), cwd) <==> MoveWrites(host, Seen(host, args), cwd)
  {
    var ws, targets := Seen(host, args), WriteTargets(host, "mv", args);
    if t :| t in targets && !OccursAt(t, 0, "-") && ShellTarget(host, t, cwd) {
      MoveWritesAll(host, args, t);
      WrittenExactly(host, t, cwd);
      if t in args {
        var m: nat :| m < |args| && args[m] == t;
        assert Written(host, ws[m], cwd);
      } else {
        var m: nat :| m < |args| && DirectoryAt(host, args, m) == Some(t);
        IntoExactly(host, args, m);
      }
    }
    if m: nat :| m < |ws| && (Written(host, ws[m], cwd)
                              || (Into(host, ws, m).Some? && Written(host, Into(host, ws, m).value, cwd))) {
      IntoExactly(host, args, m);
      var t := if Written(host, ws[m], cwd) then args[m] else DirectoryAt(host, args, m).value;
      MoveWritesAll(host, args, t);
      WrittenExactly(host, t, cwd);
    }
  }

  lemma SeenLast(host: Host, args: seq<string>, cwd: Option<Path>)
    requires args != [] && Absolute(cwd)
    ensures ShellTarget(host, args[|args| - 1], cwd) <==> Reaches(host, Seen(host, args)[|args| - 1].value, cwd)
  {
    TargetExactly(host, args[|args| - 1], cwd);
  }

  lemma NamesDiffer()
    ensures "cd" != "git" && "cd" != "patch" && "cd" != "apply_patch" && "cd" != "sed" && "cd" != "perl"
    ensures "cd" != "tee" && "cd" != "touch" && "cd" != "rm" && "cd" != "cp" && "cd" != "mv"
    ensures "cp" != "tee" && "cp" != "touch" && "cp" != "rm" && "cp" != "mv"
    ensures "mv" != "tee" && "mv" != "touch" && "mv" != "rm"
  {
    assert "cd"[0] == 'c' && "rm"[0] == 'r' && "mv"[0] == 'm' && "cp"[1] == 'p';
  }

  function VerdictOf(writes: bool, cwd: Option<Path>): Verdict { if writes then Effect else Continue(cwd) }

  lemma CdCommand(host: Host, words: seq<string>, cwd: Option<Path>)
    requires words != [] && Absolute(cwd) && Executable(host, words[0]) == "cd"
    ensures InspectCommand(host, words, cwd) == Continue(CdTarget(Seen(host, words[1..]), cwd))
  {
    CdExactly(host, words[1..], cwd);
  }

  lemma GitCommand(host: Host, words: seq<string>, cwd: Option<Path>)
    requires words != [] && Absolute(cwd) && Executable(host, words[0]) == "git"
    ensures InspectCommand(host, words, cwd) == VerdictOf(GitWrites(host, Seen(host, words[1..]), cwd), cwd)
  {
    NamesDiffer();
    GitExactly(host, words[1..], cwd);
  }

  lemma PatchCommand(host: Host, words: seq<string>, cwd: Option<Path>)
    requires words != [] && Absolute(cwd)
    requires Executable(host, words[0]) == "patch" || Executable(host, words[0]) == "apply_patch"
    ensures InspectCommand(host, words, cwd) == VerdictOf(Here(host, cwd), cwd)
  {
    NamesDiffer();
    DotExactly(host, cwd);
  }

  lemma StreamVerdict(host: Host, words: seq<string>, cwd: Option<Path>, edits: bool)
    requires words != [] && edits == exists arg <- words[1..] :: InPlace(host, arg)
    requires Executable(host, words[0]) == "sed" || Executable(host, words[0]) == "perl"
    ensures InspectCommand(host, words, cwd) == VerdictOf(edits && ShellTarget(host, words[|words| - 1], cwd), cwd)
  {
    StreamNames();
  }

  lemma StreamNames()
    ensures "sed" !in ["apply_patch", "patch", "git", "cd", "tee", "touch", "cp", "mv", "rm"]
    ensures "perl" !in ["apply_patch", "patch", "git", "cd", "tee", "touch", "cp", "mv", "rm"]
  {
    assert "sed"[0] == 's' && "perl"[1] == 'e' && "patch"[1] == 'a';
  }

  lemma StreamCommand(host: Host, words: seq<string>, cwd: Option<Path>)
    requires words != [] && Absolute(cwd)
    requires Executable(host, words[0]) == "sed" || Executable(host, words[0]) == "perl"
    ensures InspectCommand(host, words, cwd)
         == VerdictOf(StreamWrites(host, Seen(host, words[1..]), cwd), cwd)
  {
    var args := words[1..];
    var edits := exists arg <- args :: InPlace(host, arg);
    InPlaceExactly(host, args);
    StreamVerdict(host, words, cwd, edits);
    if args != [] {
      SeenLast(host, args, cwd);
    }
  }

  lemma PlainWrites(host: Host, tool: string, args: seq<string>)
    requires tool == "tee" || tool == "touch" || tool == "rm"
    ensures WriteTargets(host, tool, args) == args
  {
    NamesDiffer();
  }

  lemma PlainTargets(host: Host, words: seq<string>, cwd: Option<Path>)
    requires words != []
    requires var tool := Executable(host, words[0]); tool == "tee" || tool == "touch" || tool == "rm"
    ensures InspectCommand(host, words, cwd) == VerdictOf(AnyTarget(host, words[1..], cwd), cwd)
  {
    PlainWrites(host, Executable(host, words[0]), words[1..]);
    PlainNames();
  }

  lemma PlainNames()
    ensures "tee" !in ["sed", "perl", "apply_patch", "patch", "git", "cd"]
    ensures "touch" !in ["sed", "perl", "apply_patch", "patch", "git", "cd"]
    ensures "rm" !in ["sed", "perl", "apply_patch", "patch", "git", "cd"]
  {
    assert "tee"[0] == 't' && "touch"[0] == 't' && "rm"[0] == 'r';
  }

  lemma PlainCommand(host: Host, words: seq<string>, cwd: Option<Path>)
    requires words != [] && Absolute(cwd)
    requires var tool := Executable(host, words[0]); tool == "tee" || tool == "touch" || tool == "rm"
    ensures InspectCommand(host, words, cwd)
         == VerdictOf(exists a <- Seen(host, words[1..]) :: Written(host, a, cwd), cwd)
  {
    PlainTargets(host, words, cwd);
    AnyExactly(host, words[1..], cwd);
  }

  lemma CopyCommand(host: Host, words: seq<string>, cwd: Option<Path>)
    requires words != [] && Absolute(cwd) && Executable(host, words[0]) == "cp"
    ensures InspectCommand(host, words, cwd) == VerdictOf(CopyWrites(host, Seen(host, words[1..]), cwd), cwd)
  {
    NamesDiffer();
    CopyExactly(host, words[1..], cwd);
  }

  lemma MoveCommand(host: Host, words: seq<string>, cwd: Option<Path>)
    requires words != [] && Absolute(cwd) && Executable(host, words[0]) == "mv"
    ensures InspectCommand(host, words, cwd) == VerdictOf(MoveWrites(host, Seen(host, words[1..]), cwd), cwd)
  {
    NamesDiffer();
    MoveExactly(host, words[1..], cwd);
  }

  /** Every other tool is let through. */
  lemma OtherCommand(host: Host, words: seq<string>, cwd: Option<Path>)
    requires words != []
    requires var tool := Executable(host, words[0]);
             && tool != "cd" && tool != "git" && tool != "patch" && tool != "apply_patch" && tool != "sed"
             && tool != "perl" && tool != "tee" && tool != "touch" && tool != "rm" && tool != "cp" && tool != "mv"
    ensures InspectCommand(host, words, cwd) == Continue(cwd)
  {
  }

  lemma CommandExactly(host: Host, words: seq<string>, cwd: Option<Path>)
    requires words != [] && Absolute(cwd)
    ensures var tool, args := Tool(Value(words[0], Decode(host.alnum, words[0]))), Seen(host, words[1..]);
            InspectCommand(host, words, cwd)
            == VerdictOf(ToolWrites(host, tool, args, cwd), if tool == "cd" then CdTarget(args, cwd) else cwd)
  {
    var tool := Executable(host, words[0]);
    ToolExactly(host, words[0]);
    NamesDiffer();
    if tool == "cd" {
      CdCommand(host, words, cwd);
    } else if tool == "git" {
      GitCommand(host, words, cwd);
    } else if tool == "patch" || tool == "apply_patch" {
      PatchCommand(host, words, cwd);
    } else if tool == "sed" || tool == "perl" {
      StreamCommand(host, words, cwd);
    } else if tool == "cp" {
      CopyCommand(host, words, cwd);
    } else if tool == "mv" {
      MoveCommand(host, words, cwd);
    } else if tool == "tee" || tool == "touch" || tool == "rm" {
      PlainCommand(host, words, cwd);
    } else {
      OtherCommand(host, words, cwd);
    }
  }

  lemma {:induction false} CdAbsolute(args: seq<Value>, cwd: Option<Path>)
    requires Absolute(cwd)
    ensures Absolute(CdTarget(args, cwd))
  {
    if args == [] {
    } else {
      CdAbsolute(args[1..], cwd);
    }
  }

  /** The command behind the assignments. */
  lemma RestExactly(host: Host, rest: seq<string>, ws: seq<Value>, cwd: Option<Path>)
    requires rest != [] && Absolute(cwd) && ws == Seen(host, rest)
    ensures InspectCommand(host, rest, cwd)
         == VerdictOf(ToolWrites(host, Tool(ws[0]), ws[1..], cwd),
                      if Tool(ws[0]) == "cd" then CdTarget(ws[1..], cwd) else cwd)
    ensures Absolute(CdTarget(ws[1..], cwd))
  {
    CommandExactly(host, rest, cwd);
    assert ws[1..] == Seen(host, rest[1..]);
    CdAbsolute(ws[1..], cwd);
  }

  lemma SegmentIs(host: Host, words: seq<string>, cwd: Option<Path>, redirects: bool, command: Verdict)
    requires redirects == exists k | 0 <= k < |words| - 1 :: RedirectsAt(host, words, k, cwd)
    requires var rest := SkipAssignments(words);
             command == if rest == [] then Continue(cwd) else InspectCommand(host, rest, cwd)
    ensures InspectSegment(host, words, cwd) == if redirects then Effect else command
  {
  }

  /** What one command is, by `ShellTerms`. */
  function Judged(host: Host, ws: seq<Value>, cwd: Option<Path>): Verdict {
    VerdictOf(CommandWrites(host, ws, cwd), DirectoryBehind(ws, cwd))
  }

  lemma JudgedIs(host: Host, ws: seq<Value>, cwd: Option<Path>, redirects: bool, command: Verdict)
    requires redirects == RedirectsInto(host, ws, cwd)
    requires var rest := Behind(ws);
             command == if rest == [] then Continue(cwd)
                        else VerdictOf(ToolWrites(host, Tool(rest[0]), rest[1..], cwd),
                                       if Tool(rest[0]) == "cd" then CdTarget(rest[1..], cwd) else cwd)
    ensures Judged(host, ws, cwd) == if redirects then Effect else command
  {
  }

  /** One segment, for every list of words. */
  lemma SegmentExactly(host: Host, words: seq<string>, cwd: Option<Path>)
    requires Absolute(cwd)
    ensures InspectSegment(host, words, cwd) == Judged(host, Seen(host, words), cwd)
    ensures Absolute(DirectoryBehind(Seen(host, words), cwd))
  {
    var ws, rest := Seen(host, words), SkipAssignments(words);
    var redirects := RedirectsInto(host, ws, cwd);
    RedirectsExactly(host, words, cwd);
    BehindExactly(host, words);
    if rest == [] {
      SegmentIs(host, words, cwd, redirects, Continue(cwd));
      JudgedIs(host, ws, cwd, redirects, Continue(cwd));
    } else {
      RestExactly(host, rest, Behind(ws), cwd);
      SegmentIs(host, words, cwd, redirects, InspectCommand(host, rest, cwd));
      JudgedIs(host, ws, cwd, redirects, InspectCommand(host, rest, cwd));
    }
  }

  function SeenAll(host: Host, segments: seq<seq<string>>): (r: seq<seq<Value>>)
    ensures |r| == |segments| && forall i | 0 <= i < |segments| :: r[i] == Seen(host, segments[i])
  {
    seq(|segments|, i requires 0 <= i < |segments| => Seen(host, segments[i]))
  }

  lemma {:induction false} DirectoryShift(commands: seq<seq<Value>>, i: nat, cwd: Option<Path>)
    requires commands != [] && i < |commands|
    ensures DirectoryOf(commands, i + 1, cwd) == DirectoryOf(commands[1..], i, DirectoryBehind(commands[0], cwd))
  {
    var rest, next := commands[1..], DirectoryBehind(commands[0], cwd);
    if i == 0 {
      assert DirectoryOf(commands, 0, cwd) == cwd && DirectoryOf(rest, 0, next) == next;
    } else {
      DirectoryShift(commands, i - 1, cwd);
      assert rest[i - 1] == commands[i];
      assert DirectoryOf(rest, i, next) == DirectoryBehind(rest[i - 1], DirectoryOf(rest, i - 1, next));
    }
  }

  lemma WritesLater(host: Host, commands: seq<seq<Value>>, i: nat, cwd: Option<Path>)
    requires commands != [] && i < |commands| - 1
    ensures var rest, next := commands[1..], DirectoryBehind(commands[0], cwd);
            CommandWrites(host, commands[i + 1], DirectoryOf(commands, i + 1, cwd))
            <==> CommandWrites(host, rest[i], DirectoryOf(rest, i, next))
  {
    DirectoryShift(commands, i, cwd);
    assert commands[1..][i] == commands[i + 1];
  }

  lemma ScriptStep(host: Host, commands: seq<seq<Value>>, cwd: Option<Path>)
    requires commands != []
    ensures ScriptWrites(host, commands, cwd) <==>
              CommandWrites(host, commands[0], cwd)
              || ScriptWrites(host, commands[1..], DirectoryBehind(commands[0], cwd))
  {
    WritesFirst(host, commands, cwd);
    WritesBehind(host, commands, cwd);
  }

  lemma WritesFirst(host: Host, commands: seq<seq<Value>>, cwd: Option<Path>)
    requires commands != []
    ensures CommandWrites(host, commands[0], cwd) ==> ScriptWrites(host, commands, cwd)
    ensures ScriptWrites(host, commands, cwd) && !CommandWrites(host, commands[0], cwd) ==>
              ScriptWrites(host, commands[1..], DirectoryBehind(commands[0], cwd))
  {
    assert DirectoryOf(commands, 0, cwd) == cwd;
    if ScriptWrites(host, commands, cwd) && !CommandWrites(host, commands[0], cwd) {
      var i: nat :| i < |commands| && CommandWrites(host, commands[i], DirectoryOf(commands, i, cwd));
      WritesLater(host, commands, i - 1, cwd);
    }
  }

  lemma WritesBehind(host: Host, commands: seq<seq<Value>>, cwd: Option<Path>)
    requires commands != []
    ensures ScriptWrites(host, commands[1..], DirectoryBehind(commands[0], cwd)) ==> ScriptWrites(host, commands, cwd)
  {
    var rest, next := commands[1..], DirectoryBehind(commands[0], cwd);
    if i: nat :| i < |rest| && CommandWrites(host, rest[i], DirectoryOf(rest, i, next)) {
      WritesLater(host, commands, i, cwd);
    }
  }

  lemma SegmentsStep(host: Host, segments: seq<seq<string>>, cwd: Option<Path>, first: Verdict)
    requires segments != [] && first == InspectSegment(host, segments[0], cwd)
    ensures InspectSegments(host, segments, cwd) <==> first.Effect? || InspectSegments(host, segments[1..], first.cwd)
  {
  }

  lemma FirstSegment(host: Host, segments: seq<seq<string>>, cwd: Option<Path>)
    requires segments != [] && Absolute(cwd)
    ensures var ws := Seen(host, segments[0]);
            && Absolute(DirectoryBehind(ws, cwd))
            && (InspectSegments(host, segments, cwd) <==>
                  CommandWrites(host, ws, cwd) || InspectSegments(host, segments[1..], DirectoryBehind(ws, cwd)))
  {
    SegmentExactly(host, segments[0], cwd);
    SegmentsStep(host, segments, cwd, Judged(host, Seen(host, segments[0]), cwd));
  }

  /** All segments: some command writes, from the directory that the `cd`s before it lead to. */
  lemma {:induction false} SegmentsExactly(host: Host, segments: seq<seq<string>>, cwd: Option<Path>)
    requires Absolute(cwd)
    ensures InspectSegments(host, segments, cwd) <==> ScriptWrites(host, SeenAll(host, segments), cwd)
  {
    if segments == [] {
    } else {
      var all := SeenAll(host, segments);
      FirstSegment(host, segments, cwd);
      ScriptStep(host, all, cwd);
      assert all[0] == Seen(host, segments[0]) && all[1..] == SeenAll(host, segments[1..]);
      SegmentsExactly(host, segments[1..], DirectoryBehind(all[0], cwd));
    }
  }
}
