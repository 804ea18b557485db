/** The command recogniser of the shell: the cd / exit special cases of
    main and the first-match chain of execute_command (myshell.c), as a
    function from the trimmed line to the command it runs. */
module Dispatcher {
  import opened CLib

  /** What one line asks the shell to do, with the argument stored in the
      filename buffer. */
  datatype Command =
    | Cd(dir: string)          // do_cd; "" makes do_cd use the home directory
    | Exit
    | Cat(file: string)
    | Stat(file: string)
    | Mkdir(dir: string)
    | Rmdir(dir: string)
    | Rm(file: string)
    | Ls(dir: string)
    | Pwd
    | Quit                     // do_q
    | Unknown(line: string)    // no pattern matched, diagnostic naming the line
    | Empty                    // no pattern matched, nothing reported

  /** strncmp(line, lit, BUFFER_SIZE) == 0 */
  predicate IsExactly(line: string, lit: string) {
    StrNEqual(line, lit, BufferSize)
  }

  /** The special cases of main, tried before execute_command. */
  function MainDispatch(line: string): Command {
    var cd := ScanVerb(line, "cd");
    if cd.Some? || IsExactly(line, "cd") then
      Cd(if cd.Some? then cd.value else "")
    else if IsExactly(line, "exit") then Exit
    else ExecuteCommand(line)
  }

  /** execute_command: the patterns in order, the first that matches wins. */
  function ExecuteCommand(line: string): Command {
    var cat := ScanVerb(line, "cat");
    var stat := ScanVerb(line, "stat");
    var mkdir := ScanVerb(line, "mkdir");
    var rmdir := ScanVerb(line, "rmdir");
    var rm := ScanVerb(line, "rm");
    var ls := ScanVerb(line, "ls");
    var q := ScanVerb(line, "q");
    if cat.Some? then Cat(cat.value)
    else if stat.Some? then Stat(stat.value)
    else if mkdir.Some? then Mkdir(mkdir.value)
    else if rmdir.Some? then Rmdir(rmdir.value)
    else if rm.Some? then Rm(rm.value)
    else if ls.Some? || IsExactly(line, "ls") then
      // filename is still zeroed when only the exact "ls" matched
      var filename := if ls.Some? then ls.value else "";
      Ls(if filename == "" then "." else filename)
    else if IsExactly(line, "pwd") then Pwd
    else if q.Some? || IsExactly(line, "q") then Quit
    else if line != "" then Unknown(line)
    else Empty
  }

  // ---------------------------------------------------------------------
  // Helpers: which patterns can match the same line

  /** Two words that differ at index k cannot both start the line. */
  lemma NotBothPrefixes(line: string, v: string, w: string, k: nat)
    requires k < |v| && k < |w| && v[k] != w[k]
    ensures !(IsPrefix(v, line) && IsPrefix(w, line))
  {
    assert IsPrefix(v, line) ==> line[k] == line[..|v|][k] == v[k];
    assert IsPrefix(w, line) ==> line[k] == line[..|w|][k] == w[k];
  }

  /** An exact-match test that succeeds implies the literal starts the line. */
  lemma ExactImpliesPrefix(line: string, lit: string)
    requires NoNul(lit) && |lit| < BufferSize
    ensures IsExactly(line, lit) ==> IsPrefix(lit, line)
  {
    StrNEqualMeaning(line, lit, BufferSize);
  }

  /** A line that starts with v never matches the patterns of a word w that
      differs from v at index k. */
  lemma Excludes(line: string, v: string, w: string, k: nat)
    requires k < |v| && k < |w| && v[k] != w[k]
    requires NoNul(w) && |w| < BufferSize
    requires IsPrefix(v, line)
    ensures ScanVerb(line, w).None? && !IsExactly(line, w)
  {
    NotBothPrefixes(line, v, w, k);
    ExactImpliesPrefix(line, w);
    ScanPrefix(line, w);
  }

  // ---------------------------------------------------------------------
  // Routing: which line reaches which built-in

  /** cd is tried first: the exact "cd" and every "cd %s" match go to do_cd,
      the argument being the token, or "" for the bare "cd". */
  lemma CdRoute(line: string)
    ensures MainDispatch(line).Cd? <==>
              IsPrefix("cd", line) && (IsExactly(line, "cd") || HasNonSpace(line[2..]))
    ensures MainDispatch(line).Cd? && MainDispatch(line).dir != "" ==>
              exists i :: IsTokenAt(line, 2, i, MainDispatch(line).dir)
    ensures NoNul(line) ==> (MainDispatch(line) == Cd("") <==> line == "cd")
  {
    ScanVerbMeaning(line, "cd");
    ExactImpliesPrefix(line, "cd");
    Excludes("cd", "cd", "exit", 0);
    ExactMatchIsEquality("cd", "cd", BufferSize);
    if NoNul(line) {
      ExactMatchIsEquality(line, "cd", BufferSize);
    }
  }

  /** Only the exact line "exit" exits. */
  lemma ExitRoute(line: string)
    requires NoNul(line)
    ensures MainDispatch(line) == Exit <==> line == "exit"
  {
    ExactMatchIsEquality(line, "exit", BufferSize);
    if line == "exit" {
      Excludes(line, "exit", "cd", 0);
    }
  }

  /** execute_command never yields Exit or Cd: the commands it returns are
      exactly those of the lines main hands over. */
  lemma ExecuteNeverExitsOrCds(line: string)
    ensures !ExecuteCommand(line).Exit? && !ExecuteCommand(line).Cd?
  {
  }

  lemma CatRoute(line: string, x: string)
    ensures MainDispatch(line) == Cat(x) <==> ScanVerb(line, "cat") == Some(x)
  {
    if ScanVerb(line, "cat").Some? {
      ScanPrefix(line, "cat");
      Excludes(line, "cat", "cd", 1);
      Excludes(line, "cat", "exit", 0);
    }
  }

  lemma StatRoute(line: string, x: string)
    ensures MainDispatch(line) == Stat(x) <==> ScanVerb(line, "stat") == Some(x)
  {
    if ScanVerb(line, "stat").Some? {
      ScanPrefix(line, "stat");
      Excludes(line, "stat", "cd", 0);
      Excludes(line, "stat", "exit", 0);
      Excludes(line, "stat", "cat", 0);
    }
  }

  lemma MkdirRoute(line: string, x: string)
    ensures MainDispatch(line) == Mkdir(x) <==> ScanVerb(line, "mkdir") == Some(x)
  {
    if ScanVerb(line, "mkdir").Some? {
      ScanPrefix(line, "mkdir");
      Excludes(line, "mkdir", "cd", 0);
      Excludes(line, "mkdir", "exit", 0);
      Excludes(line, "mkdir", "cat", 0);
      Excludes(line, "mkdir", "stat", 0);
    }
  }

  lemma RmdirRoute(line: string, x: string)
    ensures MainDispatch(line) == Rmdir(x) <==> ScanVerb(line, "rmdir") == Some(x)
  {
    if ScanVerb(line, "rmdir").Some? {
      ScanPrefix(line, "rmdir");
      Excludes(line, "rmdir", "cd", 0);
      Excludes(line, "rmdir", "exit", 0);
      Excludes(line, "rmdir", "cat", 0);
      Excludes(line, "rmdir", "stat", 0);
      Excludes(line, "rmdir", "mkdir", 0);
    }
  }

  /** rm only gets the lines that the rmdir pattern, tried just before it,
      leaves over. */
  lemma RmRoute(line: string, x: string)
    ensures MainDispatch(line) == Rm(x) <==>
              ScanVerb(line, "rm") == Some(x) && ScanVerb(line, "rmdir").None?
  {
    if ScanVerb(line, "rm").Some? {
      ScanPrefix(line, "rm");
      Excludes(line, "rm", "cd", 0);
      Excludes(line, "rm", "exit", 0);
      Excludes(line, "rm", "cat", 0);
      Excludes(line, "rm", "stat", 0);
      Excludes(line, "rm", "mkdir", 0);
    }
  }

  /** ls sends its token, or "." for the bare "ls". */
  lemma LsRoute(line: string, x: string)
    requires NoNul(line)
    ensures MainDispatch(line) == Ls(x) <==>
              ScanVerb(line, "ls") == Some(x) || (line == "ls" && x == ".")
  {
    ExactMatchIsEquality(line, "ls", BufferSize);
    ScanOfBareVerb("ls");
    if ScanVerb(line, "ls").Some? || IsExactly(line, "ls") {
      LsLinesList(line);
    }
  }

  /** The lines the ls test accepts reach do_ls, with "." when no token was stored. */
  lemma LsLinesList(line: string)
    requires ScanVerb(line, "ls").Some? || IsExactly(line, "ls")
    ensures MainDispatch(line) == Ls(if ScanVerb(line, "ls").Some? then ScanVerb(line, "ls").value else ".")
  {
    ScanPrefix(line, "ls");
    ExactImpliesPrefix(line, "ls");
    ScanNonEmpty(line, "ls");
    LsMissesEarlierPatterns(line);
  }

  /** A line starting with ls matches none of the patterns tried before ls. */
  lemma LsMissesEarlierPatterns(line: string)
    requires IsPrefix("ls", line)
    ensures ScanVerb(line, "cd").None? && !IsExactly(line, "cd") && !IsExactly(line, "exit")
    ensures ScanVerb(line, "cat").None? && ScanVerb(line, "stat").None? && ScanVerb(line, "mkdir").None?
    ensures ScanVerb(line, "rmdir").None? && ScanVerb(line, "rm").None?
  {
    Excludes(line, "ls", "cd", 0);
    Excludes(line, "ls", "exit", 0);
    Excludes(line, "ls", "cat", 0);
    Excludes(line, "ls", "stat", 0);
    Excludes(line, "ls", "mkdir", 0);
    Excludes(line, "ls", "rmdir", 0);
    Excludes(line, "ls", "rm", 0);
  }

  /** pwd is recognised only on the exact line "pwd". */
  lemma PwdRoute(line: string)
    requires NoNul(line)
    ensures MainDispatch(line) == Pwd <==> line == "pwd"
  {
    ExactMatchIsEquality(line, "pwd", BufferSize);
    if IsExactly(line, "pwd") {
      ExactImpliesPrefix(line, "pwd");
      PwdMissesEarlierPatterns(line);
    }
  }

  /** A line starting with pwd matches none of the patterns tried before pwd. */
  lemma PwdMissesEarlierPatterns(line: string)
    requires IsPrefix("pwd", line)
    ensures ScanVerb(line, "cd").None? && !IsExactly(line, "cd") && !IsExactly(line, "exit")
    ensures ScanVerb(line, "cat").None? && ScanVerb(line, "stat").None? && ScanVerb(line, "mkdir").None?
    ensures ScanVerb(line, "rmdir").None? && ScanVerb(line, "rm").None?
    ensures ScanVerb(line, "ls").None? && !IsExactly(line, "ls")
  {
    Excludes(line, "pwd", "cd", 0);
    Excludes(line, "pwd", "exit", 0);
    Excludes(line, "pwd", "cat", 0);
    Excludes(line, "pwd", "stat", 0);
    Excludes(line, "pwd", "mkdir", 0);
    Excludes(line, "pwd", "rmdir", 0);
    Excludes(line, "pwd", "rm", 0);
    Excludes(line, "pwd", "ls", 0);
  }

  /** q is recognised on the exact "q" and on every "q %s" match. */
  lemma QuitRoute(line: string)
    requires NoNul(line)
    ensures MainDispatch(line) == Quit <==> line == "q" || ScanVerb(line, "q").Some?
  {
    ExactMatchIsEquality(line, "q", BufferSize);
    if IsExactly(line, "q") || ScanVerb(line, "q").Some? {
      QLinesQuit(line);
    }
  }

  /** The lines the q pattern accepts are not taken by any earlier pattern. */
  lemma QLinesQuit(line: string)
    requires IsExactly(line, "q") || ScanVerb(line, "q").Some?
    ensures MainDispatch(line) == Quit
  {
    ScanPrefix(line, "q");
    ExactImpliesPrefix(line, "q");
    QMissesEarlierPatterns(line);
  }

  /** A line starting with q matches none of the patterns tried before q. */
  lemma QMissesEarlierPatterns(line: string)
    requires IsPrefix("q", line)
    ensures ScanVerb(line, "cd").None? && !IsExactly(line, "cd") && !IsExactly(line, "exit")
    ensures ScanVerb(line, "cat").None? && ScanVerb(line, "stat").None? && ScanVerb(line, "mkdir").None?
    ensures ScanVerb(line, "rmdir").None? && ScanVerb(line, "rm").None?
    ensures ScanVerb(line, "ls").None? && !IsExactly(line, "ls") && !IsExactly(line, "pwd")
  {
    Excludes(line, "q", "cd", 0);
    Excludes(line, "q", "exit", 0);
    Excludes(line, "q", "cat", 0);
    Excludes(line, "q", "stat", 0);
    Excludes(line, "q", "mkdir", 0);
    Excludes(line, "q", "rmdir", 0);
    Excludes(line, "q", "rm", 0);
    Excludes(line, "q", "ls", 0);
    Excludes(line, "q", "pwd", 0);
  }

  /** A trimmed line that starts with q always quits ("quit", "qq", "q x"). */
  lemma TrimmedQQuits(line: string)
    requires NoNul(line) && |line| > 0 && line[0] == 'q' && !IsSpace(line[|line| - 1])
    ensures MainDispatch(line) == Quit
  {
    QuitRoute(line);
    ScanVerbMeaning(line, "q");
    if line != "q" {
      assert line[..1] == "q";
      assert line[1..][|line| - 2] == line[|line| - 1];
    }
  }

  /** The empty line yields Empty and nothing else does; a line that matches
      no pattern comes back whole in Unknown. */
  lemma UnmatchedLines(line: string)
    ensures MainDispatch(line) == Empty <==> line == ""
    ensures MainDispatch(line).Unknown? ==> MainDispatch(line).line == line && line != ""
  {
    if line == "" {
      assert !IsExactly(line, "cd") && !IsExactly(line, "exit") && !IsExactly(line, "ls");
      assert !IsExactly(line, "pwd") && !IsExactly(line, "q");
    }
  }

  // ---------------------------------------------------------------------
  // The canonical line of a command, and the round trip through dispatch

  /** An argument token as "%s" stores it. */
  predicate IsArgument(s: string) {
    |s| > 0 && NoSpace(s)
  }

  /** The commands a line can produce other than Unknown, with their arguments as scanned. */
  predicate WellFormed(c: Command) {
    match c
    case Cd(d) => d == "" || IsArgument(d)
    case Cat(f) => IsArgument(f)
    case Stat(f) => IsArgument(f)
    case Mkdir(d) => IsArgument(d)
    case Rmdir(d) => IsArgument(d)
    case Rm(f) => IsArgument(f)
    case Ls(d) => IsArgument(d)
    case Unknown(_) => false
    case _ => true
  }

  /** The line a user would type for the command. */
  function Render(c: Command): string {
    match c
    case Cd(d) => if d == "" then "cd" else "cd " + d
    case Exit => "exit"
    case Cat(f) => "cat " + f
    case Stat(f) => "stat " + f
    case Mkdir(d) => "mkdir " + d
    case Rmdir(d) => "rmdir " + d
    case Rm(f) => "rm " + f
    case Ls(d) => "ls " + d
    case Pwd => "pwd"
    case Quit => "q"
    case Unknown(l) => l
    case Empty => ""
  }

  /** "V %s" applied to V, a space and a token gives back the token. */
  lemma ScanRendered(line: string, v: string, t: string)
    requires IsArgument(t)
    requires |line| == |v| + 1 + |t| && line[..|v|] == v && line[|v|] == ' ' && line[|v| + 1..] == t
    ensures ScanVerb(line, v) == Some(t)
  {
    assert line[|v|..][1] == t[0];
    assert line[|v| + 1..|v| + 1 + |t|] == t;
    assert line[|v|..|v| + 1] == " ";
    assert IsTokenAt(line, |v|, |v| + 1, t);
    ScanVerbMeaning(line, v);
    var i :| IsTokenAt(line, |v|, i, ScanVerb(line, v).value);
    TokenIsUnique(line, |v|, i, ScanVerb(line, v).value, |v| + 1, t);
  }

  /** Every command a line can produce is well formed. */
  lemma {:induction false} DispatchWellFormed(line: string)
    requires !MainDispatch(line).Unknown?
    ensures WellFormed(MainDispatch(line))
  {
    var c := MainDispatch(line);
    if c.Cd? && c.dir != "" {
      CdRoute(line);
      var i :| IsTokenAt(line, 2, i, c.dir);
    }
    forall v | v in ["cat", "stat", "mkdir", "rmdir", "rm", "ls"] && ScanVerb(line, v).Some?
      ensures IsArgument(ScanVerb(line, v).value)
    {
      ScanVerbMeaning(line, v);
      var i :| IsTokenAt(line, |v|, i, ScanVerb(line, v).value);
    }
  }

  /** Dispatching the canonical line of a well-formed command gives that command back. */
  lemma DispatchRender(c: Command)
    requires WellFormed(c)
    ensures MainDispatch(Render(c)) == c
  {
    var line := Render(c);
    match c
    case Cd(d) =>
      if d != "" { ScanRendered(line, "cd", d); } else { CdRoute("cd"); }
    case Exit =>
      ExitRoute("exit");
    case Cat(f) =>
      ScanRendered(line, "cat", f);
      CatRoute(line, f);
    case Stat(f) =>
      ScanRendered(line, "stat", f);
      StatRoute(line, f);
    case Mkdir(d) =>
      ScanRendered(line, "mkdir", d);
      MkdirRoute(line, d);
    case Rmdir(d) =>
      ScanRendered(line, "rmdir", d);
      RmdirRoute(line, d);
    case Rm(f) =>
      ScanRendered(line, "rm", f);
      assert line[..3] == "rm ";
      NotBothPrefixes(line, "rm ", "rmdir", 2);
      ScanPrefix(line, "rmdir");
      RmRoute(line, f);
    case Ls(d) =>
      LsArgumentRoute(d);
    case Pwd =>
      PwdRoute("pwd");
    case Quit =>
      QuitRoute("q");
    case Empty =>
      UnmatchedLines("");
  }

  /** "ls " followed by a token reaches do_ls with that token (no NUL needed). */
  lemma LsArgumentRoute(d: string)
    requires IsArgument(d)
    ensures MainDispatch("ls " + d) == Ls(d)
  {
    var line := "ls " + d;
    ScanRendered(line, "ls", d);
    assert line[..2] == "ls";
    Excludes(line, "ls", "cd", 0);
    Excludes(line, "ls", "exit", 0);
    Excludes(line, "ls", "cat", 0);
    Excludes(line, "ls", "stat", 0);
    Excludes(line, "ls", "mkdir", 0);
    Excludes(line, "ls", "rmdir", 0);
    Excludes(line, "ls", "rm", 0);
  }

  /** What the shell does with a line depends only on its command: re-typing
      the canonical line of any recognised command gives the same command. */
  lemma DispatchNormalises(line: string)
    requires !MainDispatch(line).Unknown?
    ensures MainDispatch(Render(MainDispatch(line))) == MainDispatch(line)
  {
    DispatchWellFormed(line);
    DispatchRender(MainDispatch(line));
  }

  // ---------------------------------------------------------------------
  // The visible consequences of the scanf rules

  /** No space is needed between a verb and its argument. */
  lemma CatWithoutSpace()
    ensures MainDispatch("catfoo") == Cat("foo")
  {
    assert "catfoo"[..3] == "cat";
    assert "catfoo"[3..3] == [] && "catfoo"[3..6] == "foo";
    ScanIs("catfoo", "cat", 3, "foo");
    CatRoute("catfoo", "foo");
  }

  /** Only the first token is taken; the rest of the line is ignored. */
  lemma CatTakesFirstToken()
    ensures MainDispatch("cat a b") == Cat("a")
  {
    assert "cat a b"[..3] == "cat";
    assert "cat a b"[3..4] == " " && "cat a b"[4..5] == "a";
    ScanIs("cat a b", "cat", 4, "a");
    CatRoute("cat a b", "a");
  }

  /** The bare "rmdir" has no token for "rmdir %s" and so reaches rm with "dir". */
  lemma BareRmdirRemovesDir()
    ensures MainDispatch("rmdir") == Rm("dir")
  {
    assert "rmdir"[..2] == "rm";
    assert "rmdir"[2..2] == [] && "rmdir"[2..5] == "dir";
    ScanIs("rmdir", "rm", 2, "dir");
    ScanVerbMeaning("rmdir", "rmdir");
    assert "rmdir"[5..] == [];
    RmRoute("rmdir", "dir");
  }

  /** "rmdir x" is caught by rmdir, never by the rm pattern tried after it. */
  lemma RmdirBeforeRm()
    ensures MainDispatch("rmdir x") == Rmdir("x")
  {
    ScanRendered("rmdir x", "rmdir", "x");
    RmdirRoute("rmdir x", "x");
  }

  /** "quit" matches "q %s" with the token "uit". */
  lemma QuitWordQuits()
    ensures MainDispatch("quit") == Quit
  {
    TrimmedQQuits("quit");
  }

  lemma BareLsListsDot()
    ensures MainDispatch("ls") == Ls(".")
  {
    ExactMatchIsEquality("ls", "ls", BufferSize);
    ScanOfBareVerb("ls");
    LsLinesList("ls");
  }

  lemma BareCdGoesHome()
    ensures MainDispatch("cd") == Cd("")
  {
    CdRoute("cd");
  }

  /** A scan whose token is known. */
  lemma ScanIs(line: string, v: string, i: nat, t: string)
    requires IsPrefix(v, line) && IsTokenAt(line, |v|, i, t)
    ensures ScanVerb(line, v) == Some(t)
  {
    assert line[|v|..][i - |v|] == line[i] == line[i..i + |t|][0];
    ScanVerbMeaning(line, v);
    var j :| IsTokenAt(line, |v|, j, ScanVerb(line, v).value);
    TokenIsUnique(line, |v|, i, t, j, ScanVerb(line, v).value);
  }

  /** Only the bare "exit" exits: with anything after it the line is unknown. */
  lemma ExitWithMoreIsUnknown(line: string)
    requires NoNul(line) && IsPrefix("exit", line) && line != "exit"
    ensures MainDispatch(line) == Unknown(line)
  {
    ExactMatchIsEquality(line, "exit", BufferSize);
    ExitMissesOtherPatterns(line);
  }

  /** A line starting with exit matches no pattern other than the exact "exit". */
  lemma ExitMissesOtherPatterns(line: string)
    requires IsPrefix("exit", line)
    ensures ScanVerb(line, "cd").None? && !IsExactly(line, "cd")
    ensures ScanVerb(line, "cat").None? && ScanVerb(line, "stat").None? && ScanVerb(line, "mkdir").None?
    ensures ScanVerb(line, "rmdir").None? && ScanVerb(line, "rm").None?
    ensures ScanVerb(line, "ls").None? && !IsExactly(line, "ls") && !IsExactly(line, "pwd")
    ensures ScanVerb(line, "q").None? && !IsExactly(line, "q")
  {
    Excludes(line, "exit", "cd", 0);
    Excludes(line, "exit", "cat", 0);
    Excludes(line, "exit", "stat", 0);
    Excludes(line, "exit", "mkdir", 0);
    Excludes(line, "exit", "rmdir", 0);
    Excludes(line, "exit", "rm", 0);
    Excludes(line, "exit", "ls", 0);
    Excludes(line, "exit", "pwd", 0);
    Excludes(line, "exit", "q", 0);
  }

  lemma ExitNowIsUnknown()
    ensures MainDispatch("exit now") == Unknown("exit now")
  {
    assert "exit now"[..4] == "exit";
    ExitWithMoreIsUnknown("exit now");
  }

  /** mkdir needs its argument: "mkdir" followed by nothing but whitespace is unknown. */
  lemma MkdirWithoutArgumentIsUnknown(line: string)
    requires IsPrefix("mkdir", line) && AllSpace(line[5..])
    ensures MainDispatch(line) == Unknown(line)
  {
    ScanVerbMeaning(line, "mkdir");
    MkdirMissesOtherPatterns(line);
  }

  /** A line starting with mkdir matches no pattern other than "mkdir %s". */
  lemma MkdirMissesOtherPatterns(line: string)
    requires IsPrefix("mkdir", line)
    ensures ScanVerb(line, "cd").None? && !IsExactly(line, "cd") && !IsExactly(line, "exit")
    ensures ScanVerb(line, "cat").None? && ScanVerb(line, "stat").None?
    ensures ScanVerb(line, "rmdir").None? && ScanVerb(line, "rm").None?
    ensures ScanVerb(line, "ls").None? && !IsExactly(line, "ls") && !IsExactly(line, "pwd")
    ensures ScanVerb(line, "q").None? && !IsExactly(line, "q")
  {
    Excludes(line, "mkdir", "cd", 0);
    Excludes(line, "mkdir", "exit", 0);
    Excludes(line, "mkdir", "cat", 0);
    Excludes(line, "mkdir", "stat", 0);
    Excludes(line, "mkdir", "rmdir", 0);
    Excludes(line, "mkdir", "rm", 0);
    Excludes(line, "mkdir", "ls", 0);
    Excludes(line, "mkdir", "pwd", 0);
    Excludes(line, "mkdir", "q", 0);
  }

  lemma BareMkdirIsUnknown()
    ensures MainDispatch("mkdir") == Unknown("mkdir")
  {
    assert "mkdir"[5..] == [];
    MkdirWithoutArgumentIsUnknown("mkdir");
  }
}
