/** One turn of the shell's read loop (main in myshell.c) after fgets has
    filled the line buffer: strip the trailing whitespace, recognise the
    command, run it. */
module Shell {
  import opened CLib
  import opened LineInput
  import opened Dispatcher
  import opened Builtins

  /** What running a line leads to: the process exits (exit, q), or a
      built-in returns with its outcome. */
  datatype Effect = Terminate | Completed(outcome: Outcome)

  /** The diagnostic execute_command writes for a line it does not know. */
  function UnknownDiagnostic(line: string): string {
    Diagnostic("myshell", line + ": No such file or directory\n")
  }

  /** Running a recognised command (do_q and exit(EXIT_SUCCESS) terminate).
      cat and ls run in their corrected form: cat reports the reason open
      failed, ls reports a failing readdir. */
  function Run(c: Command, os: Os): Effect {
    match c
    case Cd(d) => Completed(DoCd(d, os))
    case Exit => Terminate
    case Cat(f) => Completed(CatOutcome(f, os))
    case Stat(f) => Completed(DoStat(f, os))
    case Mkdir(d) => Completed(DoMkdir(d, os))
    case Rmdir(d) => Completed(DoRmdir(d, os))
    case Rm(f) => Completed(DoRm(f, os))
    case Ls(d) => Completed(LsOutcome(d, os))
    case Pwd => Completed(DoPwd(os))
    case Quit => Terminate
    case Unknown(l) => Completed(Outcome(-1, "", [UnknownDiagnostic(l)]))
    case Empty => Completed(Outcome(-1, "", []))
  }

  function RunLine(line: string, os: Os): Effect {
    Run(MainDispatch(line), os)
  }

  /** The body of main's loop on a buffer fgets has filled, with the
      corrected strip (guarded by i >= 0), the corrected do_cat (the reason
      open failed reported) and the corrected do_ls (a failing readdir
      reported). */
  method HandleLine(buffer: array<char>, os: Os) returns (e: Effect)
    requires BufferSize <= buffer.Length
    modifies buffer
    ensures Stripped(old(buffer[..]), buffer[..])
    ensures e == RunLine(TrimEnd(CString(old(buffer[..]))), os)
  {
    StripTrailingWhitespace(buffer);
    var line := CString(buffer[..]);
    var c := MainDispatch(line);
    if c.Cat? {
      var o := DoCat(c.file, os);
      e := Completed(o);
    } else if c.Ls? {
      var o := DoLs(c.dir, os);
      e := Completed(o);
    } else {
      e := Run(c, os);
    }
  }

  // ---------------------------------------------------------------------

  /** Only Exit and Quit end the process. */
  lemma RunTerminatesIff(c: Command, os: Os)
    ensures Run(c, os).Terminate? <==> c == Exit || c == Quit
  {
  }

  /** The return codes of the commands, and when they report. */
  lemma RunCodes(c: Command, os: Os)
    requires Run(c, os).Completed?
    ensures var o := Run(c, os).outcome;
            (o.code == 1 <==> c == Pwd) &&
            (o.code == 0 || o.code == -1 || o.code == 1) &&
            |o.stderr| <= 1 &&
            (c != Pwd && c != Empty ==> (o.code == -1 <==> |o.stderr| == 1))
  {
  }

  /** Only exit and q end the process: the exact "exit", the exact "q" and
      every "q %s" match. */
  lemma TerminatesOnlyOnExitOrQ(line: string, os: Os)
    requires NoNul(line)
    ensures RunLine(line, os).Terminate? <==>
              line == "exit" || line == "q" || ScanVerb(line, "q").Some?
  {
    RunTerminatesIff(MainDispatch(line), os);
    ExitRoute(line);
    QuitRoute(line);
  }

  /** Return codes: pwd alone returns 1; every other built-in returns 0 or
      -1, and reports on standard error exactly when it returns -1, with
      one line. Only the empty line fails silently. */
  lemma ResultCodes(line: string, os: Os)
    requires RunLine(line, os).Completed?
    ensures var o := RunLine(line, os).outcome;
            (o.code == 1 <==> MainDispatch(line).Pwd?) &&
            (o.code == 0 || o.code == -1 || o.code == 1) &&
            |o.stderr| <= 1 &&
            (!MainDispatch(line).Pwd? && line != "" ==> (o.code == -1 <==> |o.stderr| == 1))
  {
    RunCodes(MainDispatch(line), os);
    UnmatchedLines(line);
  }

  /** The diagnostic for an unknown line starts with the shell's name and the line. */
  lemma UnknownDiagnosticHoldsLine(line: string)
    ensures IsPrefix("myshell: " + line, UnknownDiagnostic(line))
  {
    var d := UnknownDiagnostic(line);
    assert d == ("myshell: " + line) + (": No such file or directory\n");
    assert d[..|"myshell: " + line|] == "myshell: " + line;
  }

  /** An unknown verb yields -1 and one diagnostic that holds the whole line. */
  lemma UnknownLineReported(line: string, os: Os)
    requires MainDispatch(line).Unknown?
    ensures RunLine(line, os) == Completed(Outcome(-1, "", [UnknownDiagnostic(line)]))
    ensures IsPrefix("myshell: " + line, RunLine(line, os).outcome.stderr[0])
  {
    UnmatchedLines(line);
    UnknownDiagnosticHoldsLine(line);
  }

  /** An empty line, or one of whitespace only once stripped, runs nothing
      and reports nothing. */
  lemma BlankLineIsSilent(raw: string, os: Os)
    requires AllSpace(raw)
    ensures RunLine(TrimEnd(raw), os) == Completed(Outcome(-1, "", []))
  {
    TrimEndEmptyIffBlank(raw);
    UnmatchedLines("");
  }

  /** Each command's outcome follows its system call: cd, stat, mkdir, rmdir
      and rm report exactly the result of chdir, stat, mkdir, rmdir and unlink
      on the argument the line carried. */
  lemma BuiltinsFollowTheirCall(line: string, os: Os)
    ensures MainDispatch(line).Cd? ==>
              Reports(RunLine(line, os).outcome, "cd", os.chdir(CdTarget(MainDispatch(line).dir, os.home)))
    ensures MainDispatch(line).Stat? ==>
              Reports(RunLine(line, os).outcome, "stat", os.stat(MainDispatch(line).file))
    ensures MainDispatch(line).Mkdir? ==>
              Reports(RunLine(line, os).outcome, "mkdir", os.mkdir(MainDispatch(line).dir))
    ensures MainDispatch(line).Rmdir? ==>
              Reports(RunLine(line, os).outcome, "rmdir", os.rmdir(MainDispatch(line).dir))
    ensures MainDispatch(line).Rm? ==>
              Reports(RunLine(line, os).outcome, "rm", os.unlink(MainDispatch(line).file))
  {
  }

  /** "ls" with no argument lists the current directory ".". */
  lemma BareLsListsCurrentDirectory(os: Os)
    ensures RunLine("ls", os) == Completed(LsOutcome(".", os))
  {
    BareLsListsDot();
  }

  /** "cd" with no argument changes to the home directory. */
  lemma BareCdGoesToHome(os: Os)
    ensures RunLine("cd", os) == Completed(DoCd("", os))
    ensures RunLine("cd", os).outcome.code == 0 <==> os.chdir(os.home).Ok?
  {
    BareCdGoesHome();
  }
}
