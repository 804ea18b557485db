/** The built-in commands of the shell (do_cd, do_ls, do_cat, do_mkdir,
    do_rmdir, do_pwd, do_rm, do_stat of myshell.c) over an abstract
    operating system: each system call is represented by the result it
    returns, and each built-in by the return code and the text it writes
    to standard output and standard error. */
module Builtins {
  import opened CLib

  /** The result of a system call: success, or failure with strerror(errno). */
  datatype OsResult = Ok | Fail(reason: string)

  /** What a built-in returns and prints; each stderr element is one fprintf. */
  datatype Outcome = Outcome(code: int, stdout: string, stderr: seq<string>)

  /** One readdir call that returned an entry, together with errno as the
      loop then finds it, or the readdir call that returned NULL with errno
      set. The stream ends (NULL, errno untouched) after its last element. */
  datatype DirRead = Entry(name: string, errno: OsResult) | ReadFailure(reason: string)

  /** write(1, buffer, n) returned n, or some other count (-1 counting as 0). */
  datatype WriteResult = Complete | Short(written: nat, reason: string)

  /** One read(fd, buffer, BUFFER_SIZE) call that returned bytes, with the
      write of those bytes, or the read that returned -1. The file ends
      (read returns 0) after the last element. A byte is one char here.
      Real reads give 1 to BUFFER_SIZE bytes and a short write fewer bytes
      than the chunk; the lemmas below hold without these bounds. */
  datatype ReadStep = Chunk(data: string, write: WriteResult) | ReadError(reason: string)

  /** getcwd: the path, or a failure, after which the uninitialised buffer
      holds whatever text it happens to hold. */
  datatype Cwd = Resolved(path: string) | Unresolved(reason: string, leftover: string)

  /** The operating system as the built-ins see it. */
  datatype Os = Os(
    home: string,                    // pw_dir of the current user
    chdir: string -> OsResult,
    opendir: string -> OsResult,
    readdir: string -> seq<DirRead>,
    open: string -> OsResult,
    read: string -> seq<ReadStep>,
    mkdir: string -> OsResult,
    rmdir: string -> OsResult,
    unlink: string -> OsResult,
    stat: string -> OsResult,
    statReport: string -> string,    // the metadata lines printf produces
    getcwd: Cwd,
    badDescriptor: string)           // strerror(EBADF), the errno close(-1) leaves

  /** The convention of every built-in but pwd: 0 and silence on success,
      -1 and exactly one diagnostic headed by the command's name on failure. */
  predicate Reports(o: Outcome, command: string, result: OsResult) {
    match result
    case Ok => o.code == 0 && o.stderr == []
    case Fail(_) => o.code == -1 && |o.stderr| == 1 && IsPrefix(command + ": ", o.stderr[0])
  }

  /** One line on standard error, headed by the name of the command. */
  function Diagnostic(command: string, text: string): (d: string)
    ensures IsPrefix(command + ": ", d)
  {
    assert (command + ": " + text)[..|command + ": "|] == command + ": ";
    command + ": " + text
  }

  // ---------------------------------------------------------------------
  // cd, mkdir, rmdir, rm, stat, pwd

  /** The directory do_cd changes to: the home directory for an empty argument. */
  function CdTarget(dir: string, home: string): string {
    if dir == "" then home else dir
  }

  function DoCd(dir: string, os: Os): (r: Outcome)
    ensures Reports(r, "cd", os.chdir(CdTarget(dir, os.home)))
    ensures dir != "" ==> Reports(r, "cd", os.chdir(dir))
    ensures r.stdout == ""
  {
    match os.chdir(CdTarget(dir, os.home))
    case Ok => Outcome(0, "", [])
    case Fail(why) => Outcome(-1, "", [Diagnostic("cd", why + "\n")])
  }

  function DoMkdir(dir: string, os: Os): (r: Outcome)
    ensures Reports(r, "mkdir", os.mkdir(dir)) && r.stdout == ""
  {
    match os.mkdir(dir)
    case Ok => Outcome(0, "", [])
    case Fail(why) => Outcome(-1, "", [Diagnostic("mkdir", "Cannot create directory. " + why + ".\n")])
  }

  function DoRmdir(dir: string, os: Os): (r: Outcome)
    ensures Reports(r, "rmdir", os.rmdir(dir)) && r.stdout == ""
  {
    match os.rmdir(dir)
    case Ok => Outcome(0, "", [])
    case Fail(why) => Outcome(-1, "", [Diagnostic("rmdir", "Cannot remove directory. " + why + ".\n")])
  }

  function DoRm(file: string, os: Os): (r: Outcome)
    ensures Reports(r, "rm", os.unlink(file)) && r.stdout == ""
  {
    match os.unlink(file)
    case Ok => Outcome(0, "", [])
    case Fail(why) => Outcome(-1, "", [Diagnostic("rm", "Cannot remove file. " + why + ".\n")])
  }

  /** The heading of the stat report. */
  function StatHeading(file: string): string {
    "\nSTATS FOR \"" + file + "\":\n"
  }

  function DoStat(file: string, os: Os): (r: Outcome)
    ensures Reports(r, "stat", os.stat(file))
    ensures os.stat(file).Ok? ==> IsPrefix(StatHeading(file), r.stdout)
    ensures os.stat(file).Fail? ==> r.stdout == ""
  {
    match os.stat(file)
    case Ok => Outcome(0, StatHeading(file) + os.statReport(file), [])
    case Fail(why) => Outcome(-1, "", [Diagnostic("stat", "Cannot retrieve file stats. " + why + ".\n")])
  }

  /** do_pwd returns 1 whether or not getcwd succeeded, and prints the
      buffer in either case. */
  function DoPwd(os: Os): (r: Outcome)
    ensures r.code == 1
    ensures r.stderr == [] <==> os.getcwd.Resolved?
    ensures |r.stderr| <= 1
    ensures os.getcwd.Resolved? ==> r.stdout == os.getcwd.path + "\n"
  {
    match os.getcwd
    case Resolved(path) => Outcome(1, path + "\n", [])
    case Unresolved(why, leftover) =>
      Outcome(1, leftover + "\n", [Diagnostic("pwd", "Could not find current directory. " + why + ".\n")])
  }

  // ---------------------------------------------------------------------
  // cat

  /** The output written so far stays in front of what the rest writes. */
  function AfterOutput(out: string, o: Outcome): Outcome {
    o.(stdout := out + o.stdout)
  }

  /** The read / write loop of do_cat, from the first read on. */
  function CatLoop(steps: seq<ReadStep>): (r: Outcome)
    ensures r.code == 0 || r.code == -1
    ensures r.code == 0 <==> r.stderr == []
    ensures |r.stderr| <= 1
    ensures r.code == -1 ==> IsPrefix("cat: ", r.stderr[0])
  {
    if steps == [] then Outcome(0, "", [])
    else match steps[0]
      case Chunk(data, Complete) => AfterOutput(data + "\n", CatLoop(steps[1..]))
      case Chunk(data, Short(n, why)) =>
        Outcome(-1, data[..if n < |data| then n else |data|], [Diagnostic("cat", "cannot read file. " + why + "\n")])
      case ReadError(why) => Outcome(-1, "", [Diagnostic("cat", "cannot read file. " + why + "\n")])
  }

  /** What do_cat returns and prints, an open failure reported with the
      reason open failed. */
  function CatOutcome(file: string, os: Os): (r: Outcome)
    ensures os.open(file).Fail? ==> r.code == -1 && r.stdout == "" && |r.stderr| == 1
    ensures os.open(file).Fail? ==> Reports(r, "cat", os.open(file))
  {
    match os.open(file)
    case Fail(why) => Outcome(-1, "", [CatOpenDiagnostic(why)])
    case Ok => CatLoop(os.read(file))
  }

  /** The open-failure diagnostic of do_cat, carrying the given reason. */
  function CatOpenDiagnostic(why: string): string {
    Diagnostic("cat", "Cannot open file. " + why + "\n")
  }

  /** do_cat as written: on an open failure it first calls close(-1), which
      fails with EBADF, so the diagnostic carries strerror(EBADF) instead of
      the reason open failed. */
  function CatOutcomeAsWritten(file: string, os: Os): Outcome {
    match os.open(file)
    case Fail(_) => Outcome(-1, "", [CatOpenDiagnostic(os.badDescriptor)])
    case Ok => CatLoop(os.read(file))
  }

  /** The two diagnostics differ exactly when the reasons do. */
  lemma CatOpenDiagnosticInjective(a: string, b: string)
    ensures CatOpenDiagnostic(a) == CatOpenDiagnostic(b) <==> a == b
  {
    var p := "cat: Cannot open file. ";
    var da, db := CatOpenDiagnostic(a), CatOpenDiagnostic(b);
    assert da == p + a + "\n" && db == p + b + "\n";
    assert da[|p|..|da| - 1] == a;
    assert db[|p|..|db| - 1] == b;
  }

  /** As written, a failed open is always reported as a bad file
      descriptor, whatever open's own reason: the report differs from the
      corrected one whenever that reason is not EBADF's. */
  lemma CatOpenFailureReportsCloseError(file: string, os: Os)
    requires os.open(file).Fail?
    ensures CatOutcomeAsWritten(file, os) == Outcome(-1, "", [CatOpenDiagnostic(os.badDescriptor)])
    ensures CatOutcome(file, os) == Outcome(-1, "", [CatOpenDiagnostic(os.open(file).reason)])
    ensures CatOutcomeAsWritten(file, os) == CatOutcome(file, os) <==> os.open(file).reason == os.badDescriptor
  {
    CatOpenDiagnosticInjective(os.badDescriptor, os.open(file).reason);
  }

  /** One turn of the cat loop on the step at index i. */
  lemma CatLoopAt(steps: seq<ReadStep>, i: nat)
    requires i < |steps|
    ensures CatLoop(steps[i..]) ==
              match steps[i]
              case Chunk(data, Complete) => AfterOutput(data + "\n", CatLoop(steps[i + 1..]))
              case Chunk(data, Short(n, why)) =>
                Outcome(-1, data[..if n < |data| then n else |data|], [Diagnostic("cat", "cannot read file. " + why + "\n")])
              case ReadError(why) => Outcome(-1, "", [Diagnostic("cat", "cannot read file. " + why + "\n")])
  {
    assert steps[i..][0] == steps[i] && steps[i..][1..] == steps[i + 1..];
  }

  lemma AfterOutputTwice(out: string, more: string, o: Outcome)
    ensures AfterOutput(out, AfterOutput(more, o)) == AfterOutput(out + more, o)
  {
    assert out + (more + o.stdout) == (out + more) + o.stdout;
  }

  /** do_cat: open, then read chunks and copy each one followed by a newline. */
  method DoCat(file: string, os: Os) returns (r: Outcome)
    ensures r == CatOutcome(file, os)
  {
    if os.open(file).Fail? {
      return Outcome(-1, "", [CatOpenDiagnostic(os.open(file).reason)]);
    }
    var steps := os.read(file);
    var out := "";
    var i := 0;
    while i < |steps|
      invariant 0 <= i <= |steps|
      invariant CatLoop(steps) == AfterOutput(out, CatLoop(steps[i..]))
    {
      var step := steps[i];
      CatLoopAt(steps, i);
      if step.ReadError? {
        return Outcome(-1, out, [Diagnostic("cat", "cannot read file. " + step.reason + "\n")]);
      }
      if step.write.Short? {
        var n := step.write.written;
        var shown := step.data[..if n < |step.data| then n else |step.data|];
        return Outcome(-1, out + shown, [Diagnostic("cat", "cannot read file. " + step.write.reason + "\n")]);
      }
      AfterOutputTwice(out, step.data + "\n", CatLoop(steps[i + 1..]));
      out := out + (step.data + "\n");
      i := i + 1;
    }
    return Outcome(0, out, []);
  }

  /** Every read returned bytes and every write wrote them all. */
  predicate AllCopied(steps: seq<ReadStep>) {
    forall k | 0 <= k < |steps| :: steps[k].Chunk? && steps[k].write.Complete?
  }

  /** The concatenation of a sequence of strings. */
  function Concat(parts: seq<string>): string {
    if parts == [] then "" else parts[0] + Concat(parts[1..])
  }

  /** Each chunk read, followed by the newline do_cat prints after it. */
  function ChunksWithNewlines(steps: seq<ReadStep>): seq<string>
    requires AllCopied(steps)
  {
    seq(|steps|, k requires 0 <= k < |steps| => steps[k].data + "\n")
  }

  /** When nothing fails, cat prints every chunk followed by one newline,
      in order, and returns 0. */
  lemma {:induction false} CatCopiesChunks(steps: seq<ReadStep>)
    requires AllCopied(steps)
    ensures CatLoop(steps) == Outcome(0, Concat(ChunksWithNewlines(steps)), [])
  {
    if steps != [] {
      assert AllCopied(steps[1..]) by {
        forall k | 0 <= k < |steps| - 1 ensures steps[1..][k] == steps[k + 1] { }
      }
      CatCopiesChunks(steps[1..]);
      assert ChunksWithNewlines(steps)[1..] == ChunksWithNewlines(steps[1..]);
    }
  }

  /** A file shorter than one chunk comes out with exactly one newline appended. */
  lemma CatSingleChunk(data: string)
    requires 0 < |data| < BufferSize
    ensures CatLoop([Chunk(data, Complete)]) == Outcome(0, data + "\n", [])
  {
    assert [Chunk(data, Complete)][1..] == [];
  }

  /** A failure at step k stops cat: it returns -1 with one diagnostic, after
      the chunks before step k have been printed. */
  lemma {:induction false} CatStopsAtFailure(steps: seq<ReadStep>, k: nat)
    requires k < |steps| && AllCopied(steps[..k])
    requires steps[k].ReadError? || steps[k].write.Short?
    ensures CatLoop(steps).code == -1 && |CatLoop(steps).stderr| == 1
    ensures IsPrefix(Concat(ChunksWithNewlines(steps[..k])), CatLoop(steps).stdout)
  {
    if k == 0 {
      assert steps[..0] == [];
    } else {
      assert steps[1..][..k - 1] == steps[..k][1..];
      assert AllCopied(steps[1..][..k - 1]) by {
        forall j | 0 <= j < k - 1 ensures steps[1..][j] == steps[j + 1] { }
      }
      CatStopsAtFailure(steps[1..], k - 1);
      assert steps[k] == steps[1..][k - 1];
      assert ChunksWithNewlines(steps[..k])[1..] == ChunksWithNewlines(steps[1..][..k - 1]);
      assert steps[..k][0] == steps[0];
    }
  }

  // ---------------------------------------------------------------------
  // ls

  /** The readdir loop of do_ls. With reportFailure false it is the loop as
      written: a readdir that fails returns NULL, which ends the loop like
      the end of the directory, so the failure goes unreported and 0 is
      returned. With reportFailure true the failure is reported and -1
      returned, as the diagnostic in the loop intends. */
  function LsLoop(dirents: seq<DirRead>, reportFailure: bool): (r: Outcome)
    ensures r.code == 0 || r.code == -1
    ensures r.code == 0 <==> r.stderr == []
    ensures |r.stderr| <= 1
    ensures r.code == -1 ==> IsPrefix("ls: ", r.stderr[0])
  {
    if dirents == [] then Outcome(0, "", [])
    else match dirents[0]
      case Entry(name, Ok) => AfterOutput(name + "\n", LsLoop(dirents[1..], reportFailure))
      case Entry(_, Fail(why)) =>
        Outcome(-1, "", [Diagnostic("ls", "Cannot read entry from directory... " + why + "\n")])
      case ReadFailure(why) =>
        if reportFailure then Outcome(-1, "", [Diagnostic("ls", "Cannot read entry from directory... " + why + "\n")])
        else Outcome(0, "", [])
  }

  /** do_ls as written. */
  function LsOutcomeAsWritten(dir: string, os: Os): Outcome {
    match os.opendir(dir)
    case Fail(why) => Outcome(-1, "", [Diagnostic("ls", why + "\n")])
    case Ok => LsLoop(os.readdir(dir), false)
  }

  /** do_ls with a readdir failure reported. */
  function LsOutcome(dir: string, os: Os): (r: Outcome)
    ensures os.opendir(dir).Fail? ==> r.code == -1 && r.stdout == "" && |r.stderr| == 1
    ensures os.opendir(dir).Fail? ==> Reports(r, "ls", os.opendir(dir))
  {
    match os.opendir(dir)
    case Fail(why) => Outcome(-1, "", [Diagnostic("ls", why + "\n")])
    case Ok => LsLoop(os.readdir(dir), true)
  }

  /** One turn of the ls loop, failures reported, on the call at index i. */
  lemma LsLoopAt(dirents: seq<DirRead>, i: nat)
    requires i < |dirents|
    ensures LsLoop(dirents[i..], true) ==
              match dirents[i]
              case Entry(name, Ok) => AfterOutput(name + "\n", LsLoop(dirents[i + 1..], true))
              case Entry(_, Fail(why)) =>
                Outcome(-1, "", [Diagnostic("ls", "Cannot read entry from directory... " + why + "\n")])
              case ReadFailure(why) =>
                Outcome(-1, "", [Diagnostic("ls", "Cannot read entry from directory... " + why + "\n")])
  {
    assert dirents[i..][0] == dirents[i] && dirents[i..][1..] == dirents[i + 1..];
  }

  /** do_ls: open the directory, print each entry's name on its own line. */
  method DoLs(dir: string, os: Os) returns (r: Outcome)
    ensures r == LsOutcome(dir, os)
  {
    if os.opendir(dir).Fail? {
      return Outcome(-1, "", [Diagnostic("ls", os.opendir(dir).reason + "\n")]);
    }
    var dirents := os.readdir(dir);
    var out := "";
    var i := 0;
    while i < |dirents|
      invariant 0 <= i <= |dirents|
      invariant LsLoop(dirents, true) == AfterOutput(out, LsLoop(dirents[i..], true))
    {
      var d := dirents[i];
      LsLoopAt(dirents, i);
      if d.ReadFailure? {
        return Outcome(-1, out, [Diagnostic("ls", "Cannot read entry from directory... " + d.reason + "\n")]);
      }
      if d.errno.Fail? {
        return Outcome(-1, out, [Diagnostic("ls", "Cannot read entry from directory... " + d.errno.reason + "\n")]);
      }
      AfterOutputTwice(out, d.name + "\n", LsLoop(dirents[i + 1..], true));
      out := out + (d.name + "\n");
      i := i + 1;
    }
    return Outcome(0, out, []);
  }

  /** Every readdir returned an entry and errno stayed 0. */
  predicate AllListed(dirents: seq<DirRead>) {
    forall k | 0 <= k < |dirents| :: dirents[k].Entry? && dirents[k].errno.Ok?
  }

  /** The names, each on its own line. */
  function NameLines(dirents: seq<DirRead>): seq<string>
    requires AllListed(dirents)
  {
    seq(|dirents|, k requires 0 <= k < |dirents| => dirents[k].name + "\n")
  }

  /** A directory read without error is listed entry by entry, in the order
      readdir yields them, and ls returns 0. */
  lemma {:induction false} LsListsEntries(dirents: seq<DirRead>, reportFailure: bool)
    requires AllListed(dirents)
    ensures LsLoop(dirents, reportFailure) == Outcome(0, Concat(NameLines(dirents)), [])
  {
    if dirents != [] {
      assert AllListed(dirents[1..]) by {
        forall k | 0 <= k < |dirents| - 1 ensures dirents[1..][k] == dirents[k + 1] { }
      }
      LsListsEntries(dirents[1..], reportFailure);
      assert NameLines(dirents)[1..] == NameLines(dirents[1..]);
    }
  }

  /** With the failure reported, ls succeeds exactly when every readdir
      returned an entry with errno 0. */
  lemma {:induction false} LsSucceedsIffAllListed(dirents: seq<DirRead>)
    ensures LsLoop(dirents, true).code == 0 <==> AllListed(dirents)
  {
    if dirents != [] {
      LsSucceedsIffAllListed(dirents[1..]);
      if AllListed(dirents) {
        assert AllListed(dirents[1..]) by {
          forall k | 0 <= k < |dirents| - 1 ensures dirents[1..][k] == dirents[k + 1] { }
        }
      } else if dirents[0].Entry? && dirents[0].errno.Ok? {
        assert !AllListed(dirents[1..]) by {
          var k :| 0 <= k < |dirents| && !(dirents[k].Entry? && dirents[k].errno.Ok?);
          assert dirents[1..][k - 1] == dirents[k];
        }
      }
    }
  }

  /** Every entry whose errno the loop finds set comes after a failing
      readdir. */
  predicate ListedUntilFailure(dirents: seq<DirRead>) {
    forall k | 0 <= k < |dirents| && dirents[k].Entry? && dirents[k].errno.Fail? ::
      exists j | 0 <= j < k :: dirents[j].ReadFailure?
  }

  /** As written, ls returns 0 iff no entry before the first failing
      readdir has errno set: the failing readdir itself ends the loop
      unreported, like the end of the directory. */
  lemma {:induction false} LsAsWrittenSucceedsIff(dirents: seq<DirRead>)
    ensures LsLoop(dirents, false).code == 0 <==> ListedUntilFailure(dirents)
  {
    if dirents != [] {
      match dirents[0]
      case Entry(_, Ok) =>
        LsAsWrittenSucceedsIff(dirents[1..]);
        if ListedUntilFailure(dirents) {
          forall k | 0 <= k < |dirents| - 1 && dirents[1..][k].Entry? && dirents[1..][k].errno.Fail?
            ensures exists j | 0 <= j < k :: dirents[1..][j].ReadFailure?
          {
            assert dirents[1..][k] == dirents[k + 1];
            var j :| 0 <= j < k + 1 && dirents[j].ReadFailure?;
            assert dirents[1..][j - 1] == dirents[j];
          }
        } else {
          var k :| 0 <= k < |dirents| && dirents[k].Entry? && dirents[k].errno.Fail? &&
                   !(exists j | 0 <= j < k :: dirents[j].ReadFailure?);
          assert dirents[1..][k - 1] == dirents[k];
          assert !(exists j | 0 <= j < k - 1 :: dirents[1..][j].ReadFailure?) by {
            forall j | 0 <= j < k - 1 ensures !dirents[1..][j].ReadFailure? {
              assert dirents[1..][j] == dirents[j + 1];
            }
          }
        }
      case Entry(_, Fail(_)) =>
        assert !ListedUntilFailure(dirents) by {
          assert dirents[0].Entry? && dirents[0].errno.Fail?;
        }
      case ReadFailure(_) =>
        assert ListedUntilFailure(dirents) by {
          forall k | 0 <= k < |dirents| && dirents[k].Entry? && dirents[k].errno.Fail?
            ensures exists j | 0 <= j < k :: dirents[j].ReadFailure?
          {
            assert dirents[0].ReadFailure?;
          }
        }
    }
  }

  /** As written, a readdir failure after the entry "a" still yields 0
      and no diagnostic; with it reported, -1 and one diagnostic. */
  lemma LsReadFailureGoesUnreported(os: Os, dir: string)
    requires os.opendir(dir).Ok?
    requires os.readdir(dir) == [Entry("a", Ok), ReadFailure("Input/output error")]
    ensures LsOutcomeAsWritten(dir, os) == Outcome(0, "a\n", [])
    ensures LsOutcome(dir, os).code == -1 && |LsOutcome(dir, os).stderr| == 1
  {
    var dirents := os.readdir(dir);
    assert dirents[1..] == [ReadFailure("Input/output error")];
    assert LsLoop(dirents[1..], false) == Outcome(0, "", []);
    assert LsLoop(dirents[1..], true).code == -1;
  }
}
