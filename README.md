# myshell: a model of the command loop of a minimal shell

myshell reads one line at a time into a 256-byte buffer. It strips the
trailing whitespace of the line. It then recognises one of a fixed set of
built-in commands (cd, exit, cat, stat, mkdir, rmdir, rm, ls, pwd, q) by
trying `sscanf` patterns of the form `"V %s"` and exact `strncmp`
comparisons in a fixed order. The first match wins. The matching built-in
runs against the file system and reports through its return code and
what it writes to standard output and standard error.

The model has five modules, one per file:

- `CLib` (`clib.dfy`) models the C library calls the line handling relies
  on, with their C semantics:
  - `isspace` in the C locale;
  - `strnlen` on the buffer;
  - `strncmp(…, BUFFER_SIZE) == 0`, comparison stopping at the terminator;
  - `sscanf(line, "V %s", filename) == 1`, which matches the ordinary
    characters of V one by one, then skips optional whitespace, then needs
    a non-empty maximal token.

  The lemmas turn the literal definitions into plain statements. The scan
  succeeds exactly when the line starts with V and a non-whitespace
  character follows. The token it stores is unique. On C string contents,
  `strncmp == 0` is plain equality.
- `LineInput` (`line_input.dfy`) holds `strip_trailing_whitespace`. It is
  an in-place method on the line buffer (`array<char>`), proved against
  the function `TrimEnd`. It also models the loop as written, which has
  no lower bound.
- `Dispatcher` (`dispatcher.dfy`) maps the trimmed line to a `Command`.
  `MainDispatch` covers the cd/exit special cases of `main`, and
  `ExecuteCommand` the first-match chain of `execute_command`. For each
  command there is a route lemma saying exactly which lines reach it.
  There is also a round trip: rendering a command as a line and
  dispatching that line gives the command back.
- `Builtins` (`builtins.dfy`) holds the `do_*` built-ins over an abstract
  operating system, `Os`. Each system call is a function from its
  argument to its result, and every `strerror(errno)` text is an opaque
  reason string. Three reasons are not those of the call just made:
  - `close(-1)` in do_cat leaves EBADF; `Os.badDescriptor` is its text.
  - A short write that returns a count of 0 or more sets no errno, so cat
    reports whatever errno held; `Short` carries that text.
  - The errno do_ls tests inside its loop is whatever the calls before it
    left; `Entry` carries it as the loop finds it.
  - `do_cat` and `do_ls` loop over the reads the OS yields. They are
    methods with loop invariants, proved equal to the functions
    `CatOutcome` and `LsOutcome`.
  - The other built-ins are functions.
- `Shell` (`shell.dfy`) composes one turn of `main`'s loop: strip the
  line, dispatch it, run the command. It states the result-code
  conventions across all commands.

The source has two globals, the line buffer and the filename buffer.
Commands read from the trimmed C string. Arguments are the scanned
tokens, so the filename buffer is modelled as the value it holds when
the built-in is called.

The model follows the code as written, including these behaviours:

- Commands are not checked for arity. Extra tokens are ignored (`cat a b`
  is `cat a`). No space is needed after the verb (`catfoo` is `cat foo`).
  A bare `rmdir` reaches `rm` with the argument `dir`. Every line that
  starts with `q` and has a non-space token after it quits (`quit`).
- `pwd` returns 1 even when `getcwd` fails.
- The empty line returns -1 without any diagnostic.

## Model

| member | source | states |
|---|---|---|
| CLib.IsSpace | myshell.c:56 | definition: isspace in the C locale, the six characters space, \t, \n, \v, \f, \r |
| CLib.StrNEqual | myshell.c:94 | definition: strncmp(a, b, n) == 0, comparing at most n characters and stopping at a common terminator, the end of a string read as NUL |
| CLib.ScanConversion | myshell.c:273 | definition: the " %s" part of the pattern, skipping whitespace and storing the token, failing at the end of input |
| CLib.ScanVerb | myshell.c:273 | definition: sscanf(line, "V %s") == 1, matching the ordinary characters of V one by one before the conversion |
| CLib.StrNLen | myshell.c:54 | strnlen: the index of the first NUL within the bound, or the bound itself |
| CLib.CString | myshell.c:32 | the C string in the line buffer has no NUL, is a prefix of the buffer, and is followed by a NUL when shorter than the buffer |
| CLib.StrNEqualMeaning | myshell.c:94 | strncmp(a, lit, 256) == 0 holds iff a is lit, or a starts with lit followed by a NUL |
| CLib.ExactMatchIsEquality | myshell.c:94 | on C string contents, strncmp(line, lit, BUFFER_SIZE) == 0 is equality with lit |
| CLib.SkipSpaces | myshell.c:273 | the whitespace directive drops exactly the leading run of whitespace |
| CLib.Token | myshell.c:273 | %s stores the maximal run of non-whitespace characters at the start |
| CLib.ScanVerbLiteral | myshell.c:273 | matching the ordinary characters of "V %s" one by one is the same as V being a prefix of the line |
| CLib.ScanPrefix | myshell.c:273 | a "V %s" match needs V at the start of the line |
| CLib.ScanOfBareVerb | myshell.c:273 | the verb alone leaves nothing for %s, so the scan fails |
| CLib.ScanNonEmpty | myshell.c:273 | a stored token is never empty |
| CLib.ScanConversionMeaning | myshell.c:273 | " %s" succeeds iff some non-whitespace character remains, and stores the token after the whitespace |
| CLib.ScanVerbMeaning | myshell.c:273-289 | sscanf(line, "V %s") == 1 iff the line starts with V and a non-whitespace character follows; the stored argument is a maximal token after V |
| CLib.TokenIsUnique | myshell.c:273-289 | the token a scan stores, and where it starts, are determined by the line |
| CLib.TokenFitsFilename | myshell.c:30-33 | a token from a line shorter than BUFFER_SIZE fits MAX_FILENAME_LENGTH together with its terminator |
| LineInput.TrimEnd | myshell.c:53-58 | the trimmed line is a prefix of the line, only whitespace is dropped, and it does not end in whitespace |
| LineInput.TrimEndKeepsLastNonSpace | myshell.c:56-57 | every character up to the last non-whitespace one survives stripping |
| LineInput.TrimEndIdempotent | myshell.c:53-58 | stripping twice is stripping once |
| LineInput.TrimEndEmptyIffBlank | myshell.c:53-58 | the stripped line is empty iff the line was all whitespace |
| LineInput.UnguardedReadsBeforeStart | myshell.c:54-57 | definition: whether the loop as written, which has no i >= 0 test, reaches string[-1] |
| LineInput.UnguardedReadsBeforeStartIffBlank | myshell.c:54-57 | the loop as written reads string[-1] exactly on the empty and all-whitespace lines |
| LineInput.BareEnterReadsBeforeBuffer | myshell.c:54-57 | the line "\n" from a bare Enter reaches string[-1] |
| LineInput.StrippedCString | myshell.c:53-58 | once the trailing whitespace is zeroed, the C string in the buffer is the trimmed line |
| LineInput.StripTrailingWhitespace | myshell.c:53-58 | the buffer keeps the trimmed line, the trailing whitespace of the C string becomes NUL, and bytes past the old terminator are unchanged (Stripped); the new C string is TrimEnd of the old one |
| Dispatcher.MainDispatch | myshell.c:93-99 | definition: cd and exit as main tests them, then execute_command |
| Dispatcher.ExecuteCommand | myshell.c:272-315 | definition: the first-match chain of execute_command, from cat to q, then the empty line and the unknown one |
| Dispatcher.CdRoute | myshell.c:93-95 | do_cd runs iff the line starts with "cd" and is exactly "cd" or has a token after it; the argument is that token, or "" for exactly "cd" |
| Dispatcher.ExitRoute | myshell.c:96-97 | only the exact line "exit" exits from main |
| Dispatcher.ExecuteNeverExitsOrCds | myshell.c:272-315 | execute_command never yields cd or exit |
| Dispatcher.CatRoute | myshell.c:273-275 | do_cat runs on x iff "cat %s" stores x |
| Dispatcher.StatRoute | myshell.c:277-279 | do_stat runs on x iff "stat %s" stores x |
| Dispatcher.MkdirRoute | myshell.c:281-283 | do_mkdir runs on x iff "mkdir %s" stores x |
| Dispatcher.RmdirRoute | myshell.c:285-287 | do_rmdir runs on x iff "rmdir %s" stores x |
| Dispatcher.RmRoute | myshell.c:285-291 | do_rm runs on x iff "rm %s" stores x and "rmdir %s", tried before it, fails |
| Dispatcher.LsLinesList | myshell.c:293-299 | a line accepted by the ls test reaches do_ls with its token, or with "." when no token was stored |
| Dispatcher.LsMissesEarlierPatterns | myshell.c:93-291 | a line starting with ls matches none of the patterns tried before ls |
| Dispatcher.LsRoute | myshell.c:293-299 | do_ls runs on x iff "ls %s" stores x, or the line is exactly "ls" and x is "." |
| Dispatcher.PwdMissesEarlierPatterns | myshell.c:93-299 | a line starting with pwd matches none of the patterns tried before pwd |
| Dispatcher.PwdRoute | myshell.c:301-303 | do_pwd runs iff the line is exactly "pwd" |
| Dispatcher.QuitRoute | myshell.c:305-308 | do_q runs iff the line is exactly "q" or "q %s" matches |
| Dispatcher.QMissesEarlierPatterns | myshell.c:93-303 | a line starting with q matches none of the patterns tried before q |
| Dispatcher.QLinesQuit | myshell.c:305-308 | no earlier pattern takes a line that "q" accepts |
| Dispatcher.TrimmedQQuits | myshell.c:305-308 | every trimmed line starting with q quits |
| Dispatcher.UnmatchedLines | myshell.c:310-314 | only the empty line is silent; an unmatched non-empty line is reported whole |
| Dispatcher.DispatchWellFormed | myshell.c:93-99 | every recognised command carries a non-empty whitespace-free argument, or an empty one for bare cd |
| Dispatcher.DispatchRender | myshell.c:93-99 | dispatching the canonical line of a well-formed command gives that command |
| Dispatcher.LsArgumentRoute | myshell.c:293-299 | "ls " and a token reaches do_ls with that token |
| Dispatcher.DispatchNormalises | myshell.c:93-99 | a recognised line and the canonical line of its command dispatch the same way |
| Dispatcher.CatWithoutSpace | myshell.c:273 | "catfoo" runs cat on "foo" |
| Dispatcher.CatTakesFirstToken | myshell.c:273 | "cat a b" runs cat on "a" |
| Dispatcher.BareRmdirRemovesDir | myshell.c:285-291 | a bare "rmdir" runs rm on "dir" |
| Dispatcher.RmdirBeforeRm | myshell.c:285-287 | "rmdir x" runs rmdir on "x" |
| Dispatcher.QuitWordQuits | myshell.c:305-308 | "quit" quits |
| Dispatcher.BareLsListsDot | myshell.c:293-297 | a bare "ls" lists "." |
| Dispatcher.BareCdGoesHome | myshell.c:93-95 | a bare "cd" calls do_cd with an empty argument |
| Dispatcher.ScanIs | myshell.c:273-289 | a token found after V is exactly what "V %s" stores |
| Dispatcher.ExitWithMoreIsUnknown | myshell.c:96-99 | a line that starts with "exit" but is not exactly "exit" matches no pattern and is reported as unknown |
| Dispatcher.ExitMissesOtherPatterns | myshell.c:93-308 | a line starting with exit matches no pattern of another command |
| Dispatcher.ExitNowIsUnknown | myshell.c:96-99 | "exit now" does not exit and is reported as unknown |
| Dispatcher.MkdirWithoutArgumentIsUnknown | myshell.c:281-283 | "mkdir" followed by nothing but whitespace matches no pattern and is reported as unknown |
| Dispatcher.MkdirMissesOtherPatterns | myshell.c:93-308 | a line starting with mkdir matches no pattern of another command |
| Dispatcher.BareMkdirIsUnknown | myshell.c:281-283 | a bare "mkdir" is reported as unknown |
| Builtins.CdTarget | myshell.c:116-117 | definition: the empty argument stands for the home directory, any other is used as given |
| Builtins.StatHeading | myshell.c:245 | definition: the heading do_stat prints, the file name quoted after STATS FOR |
| Builtins.Diagnostic | myshell.c:121 | every diagnostic starts with the command's name and ": " |
| Builtins.DoCd | myshell.c:112-126 | cd returns 0 when chdir on the argument (or the home directory for "") succeeds, otherwise -1 with one "cd: " line; it prints nothing to stdout |
| Builtins.DoMkdir | myshell.c:184-191 | mkdir returns 0 or -1 with one "mkdir: " line, following mkdir(2) |
| Builtins.DoRmdir | myshell.c:198-204 | rmdir returns 0 or -1 with one "rmdir: " line, following rmdir(2) |
| Builtins.DoRm | myshell.c:224-231 | rm returns 0 or -1 with one "rm: " line, following unlink(2) |
| Builtins.DoStat | myshell.c:238-260 | stat follows stat(2); on success stdout starts with the STATS FOR heading of the file, on failure it is empty |
| Builtins.DoPwd | myshell.c:210-217 | pwd always returns 1; it reports one line exactly when getcwd fails, and prints the path when getcwd succeeds |
| Builtins.CatLoop | myshell.c:167-176 | the cat loop returns 0 with no diagnostic, or -1 with exactly one "cat: " line |
| Builtins.CatOutcome | myshell.c:160-166 | corrected: a file that cannot be opened gives -1, no output and one diagnostic, headed "cat: ", carrying the reason open failed |
| Builtins.CatOutcomeAsWritten | myshell.c:160-177 | as written: a failing open is reported with strerror(EBADF), the errno close(-1) leaves; otherwise the read loop |
| Builtins.CatOpenDiagnosticInjective | myshell.c:164 | the open-failure diagnostic determines the reason it carries |
| Builtins.CatOpenFailureReportsCloseError | myshell.c:162-165 | as written, every open failure reports the close(-1) error; corrected, open's own reason; the two agree iff the reasons are the same text |
| Builtins.CatLoopAt | myshell.c:167-174 | proof step for DoCat: CatLoop unfolded once at index i |
| Builtins.DoCat | myshell.c:158-177 | the loop computes exactly CatOutcome |
| Builtins.CatCopiesChunks | myshell.c:167-174 | with no failure, cat prints every chunk followed by one newline, in order, and returns 0 |
| Builtins.CatSingleChunk | myshell.c:167-174 | a file shorter than one chunk is printed with one newline appended |
| Builtins.CatStopsAtFailure | myshell.c:168-171 | a failing read or short write stops cat with -1 and one diagnostic, after the chunks before it were printed |
| Builtins.LsLoop | myshell.c:140-150 | the readdir loop returns 0 with no diagnostic, or -1 with exactly one "ls: " line |
| Builtins.LsOutcome | myshell.c:135-139 | a directory that cannot be opened gives -1, no output and one diagnostic headed "ls: " |
| Builtins.LsLoopAt | myshell.c:141-147 | proof step for DoLs: LsLoop, failures reported, unfolded once at index i |
| Builtins.LsOutcomeAsWritten | myshell.c:133-151 | definition: do_ls as written, the readdir loop ending on the first NULL without looking at errno |
| Builtins.DoLs | myshell.c:133-151 | the loop computes exactly LsOutcome, the do_ls that reports a failing readdir |
| Builtins.LsListsEntries | myshell.c:141-142 | a directory read without error is listed one name per line, in readdir order, with return 0 |
| Builtins.LsSucceedsIffAllListed | myshell.c:141-150 | with failures reported, ls returns 0 iff every readdir gave an entry with errno 0 |
| Builtins.LsAsWrittenSucceedsIff | myshell.c:141-150 | as written, ls returns 0 iff every entry found with errno set comes after a failing readdir |
| Builtins.LsReadFailureGoesUnreported | myshell.c:141-150 | as written, a readdir failure after "a" gives 0, "a\n" and no diagnostic; corrected, -1 and one diagnostic |
| Shell.UnknownDiagnostic | myshell.c:312 | definition: "myshell: ", the line, then the fixed text ": No such file or directory" and a newline |
| Shell.Run | myshell.c:272-308 | definition: each command runs its built-in (cat and ls corrected); exit and q terminate |
| Shell.RunLine | myshell.c:93-99 | definition: dispatch the line with MainDispatch, then Run |
| Shell.HandleLine | myshell.c:83-99 | one turn of main on a filled buffer: the buffer is left as Stripped says (the guarded strip), and the effect is RunLine of the trimmed C string, with the corrected cat and ls |
| Shell.RunTerminatesIff | myshell.c:96-97 | of all commands, only exit and q (do_q, myshell.c:263-265) end the process |
| Shell.RunCodes | myshell.c:110-314 | per command: codes are 0, -1 or 1, 1 exactly for pwd, at most one diagnostic, and one exactly on -1 for every command but pwd and the empty line |
| Shell.UnknownDiagnosticHoldsLine | myshell.c:312 | the unknown-command diagnostic starts with "myshell: " and the whole line |
| Shell.TerminatesOnlyOnExitOrQ | myshell.c:96-97 | the process ends exactly on "exit", on "q" and on every "q %s" match |
| Shell.ResultCodes | myshell.c:268-314 | codes are 0, -1 or 1; 1 exactly for pwd; every other non-empty line reports one line of stderr exactly when it returns -1 |
| Shell.UnknownLineReported | myshell.c:310-314 | an unknown line gives -1, no output and exactly one diagnostic, which holds the whole line after "myshell: " |
| Shell.BlankLineIsSilent | myshell.c:310-314 | a line of whitespace only, once stripped, gives -1 and no output of any kind |
| Shell.BuiltinsFollowTheirCall | myshell.c:272-291 | cd, stat, mkdir, rmdir and rm report exactly the result of their system call on the scanned argument |
| Shell.BareLsListsCurrentDirectory | myshell.c:293-298 | "ls" lists the current directory "." |
| Shell.BareCdGoesToHome | myshell.c:112-120 | "cd" changes to the home directory and succeeds iff chdir on it does |

## Left out

- The read loop of `main`, the prompt (`display_prompt`) and `fgets` are not modelled. `Shell.HandleLine` starts from a buffer fgets has filled; what fgets does at end of input is outside the model.
- File-system effects are not modelled: every system call is an uninterpreted function of its argument in `Os`. strerror texts are opaque reason strings.
- Closing of file and directory handles (`close`, `closedir`) is not tracked. The model has no handle state, so it cannot state that handles are released.
- `getpwuid` returning NULL is not modelled; the home directory is a field of `Os`.
- The `strncpy` of a home path into the 256-byte filename buffer is modelled as the home path itself. Truncation of a home path of 256 or more bytes is not captured.
- The metadata lines of `do_stat` are one opaque string per file (`statReport`), after the modelled heading.
- `exit(EXIT_SUCCESS)` and `do_q` are modelled as the effect `Terminate`. The process exit itself is not modelled.
- Builtins.DoPwd: when getcwd fails, the source prints an uninitialised array. The model represents its contents as an arbitrary string (`leftover`) and states nothing about them.
- Output interleaving is not modelled. cat writes its chunks with `write(1, …)`, which bypasses stdio, and its newlines with `printf`. On a terminal stdout is line buffered, so each newline goes out at once and program order is kept. When stdout is a file or a pipe it is fully buffered, and the newlines can come out after later chunks. The model assumes program order.
- do_cat reads into the same global buffer that holds the command line. This aliasing is not modelled, because the line is no longer used.
- Shell.HandleLine: the turn runs the corrected strip (guarded by `i >= 0`), the corrected do_cat (open's own reason reported) and the corrected do_ls (a failing readdir reported). The code as written is modelled beside them, by LineInput.UnguardedReadsBeforeStart, Builtins.CatOutcomeAsWritten and Builtins.LsOutcomeAsWritten; Shell.Run likewise uses CatOutcome and LsOutcome.
- The OS may yield reads that `read(2)` never returns: an empty chunk (a real read of 0 bytes ends the loop), a chunk longer than BUFFER_SIZE, or a short write of at least the chunk's length. The lemmas about cat hold for every sequence of reads, these included.
- Bytes are modelled as `char`, one per byte; a file's contents are a string.
- The 256-byte bound on a line is what fgets guarantees. `Dispatcher` works on lines of any length (CLib.TokenFitsFilename states the bound for lines that fit).
- The return value of `execute_command` and `do_cd` is ignored by `main`. The model returns it in `Outcome.code` without a consumer.

## Findings

| source | as written | input that shows it | evidently intended | confidence | as-written member | corrected member |
|---|---|---|---|---|---|---|
| myshell.c:54-57 | the stripping loop has no lower bound on `i`, so on a line that is empty or all whitespace it evaluates `isspace(string[-1])` and, if that byte is whitespace, writes before the buffer | a bare Enter, i.e. the buffer "\n" | stop at the start of the buffer (`i >= 0`) | not executed | LineInput.BareEnterReadsBeforeBuffer | LineInput.StripTrailingWhitespace |
| myshell.c:162-165 | when open fails, do_cat calls `close(fd)` with fd = -1 before printing `strerror(errno)`; close fails with EBADF and overwrites errno, so every open failure is reported as "Bad file descriptor" | `cat nosuch`, where open fails with ENOENT | report the reason open failed, e.g. by saving errno first or not closing an invalid descriptor | not executed | Builtins.CatOpenFailureReportsCloseError | Builtins.CatOutcome |
| myshell.c:141-147 | the errno check sits inside `while ((d = readdir(dir)) != NULL)`, but a failing readdir returns NULL, which ends the loop like the end of the directory; do_ls then returns 0 with no diagnostic | opendir succeeds, readdir yields the entry "a", then fails with an I/O error | report the failure and return -1, as the diagnostic in the loop intends | not executed | Builtins.LsReadFailureGoesUnreported | Builtins.LsSucceedsIffAllListed |
