/** The few C library routines the shell's line handling relies on:
    isspace (C locale), strnlen, strncmp and the sscanf pattern "V %s".
    A string here is the content of a C string, i.e. the characters before
    its terminating NUL. */
module CLib {

  datatype Option<T> = None | Some(value: T)

  /** BUFFER_SIZE and MAX_FILENAME_LENGTH of myshell.c */
  const BufferSize: nat := 256
  const MaxFilenameLength: nat := 256

  const Nul: char := '\0'

  /** isspace in the "C" locale: space, \t, \n, \v, \f, \r */
  predicate IsSpace(c: char) {
    c == ' ' || c == '\t' || c == '\n' || c == '\U{0B}' || c == '\U{0C}' || c == '\r'
  }

  predicate AllSpace(s: seq<char>) {
    forall k | 0 <= k < |s| :: IsSpace(s[k])
  }

  predicate NoSpace(s: seq<char>) {
    forall k | 0 <= k < |s| :: !IsSpace(s[k])
  }

  predicate HasNonSpace(s: seq<char>) {
    exists k | 0 <= k < |s| :: !IsSpace(s[k])
  }

  /** The characters of s can all stand inside a C string. */
  predicate NoNul(s: seq<char>) {
    forall k | 0 <= k < |s| :: s[k] != Nul
  }

  predicate IsPrefix(p: seq<char>, s: seq<char>) {
    |p| <= |s| && s[..|p|] == p
  }

  /** strnlen(s, n) on a buffer of at least n characters: the index of the
      first NUL, or n when there is none among the first n. */
  function StrNLen(s: seq<char>, n: nat): (r: nat)
    requires n <= |s|
    ensures r <= n
    ensures forall k | 0 <= k < r :: s[k] != Nul
    ensures r < n ==> s[r] == Nul
  {
    if n == 0 || s[0] == Nul then 0 else 1 + StrNLen(s[1..], n - 1)
  }

  /** strnlen is determined by where the first NUL is. */
  lemma StrNLenIs(s: seq<char>, n: nat, r: nat)
    requires r <= n <= |s|
    requires forall k | 0 <= k < r :: s[k] != Nul
    requires r < n ==> s[r] == Nul
    ensures StrNLen(s, n) == r
  {
  }

  /** The C string held in a line buffer: its characters before the first NUL. */
  function CString(buf: seq<char>): (s: seq<char>)
    requires BufferSize <= |buf|
    ensures NoNul(s) && IsPrefix(s, buf)
    ensures |s| < BufferSize ==> buf[|s|] == Nul
  {
    buf[..StrNLen(buf, BufferSize)]
  }

  /** The character strncmp sees at index i of a C string: past its end, the terminator. */
  function CharAt(s: seq<char>, i: nat): char {
    if i < |s| then s[i] else Nul
  }

  /** strncmp(a, b, n) == 0: the two C strings agree on their first n
      characters, comparison stopping at the first terminator. */
  predicate StrNEqual(a: seq<char>, b: seq<char>, n: nat) {
    if n == 0 then true
    else if CharAt(a, 0) != CharAt(b, 0) then false
    else if CharAt(a, 0) == Nul then true
    else StrNEqual(a[1..], b[1..], n - 1)
  }

  /** What strncmp(a, lit, n) == 0 means when lit is shorter than n: a is lit,
      or a has lit followed by a NUL as its start. */
  lemma {:induction false} StrNEqualMeaning(a: seq<char>, lit: seq<char>, n: nat)
    requires NoNul(lit) && |lit| < n
    ensures StrNEqual(a, lit, n) <==>
              (a == lit || (|a| > |lit| && a[..|lit|] == lit && a[|lit|] == Nul))
  {
    if lit == [] {
      assert StrNEqual(a, lit, n) <==> CharAt(a, 0) == Nul;
    } else if a != [] && a[0] == lit[0] {
      StrNEqualMeaning(a[1..], lit[1..], n - 1);
      assert a == [a[0]] + a[1..];
      assert lit == [lit[0]] + lit[1..];
      if |a| > |lit| {
        assert a[..|lit|] == [a[0]] + a[1..][..|lit| - 1];
      }
    } else {
      assert !StrNEqual(a, lit, n);
    }
  }

  /** With the lines the shell compares (C string contents, so without NUL),
      strncmp(a, lit, BUFFER_SIZE) == 0 for a literal lit is plain equality. */
  lemma ExactMatchIsEquality(a: seq<char>, lit: seq<char>, n: nat)
    requires NoNul(a) && NoNul(lit) && |lit| < n
    ensures StrNEqual(a, lit, n) <==> a == lit
  {
    StrNEqualMeaning(a, lit, n);
  }

  /** The whitespace directive of a scanf format (and the leading skip of %s):
      drops the leading run of whitespace. */
  function SkipSpaces(s: seq<char>): (r: seq<char>)
    ensures |r| <= |s| && r == s[|s| - |r|..]
    ensures AllSpace(s[..|s| - |r|])
    ensures r == [] || !IsSpace(r[0])
  {
    if s != [] && IsSpace(s[0]) then SkipSpaces(s[1..]) else s
  }

  /** The characters a %s conversion stores: the maximal run of
      non-whitespace characters at the start of s. */
  function Token(s: seq<char>): (t: seq<char>)
    ensures |t| <= |s| && t == s[..|t|]
    ensures NoSpace(t)
    ensures |t| == |s| || IsSpace(s[|t|])
  {
    if s != [] && !IsSpace(s[0]) then [s[0]] + Token(s[1..]) else []
  }

  /** t is a %s token of line starting at index i, reached from index from over whitespace only. */
  predicate IsTokenAt(line: seq<char>, from: nat, i: nat, t: seq<char>) {
    from <= i && i + |t| <= |line| && AllSpace(line[from..i]) &&
    line[i..i + |t|] == t && |t| > 0 && NoSpace(t) &&
    (i + |t| == |line| || IsSpace(line[i + |t|]))
  }

  /** The " %s" part of a "V %s" format applied to what follows V: a
      whitespace directive, then a %s conversion, which needs at least one
      non-whitespace character. */
  function ScanConversion(s: seq<char>): Option<seq<char>> {
    var rest := SkipSpaces(s);
    if rest == [] then None else Some(Token(rest))
  }

  /** sscanf(line, "V %s", filename) == 1, with the stored token: the
      ordinary characters of V are matched one by one, then comes the
      conversion. None when the count is not 1 (a literal mismatch, or no
      token left: 0 or EOF). */
  function ScanVerb(line: seq<char>, verb: seq<char>): Option<seq<char>> {
    if verb == [] then ScanConversion(line)
    else if line != [] && line[0] == verb[0] then ScanVerb(line[1..], verb[1..])
    else None
  }

  /** Matching the ordinary characters one by one amounts to V being a prefix of the line. */
  lemma {:induction false} ScanVerbLiteral(line: seq<char>, verb: seq<char>)
    ensures ScanVerb(line, verb) ==
              if IsPrefix(verb, line) then ScanConversion(line[|verb|..]) else None
  {
    if verb == [] {
      assert line[0..] == line;
    } else if line != [] && line[0] == verb[0] {
      ScanVerbLiteral(line[1..], verb[1..]);
      if |verb| <= |line| {
        assert line[1..][|verb| - 1..] == line[|verb|..];
        assert line[..|verb|] == [line[0]] + line[1..][..|verb| - 1];
        assert verb == [verb[0]] + verb[1..];
      }
    } else if line != [] {
      assert |verb| <= |line| ==> line[..|verb|][0] == line[0];
    }
  }

  /** A "V %s" match needs V at the start of the line. */
  lemma ScanPrefix(line: seq<char>, verb: seq<char>)
    ensures ScanVerb(line, verb).Some? ==> IsPrefix(verb, line)
  {
    ScanVerbLiteral(line, verb);
  }

  /** The verb alone leaves nothing for the conversion. */
  lemma ScanOfBareVerb(verb: seq<char>)
    ensures ScanVerb(verb, verb) == None
  {
    ScanVerbLiteral(verb, verb);
    assert verb[|verb|..] == [];
  }

  /** A stored token is never empty. */
  lemma ScanNonEmpty(line: seq<char>, verb: seq<char>)
    ensures ScanVerb(line, verb).Some? ==> ScanVerb(line, verb).value != []
  {
    ScanVerbMeaning(line, verb);
  }

  /** The conversion succeeds iff a non-whitespace character is left, and
      then stores the maximal token after the leading whitespace. */
  lemma ScanConversionMeaning(s: seq<char>)
    ensures ScanConversion(s).Some? <==> HasNonSpace(s)
    ensures ScanConversion(s).Some? ==> exists i :: IsTokenAt(s, 0, i, ScanConversion(s).value)
  {
    var rest := SkipSpaces(s);
    var i := |s| - |rest|;
    if rest == [] {
      assert AllSpace(s) by { assert s[..i] == s; }
    } else {
      var t := Token(rest);
      assert !IsSpace(s[i]) by { assert s[i] == rest[0]; }
      assert s[i..i + |t|] == rest[..|t|];
      assert IsTokenAt(s, 0, i, t);
    }
  }

  /** A token found in a suffix of the line is a token of the line. */
  lemma TokenShift(line: seq<char>, from: nat, i: nat, t: seq<char>)
    requires from <= |line| && IsTokenAt(line[from..], 0, i, t)
    ensures IsTokenAt(line, from, from + i, t)
  {
    assert line[from..][0..i] == line[from..from + i];
    assert line[from..][i..i + |t|] == line[from + i..from + i + |t|];
    if from + i + |t| < |line| {
      assert line[from..][i + |t|] == line[from + i + |t|];
    }
  }

  /** The pattern rule: "V %s" matches iff the line starts with V and a
      non-whitespace character follows somewhere after it; the stored
      argument is the maximal token that follows V and optional whitespace. */
  lemma ScanVerbMeaning(line: seq<char>, verb: seq<char>)
    ensures ScanVerb(line, verb).Some? <==> IsPrefix(verb, line) && HasNonSpace(line[|verb|..])
    ensures ScanVerb(line, verb).Some? ==> exists i :: IsTokenAt(line, |verb|, i, ScanVerb(line, verb).value)
  {
    ScanVerbLiteral(line, verb);
    if IsPrefix(verb, line) {
      ScanConversionMeaning(line[|verb|..]);
      if ScanVerb(line, verb).Some? {
        var i :| IsTokenAt(line[|verb|..], 0, i, ScanVerb(line, verb).value);
        TokenShift(line, |verb|, i, ScanVerb(line, verb).value);
      }
    }
  }

  /** The token of a "V %s" match is determined: at most one index and
      token satisfy IsTokenAt from a given start. */
  lemma TokenIsUnique(line: seq<char>, from: nat, i: nat, t: seq<char>, j: nat, u: seq<char>)
    requires IsTokenAt(line, from, i, t) && IsTokenAt(line, from, j, u)
    ensures i == j && t == u
  {
    assert line[i] == line[i..i + |t|][0] && line[j] == line[j..j + |u|][0];
    assert forall k | from <= k < i :: IsSpace(line[k]) by {
      forall k | from <= k < i ensures IsSpace(line[k]) { assert line[k] == line[from..i][k - from]; }
    }
    assert forall k | from <= k < j :: IsSpace(line[k]) by {
      forall k | from <= k < j ensures IsSpace(line[k]) { assert line[k] == line[from..j][k - from]; }
    }
    assert forall k | i <= k < i + |t| :: !IsSpace(line[k]) by {
      forall k | i <= k < i + |t| ensures !IsSpace(line[k]) { assert line[k] == line[i..i + |t|][k - i]; }
    }
    assert forall k | j <= k < j + |u| :: !IsSpace(line[k]) by {
      forall k | j <= k < j + |u| ensures !IsSpace(line[k]) { assert line[k] == line[j..j + |u|][k - j]; }
    }
  }

  /** A token taken from a line that fits the 256-byte line buffer also fits
      the 256-byte filename buffer together with its terminator. */
  lemma TokenFitsFilename(line: seq<char>, from: nat, i: nat, t: seq<char>)
    requires |line| < BufferSize
    requires IsTokenAt(line, from, i, t)
    ensures |t| < MaxFilenameLength
  {
  }
}
