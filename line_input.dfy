/** The line clean-up done before a command is interpreted:
    strip_trailing_whitespace (myshell.c), which zeroes, in place, the
    trailing run of whitespace of the NUL-terminated line buffer. */
module LineInput {
  import opened CLib

  /** The line with its trailing run of whitespace removed. */
  function TrimEnd(s: seq<char>): (r: seq<char>)
    ensures IsPrefix(r, s)
    ensures AllSpace(s[|r|..])
    ensures r == [] || !IsSpace(r[|r| - 1])
  {
    if s != [] && IsSpace(s[|s| - 1]) then TrimEnd(s[..|s| - 1]) else s
  }

  /** Every character up to and including the last non-whitespace one survives. */
  lemma TrimEndKeepsLastNonSpace(s: seq<char>, k: nat)
    requires k < |s| && !IsSpace(s[k])
    ensures k < |TrimEnd(s)| && TrimEnd(s)[k] == s[k]
  {
  }

  /** Stripping a stripped line changes nothing. */
  lemma TrimEndIdempotent(s: seq<char>)
    ensures TrimEnd(TrimEnd(s)) == TrimEnd(s)
  {
  }

  /** The line becomes empty exactly when it held only whitespace. */
  lemma TrimEndEmptyIffBlank(s: seq<char>)
    ensures TrimEnd(s) == [] <==> AllSpace(s)
  {
    if TrimEnd(s) == [] {
      assert s[|TrimEnd(s)|..] == s;
    } else {
      var r := TrimEnd(s);
      assert s[|r| - 1] == r[|r| - 1];
    }
  }

  /** The loop of strip_trailing_whitespace exactly as written, run on the C
      string s: true when it goes on to evaluate isspace(string[-1]), i.e.
      reads the byte before the buffer. */
  function UnguardedReadsBeforeStart(s: seq<char>): bool {
    if s == [] then true
    else if IsSpace(s[|s| - 1]) then UnguardedReadsBeforeStart(s[..|s| - 1])
    else false
  }

  /** The unguarded loop reads before the buffer exactly on the empty and the
      all-whitespace lines. */
  lemma {:induction false} UnguardedReadsBeforeStartIffBlank(s: seq<char>)
    ensures UnguardedReadsBeforeStart(s) <==> AllSpace(s)
  {
    if s != [] {
      UnguardedReadsBeforeStartIffBlank(s[..|s| - 1]);
      if IsSpace(s[|s| - 1]) {
        assert AllSpace(s) <==> AllSpace(s[..|s| - 1]) by {
          if AllSpace(s[..|s| - 1]) {
            forall k | 0 <= k < |s| ensures IsSpace(s[k]) {
              if k < |s| - 1 { assert s[k] == s[..|s| - 1][k]; }
            }
          }
        }
      }
    }
  }

  /** A bare Enter gives the buffer "\n": the line the unguarded loop mishandles. */
  lemma BareEnterReadsBeforeBuffer()
    ensures UnguardedReadsBeforeStart("\n")
  {
    assert "\n"[..0] == [];
  }

  /** strip_trailing_whitespace with the loop guarded by i >= 0: zeroes the
      trailing whitespace of the C string in the buffer and nothing else. */
  method StripTrailingWhitespace(a: array<char>)
    requires BufferSize <= a.Length
    modifies a
    ensures Stripped(old(a[..]), a[..])
    ensures CString(a[..]) == TrimEnd(CString(old(a[..])))
  {
    ghost var before := a[..];
    var n := StrNLen(a[..], BufferSize);
    ghost var t := TrimEnd(before[..n]);
    var i: int := n as int - 1;
    while i >= 0 && IsSpace(a[i])
      invariant -1 <= i < n
      invariant TrimEnd(before[..i + 1]) == t
      invariant a[..i + 1] == before[..i + 1]
      invariant forall k | i < k < n :: a[k] == Nul
      invariant a[n..] == before[n..]
    {
      assert a[i] == a[..i + 1][i] == before[..i + 1][i];
      assert before[..i + 1][..i] == before[..i];
      a[i] := Nul;
      i := i - 1;
    }
    assert before[..i + 1] == t;
    assert a[..|t|] == t;
    StrippedCString(before, a[..]);
  }

  /** The buffer after stripping: the trimmed line, then NULs up to the old
      terminator, then the old bytes. */
  predicate Stripped(before: seq<char>, after: seq<char>)
    requires BufferSize <= |before|
  {
    var n := StrNLen(before, BufferSize);
    var t := TrimEnd(before[..n]);
    |after| == |before| &&
    after[..|t|] == t &&
    (forall k | |t| <= k < n :: after[k] == Nul) &&
    after[n..] == before[n..]
  }

  /** The C string of a stripped buffer is the trimmed C string. */
  lemma StrippedCString(before: seq<char>, after: seq<char>)
    requires BufferSize <= |before| && Stripped(before, after)
    ensures CString(after) == TrimEnd(CString(before))
  {
    var n := StrNLen(before, BufferSize);
    var t := TrimEnd(before[..n]);
    assert forall k | 0 <= k < |t| :: after[k] != Nul by {
      assert forall k | 0 <= k < |t| :: after[k] == after[..|t|][k] == before[..n][k];
    }
    assert |t| < BufferSize ==> after[|t|] == Nul by {
      if |t| == n && n < BufferSize { assert after[n] == after[n..][0] == before[n]; }
    }
    StrNLenIs(after, BufferSize, |t|);
  }
}
