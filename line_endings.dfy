/** Line-ending normalisation applied before a recorded body is compared with
    its file (main.go:133-135). */
module LineEndings {

  /** Go's `strings.Replace(s, "\r\n", "\r", -1)`: scanning left to right,
      every non-overlapping "\r\n" becomes a single "\r". The result is shorter
      by exactly the number of "\r\n" occurrences. */
  function Normalize(s: string): (r: string)
    ensures |r| == |s| - CrlfCount(s)
  {
    if |s| < 2 then s
    else if s[0] == '\r' && s[1] == '\n' then
      assert s[1..][1..] == s[2..];
      "\r" + Normalize(s[2..])
    else [s[0]] + Normalize(s[1..])
  }

  /** Number of positions where "\r\n" starts, counted one position at a time. */
  function CrlfCount(s: string): nat
  {
    if |s| < 2 then 0
    else (if s[0] == '\r' && s[1] == '\n' then 1 else 0) + CrlfCount(s[1..])
  }

  predicate HasCrlf(s: string)
  {
    exists i :: 0 <= i < |s| - 1 && s[i] == '\r' && s[i + 1] == '\n'
  }

  lemma {:induction false} CrlfCountZero(s: string)
    ensures CrlfCount(s) == 0 <==> !HasCrlf(s)
  {
    if |s| >= 2 {
      CrlfCountZero(s[1..]);
      if HasCrlf(s[1..]) {
        var i :| 0 <= i < |s[1..]| - 1 && s[1..][i] == '\r' && s[1..][i + 1] == '\n';
        assert s[i + 1] == '\r' && s[i + 2] == '\n';
      }
      if HasCrlf(s) && !(s[0] == '\r' && s[1] == '\n') {
        var i :| 0 <= i < |s| - 1 && s[i] == '\r' && s[i + 1] == '\n';
        assert s[1..][i - 1] == '\r' && s[1..][i] == '\n';
      }
    }
  }

  /** A body is left unchanged exactly when it holds no "\r\n". */
  lemma {:induction false} NormalizeFixedIff(s: string)
    ensures Normalize(s) == s <==> !HasCrlf(s)
  {
    CrlfCountZero(s);
    if !HasCrlf(s) && |s| >= 2 {
      assert !(s[0] == '\r' && s[1] == '\n');
      CrlfCountZero(s[1..]);
      NormalizeFixedIff(s[1..]);
      assert s == [s[0]] + s[1..];
    }
  }

  /** Normalising is not idempotent: a "\r\n" can be formed by the replacement itself. */
  lemma NormalizeNotIdempotent()
    ensures Normalize("\r\n\n") == "\r\n"
    ensures Normalize(Normalize("\r\n\n")) == "\r"
  {
    assert "\r\n\n"[2..] == "\n";
    assert "\r\n"[2..] == "";
  }

  /** `u` with every "\n" written as "\r\n" (a Windows checkout of an LF file). */
  function CrlfLines(u: string): string
  {
    if u == [] then []
    else (if u[0] == '\n' then "\r\n" else [u[0]]) + CrlfLines(u[1..])
  }

  /** `u` with every "\n" written as "\r" (classic Mac OS line endings). */
  function CrLines(u: string): string
  {
    if u == [] then []
    else [if u[0] == '\n' then '\r' else u[0]] + CrLines(u[1..])
  }

  /** The normalisation makes a CRLF body equal to its CR form: both compare as CR. */
  lemma {:induction false} CrlfComparesAsCr(u: string)
    requires '\r' !in u
    ensures Normalize(CrlfLines(u)) == CrLines(u)
    ensures Normalize(CrLines(u)) == CrLines(u)
  {
    if u != [] {
      assert '\r' !in u[1..] by {
        assert forall c :: c in u[1..] ==> c in u;
      }
      CrlfComparesAsCr(u[1..]);
      var rest := CrlfLines(u[1..]);
      if u[0] == '\n' {
        assert CrlfLines(u) == "\r\n" + rest;
        assert ("\r\n" + rest)[2..] == rest;
      } else {
        assert CrlfLines(u) == [u[0]] + rest;
        assert ([u[0]] + rest)[1..] == rest;
      }
      var cr := CrLines(u[1..]);
      assert CrLines(u) == [CrLines(u)[0]] + cr;
      assert ([CrLines(u)[0]] + cr)[1..] == cr;
      assert CrLines(u)[0] != '\r' || |CrLines(u)| < 2 || CrLines(u)[1] != '\n' by {
        CrLinesHasNoLf(u[1..]);
        if |CrLines(u)| >= 2 {
          assert CrLines(u)[1] == cr[0];
        }
      }
    }
  }

  lemma {:induction false} CrLinesHasNoLf(u: string)
    ensures '\n' !in CrLines(u)
  {
    if u != [] {
      CrLinesHasNoLf(u[1..]);
    }
  }

  /** An LF body and the same body with CRLF line endings still compare unequal
      after normalisation: "\r\n" is collapsed to "\r", not to "\n". */
  lemma LfDiffersFromCrlf(u: string)
    requires '\r' !in u && '\n' in u
    ensures Normalize(u) != Normalize(CrlfLines(u))
  {
    CrlfComparesAsCr(u);
    assert !HasCrlf(u);
    NormalizeFixedIff(u);
    CrLinesHasNoLf(u);
    assert u != CrLines(u);
  }
}
