/** The line-ending normal form behind the base-drift hash. */
module LineEndings {

  function ReplaceCrLf(s: string): string {
    if s == "" then ""
    else if |s| >= 2 && s[0] == '\r' && s[1] == '\n' then "\n" + ReplaceCrLf(s[2..])
    else [s[0]] + ReplaceCrLf(s[1..])
  }

  function ReplaceCr(s: string): (r: string)
    ensures |r| == |s|
  {
    if s == "" then "" else [if s[0] == '\r' then '\n' else s[0]] + ReplaceCr(s[1..])
  }

  function Normalize(s: string): string {
    ReplaceCr(ReplaceCrLf(s))
  }

  function DriftHash<D>(sha: string -> D, s: string): D {
    sha(Normalize(s))
  }

  // ---- Lines, the reference meaning: CRLF, CR and LF all end a line ----

  // Characters the line break at the front of `s` takes up.
  function BreakWidth(s: string): nat {
    if s == "" then 0
    else if |s| >= 2 && s[0] == '\r' && s[1] == '\n' then 2
    else if s[0] == '\r' || s[0] == '\n' then 1
    else 0
  }

  function Lines(s: string): (r: seq<string>)
    ensures |r| > 0
  {
    if s == "" then [""]
    else if BreakWidth(s) > 0 then [""] + Lines(s[BreakWidth(s)..])
    else
      var rest := Lines(s[1..]);
      [[s[0]] + rest[0]] + rest[1..]
  }

  function JoinWithLf(lines: seq<string>): string
    requires |lines| > 0
  {
    if |lines| == 1 then lines[0] else lines[0] + "\n" + JoinWithLf(lines[1..])
  }

  ghost predicate HasCrLf(s: string) {
    exists i :: 0 <= i && i + 1 < |s| && s[i] == '\r' && s[i + 1] == '\n'
  }

  // The single left-to-right scan.
  function OnePass(s: string): string {
    if s == "" then ""
    else if BreakWidth(s) > 0 then "\n" + OnePass(s[BreakWidth(s)..])
    else [s[0]] + OnePass(s[1..])
  }

  lemma {:induction false} TwoPassesAreOne(s: string)
    ensures Normalize(s) == OnePass(s)
  {
    if s != "" {
      if BreakWidth(s) == 2 {
        TwoPassesAreOne(s[2..]);
        assert ReplaceCrLf(s)[0] == '\n' && ReplaceCrLf(s)[1..] == ReplaceCrLf(s[2..]);
      } else {
        TwoPassesAreOne(s[1..]);
        assert ReplaceCrLf(s)[0] == s[0] && ReplaceCrLf(s)[1..] == ReplaceCrLf(s[1..]);
      }
    }
  }

  lemma {:induction false} NormalFormIsJoinedLines(s: string)
    ensures OnePass(s) == JoinWithLf(Lines(s))
  {
    if s != "" {
      if BreakWidth(s) > 0 {
        NormalFormIsJoinedLines(s[BreakWidth(s)..]);
        assert Lines(s)[1..] == Lines(s[BreakWidth(s)..]);
      } else {
        NormalFormIsJoinedLines(s[1..]);
        var rest := Lines(s[1..]);
        assert Lines(s)[1..] == rest[1..];
        if |rest| > 1 {
          assert ([s[0]] + rest[0]) + "\n" + JoinWithLf(rest[1..]) == [s[0]] + (rest[0] + "\n" + JoinWithLf(rest[1..]));
        }
      }
    }
  }

  lemma {:induction false} LinesOfNormalForm(s: string)
    ensures Lines(OnePass(s)) == Lines(s) && '\r' !in OnePass(s)
  {
    if s != "" {
      var rest := s[if BreakWidth(s) > 0 then BreakWidth(s) else 1..];
      LinesOfNormalForm(rest);
      assert OnePass(s)[1..] == OnePass(rest);
      assert forall c :: c in OnePass(s) <==> c == OnePass(s)[0] || c in OnePass(rest);
    }
  }

  /** Two texts share a normal form iff they have the same lines; the form has no CR and is stable. */
  lemma NormalFormMeansSameLines(a: string, b: string)
    ensures Normalize(a) == Normalize(b) <==> Lines(a) == Lines(b)
    ensures '\r' !in Normalize(a) && Normalize(Normalize(a)) == Normalize(a)
  {
    forall s <- {a, b, Normalize(a)}
      ensures Normalize(s) == JoinWithLf(Lines(s)) && Lines(Normalize(s)) == Lines(s) && '\r' !in Normalize(s)
    {
      TwoPassesAreOne(s);
      NormalFormIsJoinedLines(s);
      LinesOfNormalForm(s);
    }
  }

  /** With a collision-free digest, drift hashes agree iff the lines do. */
  lemma DriftHashMeansSameLines<D>(sha: string -> D, a: string, b: string)
    requires forall x, y :: sha(x) == sha(y) ==> x == y
    ensures DriftHash(sha, a) == DriftHash(sha, b) <==> Lines(a) == Lines(b)
  {
    NormalFormMeansSameLines(a, b);
  }

  // A checkout that writes every LF as CRLF.
  function CrLfCheckout(s: string): string {
    if s == "" then "" else (if s[0] == '\n' then "\r\n" else [s[0]]) + CrLfCheckout(s[1..])
  }

  lemma {:induction false} NormalFormOfCheckout(s: string)
    ensures OnePass(CrLfCheckout(s)) == ReplaceCr(s)
  {
    if s != "" {
      NormalFormOfCheckout(s[1..]);
      var out, rest := CrLfCheckout(s), CrLfCheckout(s[1..]);
      if s[0] == '\n' {
        assert out[2..] == rest;
      } else {
        assert out[1..] == rest;
        assert rest == "" || rest[0] != '\n';
      }
    }
  }

  lemma {:induction false} OnePassLength(s: string)
    ensures |OnePass(s)| <= |s|
    ensures HasCrLf(s) ==> |OnePass(s)| < |s|
    ensures !HasCrLf(s) ==> OnePass(s) == ReplaceCr(s)
  {
    if s != "" {
      var width := if BreakWidth(s) > 0 then BreakWidth(s) else 1;
      OnePassLength(s[width..]);
      if width == 1 {
        if HasCrLf(s) {
          var i :| 0 <= i && i + 1 < |s| && s[i] == '\r' && s[i + 1] == '\n';
          assert s[1..][i - 1] == '\r' && s[1..][i] == '\n';
        }
        if HasCrLf(s[1..]) {
          var i :| 0 <= i && i + 1 < |s[1..]| && s[1..][i] == '\r' && s[1..][i + 1] == '\n';
          assert s[i + 1] == '\r' && s[i + 2] == '\n';
        }
      } else {
        assert s[0] == '\r' && s[0 + 1] == '\n';
      }
    }
  }

  /** The CRLF checkout keeps the drift form exactly when the text has no CRLF of its own. */
  lemma CheckoutKeepsNormalForm(s: string)
    ensures Normalize(CrLfCheckout(s)) == Normalize(s) <==> !HasCrLf(s)
  {
    TwoPassesAreOne(s);
    TwoPassesAreOne(CrLfCheckout(s));
    NormalFormOfCheckout(s);
    OnePassLength(s);
  }
}
