/** The subscription form's email check `^\S+@\S+\.\S+$`: the pattern's meaning written
    out directly, a left-to-right automaton that decides it, and the proof that the two
    agree. */
module EmailPattern {

  import opened Text

  /** The pattern read literally: the whole text is `a + "@" + b + "." + c` with `a`, `b`
      and `c` non-empty runs of non-space characters. The runs may themselves contain
      `@` or `.`, as `\S` does. */
  ghost predicate MatchesPattern(s: string) {
    exists i, j ::
      && 1 <= i && i + 2 <= j <= |s| - 2
      && s[i] == '@' && s[j] == '.'
      && NoSpace(s[..i]) && NoSpace(s[i + 1..j]) && NoSpace(s[j + 1..])
  }

  /** How far the automaton has got through `\S+ @ \S+ \. \S+`. Taking the earliest usable
      `@` and the earliest usable `.` after it is never worse than a later one, so one
      state per pattern position suffices. */
  datatype Phase =
    | Start   // nothing read
    | Local   // one or more characters before any usable `@`
    | At      // `\S+@` read
    | Domain  // `\S+@\S+` read
    | Dot     // `\S+@\S+\.` read
    | Tld     // the whole pattern read; more non-space characters may follow
    | Dead    // white space read: no match is possible

  function Step(p: Phase, c: char): Phase {
    if IsSpace(c) then Dead
    else
      match p
      case Start => Local
      case Local => if c == '@' then At else Local
      case At => Domain
      case Domain => if c == '.' then Dot else Domain
      case Dot => Tld
      case Tld => Tld
      case Dead => Dead
  }

  function Run(p: Phase, s: string): Phase
    decreases |s|
  {
    if |s| == 0 then p else Run(Step(p, s[0]), s[1..])
  }

  /** The test `/^\S+@\S+\.\S+$/.test(s)`. */
  predicate IsEmail(s: string) {
    Run(Start, s) == Tld
  }

  /** What the rest of the input must look like for the automaton, now in phase `p`, to
      accept: an index-level restatement of the remainder of the pattern. */
  ghost predicate Rest(p: Phase, s: string) {
    match p
    case Dead => false
    case Tld => NoSpace(s)
    case Dot => NoSpace(s) && |s| >= 1
    case Domain => NoSpace(s) && exists j :: 0 <= j <= |s| - 2 && s[j] == '.'
    case At => NoSpace(s) && exists j :: 1 <= j <= |s| - 2 && s[j] == '.'
    case Local =>
      NoSpace(s) && exists i, j :: 0 <= i && i + 2 <= j <= |s| - 2 && s[i] == '@' && s[j] == '.'
    case Start =>
      NoSpace(s) && exists i, j :: 1 <= i && i + 2 <= j <= |s| - 2 && s[i] == '@' && s[j] == '.'
  }

  /** One step of the automaton consumes the first character and leaves exactly the
      remainder of the pattern to be matched. */
  lemma StepKeepsRest(p: Phase, s: string)
    requires |s| > 0
    ensures Rest(p, s) <==> Rest(Step(p, s[0]), s[1..])
  {
    var c, t := s[0], s[1..];
    assert NoSpace(s) <==> !IsSpace(c) && NoSpace(t) by {
      if !IsSpace(c) && NoSpace(t) {
        forall k | 0 <= k < |s| ensures !IsSpace(s[k]) {
          if k > 0 { assert s[k] == t[k - 1]; }
        }
      }
    }
    if !IsSpace(c) && NoSpace(t) {
      match p
      case Dead =>
      case Tld =>
      case Dot =>
      case Domain =>
        if c == '.' {
          if |t| >= 1 { assert s[0] == '.'; }
        } else {
          if Rest(p, s) {
            var j :| 0 <= j <= |s| - 2 && s[j] == '.';
            assert t[j - 1] == '.';
          }
          if Rest(Domain, t) {
            var j :| 0 <= j <= |t| - 2 && t[j] == '.';
            assert s[j + 1] == '.';
          }
        }
      case At =>
        if Rest(p, s) {
          var j :| 1 <= j <= |s| - 2 && s[j] == '.';
          assert t[j - 1] == '.';
        }
        if Rest(Domain, t) {
          var j :| 0 <= j <= |t| - 2 && t[j] == '.';
          assert s[j + 1] == '.';
        }
      case Local =>
        if c == '@' {
          if Rest(p, s) {
            var i, j :| 0 <= i && i + 2 <= j <= |s| - 2 && s[i] == '@' && s[j] == '.';
            assert t[j - 1] == '.';
          }
          if Rest(At, t) {
            var j :| 1 <= j <= |t| - 2 && t[j] == '.';
            assert s[0] == '@' && s[j + 1] == '.';
          }
        } else {
          if Rest(p, s) {
            var i, j :| 0 <= i && i + 2 <= j <= |s| - 2 && s[i] == '@' && s[j] == '.';
            assert t[i - 1] == '@' && t[j - 1] == '.';
          }
          if Rest(Local, t) {
            var i, j :| 0 <= i && i + 2 <= j <= |t| - 2 && t[i] == '@' && t[j] == '.';
            assert s[i + 1] == '@' && s[j + 1] == '.';
          }
        }
      case Start =>
        if Rest(p, s) {
          var i, j :| 1 <= i && i + 2 <= j <= |s| - 2 && s[i] == '@' && s[j] == '.';
          assert t[i - 1] == '@' && t[j - 1] == '.';
        }
        if Rest(Local, t) {
          var i, j :| 0 <= i && i + 2 <= j <= |t| - 2 && t[i] == '@' && t[j] == '.';
          assert s[i + 1] == '@' && s[j + 1] == '.';
        }
    }
  }

  /** Running the automaton from `p` ends in the accepting phase exactly when the input
      completes the pattern from `p`. */
  lemma {:induction false} RunDecidesRest(p: Phase, s: string)
    ensures Run(p, s) == Tld <==> Rest(p, s)
    decreases |s|
  {
    if |s| > 0 {
      StepKeepsRest(p, s);
      RunDecidesRest(Step(p, s[0]), s[1..]);
    }
  }

  /** The pattern's three runs are free of white space exactly when the whole text is. */
  lemma PatternRunsNoSpace(s: string, i: nat, j: nat)
    requires 1 <= i && i + 2 <= j <= |s| - 2 && s[i] == '@' && s[j] == '.'
    ensures NoSpace(s) <==> NoSpace(s[..i]) && NoSpace(s[i + 1..j]) && NoSpace(s[j + 1..])
  {
    if NoSpace(s[..i]) && NoSpace(s[i + 1..j]) && NoSpace(s[j + 1..]) {
      forall k | 0 <= k < |s|
        ensures !IsSpace(s[k])
      {
        if k < i {
          assert s[..i][k] == s[k];
        } else if i < k < j {
          assert s[i + 1..j][k - i - 1] == s[k];
        } else if j < k {
          assert s[j + 1..][k - j - 1] == s[k];
        }
      }
    }
  }

  /** The automaton accepts exactly the texts that match `^\S+@\S+\.\S+$`. */
  lemma IsEmailMatchesPattern(s: string)
    ensures IsEmail(s) <==> MatchesPattern(s)
  {
    RunDecidesRest(Start, s);
    if Rest(Start, s) {
      var i, j :| 1 <= i && i + 2 <= j <= |s| - 2 && s[i] == '@' && s[j] == '.';
      PatternRunsNoSpace(s, i, j);
    }
    if MatchesPattern(s) {
      var i, j :| 1 <= i && i + 2 <= j <= |s| - 2 && s[i] == '@' && s[j] == '.'
        && NoSpace(s[..i]) && NoSpace(s[i + 1..j]) && NoSpace(s[j + 1..]);
      PatternRunsNoSpace(s, i, j);
    }
  }

  /** Every matching text has at least five characters, so the source's separate
      emptiness test never rejects anything the pattern accepts. */
  lemma EmailIsLongEnough(s: string)
    requires IsEmail(s)
    ensures |s| >= 5
  {
    IsEmailMatchesPattern(s);
  }

  /** Examples: texts the pattern refuses, for lack of an `@` and for lack of a dot after
      it. */
  lemma EmailRefusals()
    ensures !IsEmail("foo")
    ensures !IsEmail("foo@bar")
  {
  }

  /** Example: white space inside the text is refused even when the rest has the shape. */
  lemma EmailSpaceRefused()
    ensures !IsEmail("a b@c.de")
  {
  }

  /** Example: the shortest kind of text the pattern accepts. */
  lemma EmailAcceptance()
    ensures IsEmail("a@b.co")
  {
  }
}
