/** The page's email check: `/.+@.+\..+/.test(email.trim())`.

    `Trim` follows `String.prototype.trim`. The regular expression is given
    its meaning as a ghost predicate over match positions (`RegexMatches`).
    The page calls `RegExp.prototype.test`; the model decides the same
    question with a left-to-right scan (`Run`), proved to agree with that
    meaning on every string. */
module EmailCheck {

  /** The line terminators of ECMAScript; the regex `.` matches none of them. */
  predicate IsLineTerminator(c: char)
  {
    c == '\n' || c == '\r' || c == '\U{2028}' || c == '\U{2029}'
  }

  /** The characters `trim` removes: ECMAScript WhiteSpace (tab, vertical tab,
      form feed, byte order mark and the space separators of Unicode category
      Zs) and LineTerminator. */
  predicate IsTrimmable(c: char)
  {
    || c == '\t' || c == '\U{000B}' || c == '\U{000C}' || c == '\U{FEFF}'
    || c == ' ' || c == '\U{00A0}' || c == '\U{1680}'
    || ('\U{2000}' <= c <= '\U{200A}')
    || c == '\U{202F}' || c == '\U{205F}' || c == '\U{3000}'
    || IsLineTerminator(c)
  }

  /** `s` with its maximal run of leading trimmable characters removed. */
  function TrimStart(s: string): string
  {
    if s != [] && IsTrimmable(s[0]) then TrimStart(s[1..]) else s
  }

  /** `s` with its maximal run of trailing trimmable characters removed. */
  function TrimEnd(s: string): string
  {
    if s != [] && IsTrimmable(s[|s| - 1]) then TrimEnd(s[..|s| - 1]) else s
  }

  /** `String.prototype.trim`. */
  function Trim(s: string): string
  {
    TrimEnd(TrimStart(s))
  }

  /** `TrimStart` removes a prefix of trimmable characters, and the longest
      one: what is left does not start with one. */
  lemma {:induction false} TrimStartRemovesLeading(s: string)
    ensures |TrimStart(s)| <= |s| && TrimStart(s) == s[|s| - |TrimStart(s)|..]
    ensures forall i :: 0 <= i < |s| - |TrimStart(s)| ==> IsTrimmable(s[i])
    ensures TrimStart(s) != [] ==> !IsTrimmable(TrimStart(s)[0])
    decreases |s|
  {
    if s != [] && IsTrimmable(s[0]) {
      var r := TrimStart(s[1..]);
      TrimStartRemovesLeading(s[1..]);
      assert s[1..][|s| - 1 - |r|..] == s[|s| - |r|..];
      forall i | 1 <= i < |s| - |r|
        ensures IsTrimmable(s[i])
      {
        assert s[i] == s[1..][i - 1];
      }
    }
  }

  /** `TrimEnd` removes a suffix of trimmable characters, and the longest
      one: what is left does not end with one. */
  lemma {:induction false} TrimEndRemovesTrailing(s: string)
    ensures |TrimEnd(s)| <= |s| && TrimEnd(s) == s[..|TrimEnd(s)|]
    ensures forall i :: |TrimEnd(s)| <= i < |s| ==> IsTrimmable(s[i])
    ensures TrimEnd(s) != [] ==> !IsTrimmable(TrimEnd(s)[|TrimEnd(s)| - 1])
    decreases |s|
  {
    if s != [] && IsTrimmable(s[|s| - 1]) {
      var r := TrimEnd(s[..|s| - 1]);
      TrimEndRemovesTrailing(s[..|s| - 1]);
      assert s[..|s| - 1][..|r|] == s[..|r|];
      forall i | |r| <= i < |s| - 1
        ensures IsTrimmable(s[i])
      {
        assert s[i] == s[..|s| - 1][i];
      }
    }
  }

  /** `Trim(s)` is the stretch of `s` between its leading and trailing
      trimmable characters, and neither end of it is trimmable. */
  lemma TrimIsInnerStretch(s: string)
    ensures exists a, b ::
              && 0 <= a <= b <= |s| && Trim(s) == s[a..b]
              && (forall i :: 0 <= i < a ==> IsTrimmable(s[i]))
              && (forall i :: b <= i < |s| ==> IsTrimmable(s[i]))
    ensures Trim(s) != [] ==> !IsTrimmable(Trim(s)[0]) && !IsTrimmable(Trim(s)[|Trim(s)| - 1])
  {
    var t := TrimStart(s);
    TrimStartRemovesLeading(s);
    TrimEndRemovesTrailing(t);
    var a := |s| - |t|;
    var b := a + |TrimEnd(t)|;
    assert Trim(s) == s[a..b];
    assert forall i :: b <= i < |s| ==> s[i] == t[i - a];
  }

  /** Trimming twice is trimming once. */
  lemma TrimIdempotent(s: string)
    ensures Trim(Trim(s)) == Trim(s)
  {
    TrimIsInnerStretch(s);
  }

  // ---------------------------------------------------------------------
  // What the regular expression means

  /** No character of `s[a..b]` is a line terminator. */
  ghost predicate SingleLine(s: string, a: int, b: int)
    requires 0 <= a <= b <= |s|
  {
    forall i :: a <= i < b ==> !IsLineTerminator(s[i])
  }

  /** `s[a..b]` is a match of `.+@.+\..+` whose `@` is at `at` and whose
      `.` is at `dot`: each `.+` run is non-empty and the whole stretch is on
      one line. The runs may themselves hold `@` or `.`. */
  ghost predicate MatchAt(s: string, a: int, at: int, dot: int, b: int)
  {
    && 0 <= a < at && at + 1 < dot && dot + 1 < b <= |s|
    && s[at] == '@' && s[dot] == '.'
    && SingleLine(s, a, b)
  }

  /** The unanchored test: some stretch of `s` matches. */
  ghost predicate RegexMatches(s: string)
  {
    exists a, at, dot, b :: MatchAt(s, a, at, dot, b)
  }

  // Partial matches that end at the end of `s`, one per position in the
  // pattern: after the first `.+`, after the `@`, after the second `.+`,
  // after the `\.`.

  ghost predicate EndsInLocal(s: string)
  {
    exists a :: 0 <= a < |s| && SingleLine(s, a, |s|)
  }

  ghost predicate EndsInAt(s: string)
  {
    exists a :: 0 <= a < |s| - 1 && s[|s| - 1] == '@' && SingleLine(s, a, |s|)
  }

  ghost predicate EndsInDomain(s: string)
  {
    exists a, at :: 0 <= a < at && at + 1 < |s| && s[at] == '@' && SingleLine(s, a, |s|)
  }

  ghost predicate EndsInDot(s: string)
  {
    exists a, at :: 0 <= a < at && at + 1 < |s| - 1 && s[at] == '@' && s[|s| - 1] == '.'
      && SingleLine(s, a, |s|)
  }

  // ---------------------------------------------------------------------
  // The scan

  /** How far the scan has come along the pattern on the current line. */
  datatype ScanState = Start | Local | AfterAt | Domain | AfterDot | Matched

  function Rank(st: ScanState): nat
  {
    match st
    case Start => 0
    case Local => 1
    case AfterAt => 2
    case Domain => 3
    case AfterDot => 4
    case Matched => 5
  }

  function Step(st: ScanState, c: char): ScanState
  {
    if st == Matched then Matched
    else if IsLineTerminator(c) then Start
    else
      match st
      case Start => Local
      case Local => if c == '@' then AfterAt else Local
      case AfterAt => Domain
      case Domain => if c == '.' then AfterDot else Domain
      case AfterDot => Matched
  }

  /** The state after scanning `s` from left to right. */
  function Run(s: string): ScanState
  {
    if s == [] then Start else Step(Run(s[..|s| - 1]), s[|s| - 1])
  }

  /** `emailIsValid`. The page also checks that the trimmed email is not
      empty; `ValidEmailIsLong` shows that this check is implied. */
  predicate EmailIsValid(email: string)
  {
    Run(Trim(email)) == Matched
  }

  /** What each scan state says about the text scanned so far. */
  ghost predicate Tracks(s: string, st: ScanState)
  {
    && (st == Matched <==> RegexMatches(s))
    && (st != Matched ==>
          && (EndsInLocal(s) <==> Rank(st) >= 1)
          && (EndsInAt(s) || EndsInDomain(s) <==> Rank(st) >= 2)
          && (EndsInDomain(s) <==> Rank(st) >= 3)
          && (EndsInDot(s) <==> st == AfterDot))
  }

  /** Appending a character changes nothing about a stretch before it. */
  lemma SingleLineOfPrefix(p: string, c: char, a: int, b: int)
    requires 0 <= a <= b <= |p|
    ensures SingleLine(p + [c], a, b) <==> SingleLine(p, a, b)
  {
    assert forall i :: a <= i < b ==> (p + [c])[i] == p[i];
  }

  /** A stretch that spans a line terminator is not on one line. */
  lemma SpansTerminator(s: string, a: int, b: int, k: int)
    requires 0 <= a <= k < b <= |s| && IsLineTerminator(s[k])
    ensures !SingleLine(s, a, b)
  {
  }

  lemma MatchAtOfPrefix(p: string, c: char, a: int, at: int, dot: int, b: int)
    requires 0 <= a <= b <= |p|
    ensures MatchAt(p + [c], a, at, dot, b) <==> MatchAt(p, a, at, dot, b)
  {
    SingleLineOfPrefix(p, c, a, b);
  }

  lemma MatchExtends(p: string, c: char)
    requires RegexMatches(p)
    ensures RegexMatches(p + [c])
  {
    var s := p + [c];
    var a, at, dot, b :| MatchAt(p, a, at, dot, b);
    MatchAtOfPrefix(p, c, a, at, dot, b);
  }

  /** After a line terminator nothing is partially matched, and a full match
      lies wholly before it. */
  lemma StepTerminator(p: string, c: char)
    requires IsLineTerminator(c)
    ensures !EndsInLocal(p + [c]) && !EndsInAt(p + [c])
    ensures !EndsInDomain(p + [c]) && !EndsInDot(p + [c])
    ensures RegexMatches(p + [c]) <==> RegexMatches(p)
  {
    var s := p + [c];
    forall a | 0 <= a < |s|
      ensures !SingleLine(s, a, |s|)
    {
      SpansTerminator(s, a, |s|, |s| - 1);
    }
    if RegexMatches(s) {
      var a, at, dot, b :| MatchAt(s, a, at, dot, b);
      MatchAtOfPrefix(p, c, a, at, dot, b);
    }
    if RegexMatches(p) {
      MatchExtends(p, c);
    }
  }

  /** Over a character that is not a line terminator, the stretch ending
      in `@` is new: it needs the `@` just read and a local part before it. */
  lemma StepAt(p: string, c: char)
    requires !IsLineTerminator(c)
    ensures EndsInLocal(p + [c])
    ensures EndsInAt(p + [c]) <==> c == '@' && EndsInLocal(p)
  {
    var s := p + [c];
    assert SingleLine(s, |p|, |s|);
    if EndsInAt(s) {
      var a :| 0 <= a < |s| - 1 && s[|s| - 1] == '@' && SingleLine(s, a, |s|);
      SingleLineOfPrefix(p, c, a, |p|);
    }
    if c == '@' && EndsInLocal(p) {
      var a :| 0 <= a < |p| && SingleLine(p, a, |p|);
      assert SingleLine(s, a, |s|);
    }
  }

  /** The domain run starts after an `@` or goes on. */
  lemma StepDomain(p: string, c: char)
    requires !IsLineTerminator(c)
    ensures EndsInDomain(p + [c]) <==> EndsInAt(p) || EndsInDomain(p)
  {
    var s := p + [c];
    if EndsInDomain(s) {
      var a, at :| 0 <= a < at && at + 1 < |s| && s[at] == '@' && SingleLine(s, a, |s|);
      SingleLineOfPrefix(p, c, a, |p|);
      if at + 1 == |p| {
        assert EndsInAt(p);
      } else {
        assert EndsInDomain(p);
      }
    }
    if EndsInAt(p) {
      var a :| 0 <= a < |p| - 1 && p[|p| - 1] == '@' && SingleLine(p, a, |p|);
      assert SingleLine(s, a, |s|);
      assert s[|p| - 1] == '@';
    }
    if EndsInDomain(p) {
      var a, at :| 0 <= a < at && at + 1 < |p| && p[at] == '@' && SingleLine(p, a, |p|);
      assert SingleLine(s, a, |s|);
      assert s[at] == '@';
    }
  }

  /** The stretch ending in the `\.` needs the `.` just read and a domain
      run before it. */
  lemma StepDot(p: string, c: char)
    requires !IsLineTerminator(c)
    ensures EndsInDot(p + [c]) <==> c == '.' && EndsInDomain(p)
  {
    var s := p + [c];
    if EndsInDot(s) {
      var a, at :| 0 <= a < at && at + 1 < |s| - 1 && s[at] == '@' && s[|s| - 1] == '.'
        && SingleLine(s, a, |s|);
      SingleLineOfPrefix(p, c, a, |p|);
      assert p[at] == '@';
    }
    if c == '.' && EndsInDomain(p) {
      var a, at :| 0 <= a < at && at + 1 < |p| && p[at] == '@' && SingleLine(p, a, |p|);
      assert SingleLine(s, a, |s|);
      assert s[at] == '@';
    }
  }

  /** A full match is kept, or completed by any character after the `\.`. */
  lemma StepMatch(p: string, c: char)
    requires !IsLineTerminator(c)
    ensures RegexMatches(p + [c]) <==> RegexMatches(p) || EndsInDot(p)
  {
    var s := p + [c];
    if RegexMatches(s) {
      var a, at, dot, b :| MatchAt(s, a, at, dot, b);
      if b <= |p| {
        MatchAtOfPrefix(p, c, a, at, dot, b);
      } else {
        SingleLineOfPrefix(p, c, a, |p|);
        if dot + 1 < |p| {
          assert MatchAt(p, a, at, dot, |p|);
        } else {
          assert p[at] == '@' && p[|p| - 1] == '.';
          assert EndsInDot(p);
        }
      }
    }
    if RegexMatches(p) {
      MatchExtends(p, c);
    }
    if EndsInDot(p) {
      var a, at :| 0 <= a < at && at + 1 < |p| - 1 && p[at] == '@' && p[|p| - 1] == '.'
        && SingleLine(p, a, |p|);
      assert MatchAt(s, a, at, |p| - 1, |s|);
    }
  }

  lemma {:induction false} RunTracks(s: string)
    ensures Tracks(s, Run(s))
  {
    if s == [] {
      assert !EndsInLocal(s) && !EndsInAt(s) && !EndsInDomain(s) && !EndsInDot(s);
      assert !RegexMatches(s);
    } else {
      var p, c := s[..|s| - 1], s[|s| - 1];
      assert s == p + [c];
      RunTracks(p);
      if Run(p) == Matched {
        MatchExtends(p, c);
      } else if IsLineTerminator(c) {
        StepTerminator(p, c);
      } else {
        StepAt(p, c);
        StepDomain(p, c);
        StepDot(p, c);
        StepMatch(p, c);
      }
    }
  }

  /** The scan finds a match exactly when the regular expression has one. */
  lemma RunDecidesRegex(s: string)
    ensures Run(s) == Matched <==> RegexMatches(s)
  {
    RunTracks(s);
  }

  /** The validator accepts an email iff a single-line stretch of the trimmed
      email reads: at least one character, `@`, at least one character, `.`,
      at least one character. */
  lemma EmailIsValidMeaning(email: string)
    ensures EmailIsValid(email) <==> RegexMatches(Trim(email))
  {
    RunDecidesRegex(Trim(email));
  }

  /** Every accepted email has at least five characters once trimmed, so the
      page's separate emptiness check never rejects what the regex accepts. */
  lemma ValidEmailIsLong(email: string)
    ensures EmailIsValid(email) ==> |Trim(email)| >= 5
  {
    EmailIsValidMeaning(email);
  }

  /** A trimmed email without `@`, or without `.` at least two places after
      some `@`, is rejected. */
  lemma MissingPartsRejected(email: string)
    requires forall at, dot :: 0 <= at && at + 1 < dot < |Trim(email)| ==>
      Trim(email)[at] != '@' || Trim(email)[dot] != '.'
    ensures !EmailIsValid(email)
  {
    EmailIsValidMeaning(email);
  }

  /** An email whose first and last characters are not whitespace is
      tested as it is. */
  lemma TrimClean(s: string)
    requires s != [] && !IsTrimmable(s[0]) && !IsTrimmable(s[|s| - 1])
    ensures Trim(s) == s
  {
  }

  /** The scan of a prefix one character longer takes one more step. */
  lemma RunPrefix(s: string, k: nat)
    requires 0 < k <= |s|
    ensures Run(s[..k]) == Step(Run(s[..k - 1]), s[k - 1])
  {
    assert s[..k][..k - 1] == s[..k - 1];
  }

  /** Trimming ignores one character appended after the text. */
  lemma {:induction false} TrimStartSnoc(s: string, c: char)
    ensures TrimStart(s + [c]) == if TrimStart(s) == [] then TrimStart([c]) else TrimStart(s) + [c]
    decreases |s|
  {
    if s == [] {
      assert s + [c] == [c];
    } else {
      assert (s + [c])[1..] == s[1..] + [c];
      if IsTrimmable(s[0]) {
        TrimStartSnoc(s[1..], c);
      }
    }
  }

  /** Whitespace or a line break around the email changes nothing. */
  lemma PaddingIgnored(w1: char, s: string, w2: char)
    requires IsTrimmable(w1) && IsTrimmable(w2)
    ensures Trim([w1] + s + [w2]) == Trim(s)
    ensures EmailIsValid([w1] + s + [w2]) <==> EmailIsValid(s)
  {
    var e := [w1] + s + [w2];
    assert e[1..] == s + [w2];
    TrimStartSnoc(s, w2);
    var t := TrimStart(s);
    if t != [] {
      assert (t + [w2])[..|t|] == t;
    } else {
      assert [w2][1..] == [];
    }
  }

  /** Each of the three runs may be a single character, and the middle one
      may itself be `@` or `.`. */
  lemma AcceptedShape(l: char, d: char, t: char)
    requires !IsTrimmable(l) && !IsLineTerminator(d) && !IsTrimmable(t)
    ensures EmailIsValid([l, '@', d, '.', t])
  {
    var e := [l, '@', d, '.', t];
    TrimClean(e);
    RunPrefix(e, 1);
    RunPrefix(e, 2);
    RunPrefix(e, 3);
    RunPrefix(e, 4);
    RunPrefix(e, 5);
    assert e[..5] == e;
  }

  /** A `.` may open the domain run: "a@.b.c" is accepted. */
  lemma DotInDomainAccepted()
    ensures EmailIsValid("a@.b.c")
  {
    var e := "a@.b.c";
    TrimClean(e);
    RunPrefix(e, 1);
    RunPrefix(e, 2);
    RunPrefix(e, 3);
    RunPrefix(e, 4);
    RunPrefix(e, 5);
    RunPrefix(e, 6);
    assert e[..6] == e;
  }

  /** The run after the `.` must not be empty. */
  lemma EmptySuffixRejected()
    ensures !EmailIsValid("a@b.")
  {
    TrimClean("a@b.");
    EmailIsValidMeaning("a@b.");
  }

  /** The run before the `@` must not be empty. */
  lemma EmptyLocalRejected()
    ensures !EmailIsValid("@b.c")
  {
    TrimClean("@b.c");
    EmailIsValidMeaning("@b.c");
  }

  /** An email that is empty once trimmed is rejected. */
  lemma BlankRejected(email: string)
    requires Trim(email) == ""
    ensures !EmailIsValid(email)
  {
    ValidEmailIsLong(email);
  }

  /** The match must lie on one line: a line break after the first
      character leaves the rest one character short of a match. */
  lemma LineBreakRejected(l: char, n: char, d: char, t: char)
    requires !IsTrimmable(l) && IsLineTerminator(n) && !IsTrimmable(t)
    ensures !EmailIsValid([l, n, '@', d, '.', t])
  {
    var e := [l, n, '@', d, '.', t];
    TrimClean(e);
    RunPrefix(e, 1);
    RunPrefix(e, 2);
    RunPrefix(e, 3);
    RunPrefix(e, 4);
    RunPrefix(e, 5);
    RunPrefix(e, 6);
    assert e[..6] == e;
  }
}
