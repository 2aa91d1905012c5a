/**
 * The waitlist form's email check: `isValidEmail` tests the regular
 * expression `^[^\s@]+@[^\s@]+\.[^\s@]+$`.
 *
 * The expression is modelled twice: `IsValidEmail` runs a deterministic
 * automaton that recognises exactly the language of the expression (this is
 * what a regular-expression engine decides), and `MatchesShape` says what
 * the expression means, `local + "@" + domain`.  The contract of
 * `IsValidEmail` states that the two agree on every string.
 */
module Email {

  /** The characters JavaScript's `\s` matches: the ECMAScript WhiteSpace and
      LineTerminator code points (tab, line feed, vertical tab, form feed,
      carriage return, space, no-break space, the Unicode space separators,
      line and paragraph separator, and the byte order mark). */
  predicate IsWhitespace(c: char) {
    c == '\t' || c == '\n' || c == '\U{000B}' || c == '\U{000C}' || c == '\r'
    || c == ' ' || c == '\U{00A0}' || c == '\U{1680}'
    || ('\U{2000}' <= c <= '\U{200A}')
    || c == '\U{2028}' || c == '\U{2029}' || c == '\U{202F}' || c == '\U{205F}'
    || c == '\U{3000}' || c == '\U{FEFF}'
  }

  /** The character class `[^\s@]`. */
  predicate IsPlain(c: char) {
    !IsWhitespace(c) && c != '@'
  }

  predicate AllPlain(s: string) {
    forall i :: 0 <= i < |s| ==> IsPlain(s[i])
  }

  /** Some `.` of `d` has at least one character before it and one after it. */
  ghost predicate HasInnerDot(d: string) {
    exists i :: 0 < i < |d| - 1 && d[i] == '.'
  }

  /** What `[^\s@]+` accepts before the `@`. */
  predicate LocalPartOk(l: string) {
    |l| > 0 && AllPlain(l)
  }

  /** What `[^\s@]+\.[^\s@]+` accepts after the `@`. */
  ghost predicate DomainOk(d: string) {
    AllPlain(d) && HasInnerDot(d)
  }

  /** The meaning of the regular expression. */
  ghost predicate MatchesShape(s: string) {
    exists l, d :: s == l + "@" + d && LocalPartOk(l) && DomainOk(d)
  }

  /** `s[k]` is an `@` with only `[^\s@]` characters before it and an
      acceptable domain after it (the part before may still be empty). */
  ghost predicate AtSplit(s: string, k: int) {
    0 <= k < |s| && s[k] == '@' && AllPlain(s[..k]) && DomainOk(s[k + 1..])
  }

  /** The automaton's states, named after the position reached in the
      expression. */
  datatype State =
    | Start   // nothing read
    | Local   // inside the first `[^\s@]+`
    | AtSign  // just read the `@`
    | Host    // inside `[^\s@]+` after the `@`, no usable `.` yet
    | Dot     // just read a `.` that has a domain character before it
    | Tld     // read at least one character after such a `.`: accepting
    | Fail    // no continuation can match

  function Step(q: State, c: char): State {
    if IsWhitespace(c) then Fail
    else if c == '@' then (if q == Local then AtSign else Fail)
    else match q
      case Start => Local
      case Local => Local
      case AtSign => Host
      case Host => if c == '.' then Dot else Host
      case Dot => Tld
      case Tld => Tld
      case Fail => Fail
  }

  function Run(q: State, s: string): State
    decreases |s|
  {
    if s == [] then q else Run(Step(q, s[0]), s[1..])
  }

  /** `isValidEmail(email)`: the anchored expression matches the whole
      string, that is, the automaton ends in `Tld`.  This holds exactly when
      `email` is `l + "@" + d` with `l` non-empty and free of whitespace and
      `@`, and `d` free of whitespace and `@` with a `.` strictly inside it. */
  predicate IsValidEmail(email: string): (r: bool)
    ensures r <==> MatchesShape(email)
  {
    RunMeaning(Start, email);
    StartGoalIsShape(email);
    Run(Start, email) == Tld
  }

  /** What the rest `r` of the input must look like for the automaton, now
      in state `q`, to accept. */
  ghost predicate Goal(q: State, r: string) {
    match q
    case Start => exists k :: 0 < k && AtSplit(r, k)
    case Local => exists k :: AtSplit(r, k)
    case AtSign => DomainOk(r)
    case Host => AllPlain(r) && exists i :: 0 <= i < |r| - 1 && r[i] == '.'
    case Dot => AllPlain(r) && |r| > 0
    case Tld => AllPlain(r)
    case Fail => false
  }

  lemma AllPlainCons(c: char, r: string)
    ensures AllPlain([c] + r) <==> IsPlain(c) && AllPlain(r)
  {
    var cr := [c] + r;
    if IsPlain(c) && AllPlain(r) {
      forall i | 0 <= i < |cr| ensures IsPlain(cr[i]) {
        if i > 0 { assert cr[i] == r[i - 1]; }
      }
    }
    if AllPlain(cr) {
      assert IsPlain(cr[0]);
      forall i | 0 <= i < |r| ensures IsPlain(r[i]) {
        assert r[i] == cr[i + 1];
      }
    }
  }

  /** Shifting an `@` split past one more leading character. */
  lemma AtSplitCons(c: char, r: string, k: int)
    requires 0 <= k
    ensures AtSplit([c] + r, k + 1) <==> IsPlain(c) && AtSplit(r, k)
  {
    var cr := [c] + r;
    if k < |r| {
      assert cr[..k + 1] == [c] + r[..k];
      assert cr[k + 1] == r[k];
      assert cr[k + 2..] == r[k + 1..];
      AllPlainCons(c, r[..k]);
    }
  }

  /** A split whose part before the `@` starts with a non-plain character
      must be the split at index 0. */
  lemma AtSplitHead(s: string, k: int)
    requires AtSplit(s, k) && !IsPlain(s[0])
    ensures k == 0
  {
  }

  lemma GoalStep(q: State, c: char, r: string)
    ensures Goal(q, [c] + r) == Goal(Step(q, c), r)
  {
    var cr := [c] + r;
    AllPlainCons(c, r);
    assert cr[1..] == r;
    match q
    case Fail =>
    case Tld =>
    case Dot =>
    case Host =>
      if IsPlain(c) {
        if c == '.' {
          if |r| > 0 { assert cr[0] == '.'; }
        } else {
          if exists j :: 0 <= j < |r| - 1 && r[j] == '.' {
            var j :| 0 <= j < |r| - 1 && r[j] == '.';
            assert cr[j + 1] == '.';
          }
          if exists i :: 0 <= i < |cr| - 1 && cr[i] == '.' {
            var i :| 0 <= i < |cr| - 1 && cr[i] == '.';
            assert r[i - 1] == '.';
          }
        }
      }
    case AtSign =>
      if IsPlain(c) {
        if exists j :: 0 <= j < |r| - 1 && r[j] == '.' {
          var j :| 0 <= j < |r| - 1 && r[j] == '.';
          assert cr[j + 1] == '.';
          assert HasInnerDot(cr);
        }
        if HasInnerDot(cr) {
          var i :| 0 < i < |cr| - 1 && cr[i] == '.';
          assert r[i - 1] == '.';
        }
      }
    case Local =>
      if c == '@' {
        if DomainOk(r) {
          assert cr[..0] == [];
          assert AtSplit(cr, 0);
        }
        if exists k :: AtSplit(cr, k) {
          var k :| AtSplit(cr, k);
          AtSplitHead(cr, k);
        }
      } else if IsPlain(c) {
        if exists k :: AtSplit(r, k) {
          var k :| AtSplit(r, k);
          AtSplitCons(c, r, k);
        }
        if exists k :: AtSplit(cr, k) {
          var k :| AtSplit(cr, k);
          AtSplitCons(c, r, k - 1);
        }
      } else {
        if exists k :: AtSplit(cr, k) {
          var k :| AtSplit(cr, k);
          AtSplitHead(cr, k);
        }
      }
    case Start =>
      if IsPlain(c) {
        if exists k :: AtSplit(r, k) {
          var k :| AtSplit(r, k);
          AtSplitCons(c, r, k);
        }
        if exists k :: 0 < k && AtSplit(cr, k) {
          var k :| 0 < k && AtSplit(cr, k);
          AtSplitCons(c, r, k - 1);
        }
      } else {
        if exists k :: 0 < k && AtSplit(cr, k) {
          var k :| 0 < k && AtSplit(cr, k);
          AtSplitHead(cr, k);
        }
      }
  }

  /** From every state, the automaton accepts exactly the rests that `Goal`
      describes. */
  lemma {:induction false} RunMeaning(q: State, s: string)
    ensures (Run(q, s) == Tld) == Goal(q, s)
    decreases |s|
  {
    if s != [] {
      assert s == [s[0]] + s[1..];
      GoalStep(q, s[0], s[1..]);
      RunMeaning(Step(q, s[0]), s[1..]);
    }
  }

  /** What the automaton must see from `Start` is the shape of the
      expression. */
  lemma StartGoalIsShape(s: string)
    ensures Goal(Start, s) <==> MatchesShape(s)
  {
    if Goal(Start, s) {
      var k :| 0 < k && AtSplit(s, k);
      var l, d := s[..k], s[k + 1..];
      assert s == l + "@" + d;
      assert LocalPartOk(l) && DomainOk(d);
    }
    if MatchesShape(s) {
      var l, d :| s == l + "@" + d && LocalPartOk(l) && DomainOk(d);
      var k := |l|;
      assert s[..k] == l;
      assert s[k + 1..] == d;
      assert AtSplit(s, k);
    }
  }

  lemma {:induction false} RunAppend(q: State, a: string, b: string)
    ensures Run(q, a + b) == Run(Run(q, a), b)
    decreases |a|
  {
    if a != [] {
      assert (a + b)[0] == a[0];
      assert (a + b)[1..] == a[1..] + b;
      RunAppend(Step(q, a[0]), a[1..], b);
    } else {
      assert a + b == b;
    }
  }

  /** Once no continuation can match, none ever will. */
  lemma {:induction false} FailAbsorbs(s: string)
    ensures Run(Fail, s) == Fail
    decreases |s|
  {
    if s != [] {
      FailAbsorbs(s[1..]);
    }
  }

  /** Without an `@`, the automaton never leaves the local part. */
  lemma {:induction false} StaysBeforeAt(q: State, s: string)
    requires q == Start || q == Local || q == Fail
    requires forall i :: 0 <= i < |s| ==> s[i] != '@'
    ensures Run(q, s) == Start || Run(q, s) == Local || Run(q, s) == Fail
    decreases |s|
  {
    if s != [] {
      assert s[0] != '@';
      StaysBeforeAt(Step(q, s[0]), s[1..]);
    }
  }

  /** After the `@`, the automaton never returns to the local part. */
  lemma {:induction false} NeverBackBeforeAt(q: State, s: string)
    requires q != Start && q != Local
    ensures Run(q, s) != Start && Run(q, s) != Local
    decreases |s|
  {
    if s != [] {
      NeverBackBeforeAt(Step(q, s[0]), s[1..]);
    }
  }

  /** Reading the character at index `i` of `s` after its prefix. */
  lemma RunAt(q: State, s: string, i: int)
    requires 0 <= i < |s|
    ensures Run(q, s) == Run(Step(Run(q, s[..i]), s[i]), s[i + 1..])
  {
    assert s == s[..i] + s[i..];
    RunAppend(q, s[..i], s[i..]);
  }

  /** A string without any `@` is rejected. */
  lemma NoAtSignFails(s: string)
    requires forall i :: 0 <= i < |s| ==> s[i] != '@'
    ensures !IsValidEmail(s)
  {
    StaysBeforeAt(Start, s);
  }

  /** A string with two or more `@` is rejected. */
  lemma TwoAtSignsFail(s: string, i: int, j: int)
    requires 0 <= i < j < |s| && s[i] == '@' && s[j] == '@'
    ensures !IsValidEmail(s)
  {
    var afterFirst := Step(Run(Start, s[..i]), '@');
    RunAt(Start, s, i);
    var rest := s[i + 1..];
    var k := j - i - 1;
    assert rest[k] == '@';
    RunAt(afterFirst, rest, k);
    NeverBackBeforeAt(afterFirst, rest[..k]);
    FailAbsorbs(rest[k + 1..]);
  }

  /** A string holding any whitespace character is rejected. */
  lemma WhitespaceFails(s: string, i: int)
    requires 0 <= i < |s| && IsWhitespace(s[i])
    ensures !IsValidEmail(s)
  {
    RunAt(Start, s, i);
    FailAbsorbs(s[i + 1..]);
  }

  /** After the `@`, a domain with no `.` at all, or whose only dots are its
      first or its last character, is rejected. */
  lemma DomainWithoutInnerDotFails(l: string, d: string)
    requires forall i :: 0 < i < |d| - 1 ==> d[i] != '.'
    ensures !IsValidEmail(l + "@" + d)
  {
    var s := l + "@" + d;
    assert s == (l + "@") + d;
    RunAppend(Start, l + "@", d);
    RunAppend(Start, l, "@");
    var q := Run(Start, l + "@");
    assert q == Step(Run(Start, l), '@');
    if q == AtSign {
      RunMeaning(AtSign, d);
    } else {
      FailAbsorbs(d);
    }
  }

  /** In `l + "@" + d` with `l` and `d` free of `@`, the only `@` is the
      one between them. */
  lemma OnlyAtSign(l: string, d: string, k: int)
    requires AllPlain(l) && AllPlain(d)
    requires 0 <= k < |l + "@" + d| && (l + "@" + d)[k] == '@'
    ensures k == |l|
  {
  }

  /** In an accepted address the `@` is unique, so the split into local part
      and domain is determined by the address. */
  lemma SplitIsUnique(l1: string, d1: string, l2: string, d2: string)
    requires LocalPartOk(l1) && DomainOk(d1) && LocalPartOk(l2) && DomainOk(d2)
    requires l1 + "@" + d1 == l2 + "@" + d2
    ensures l1 == l2 && d1 == d2
  {
    var s := l1 + "@" + d1;
    assert s[|l2|] == '@';
    OnlyAtSign(l1, d1, |l2|);
    assert l1 == s[..|l1|] == l2;
    assert d1 == s[|l1| + 1..] == d2;
  }

  /** An address accepted through its split into local part and domain. */
  lemma AcceptedBySplit(l: string, d: string, i: int)
    requires LocalPartOk(l) && AllPlain(d) && 0 < i < |d| - 1 && d[i] == '.'
    ensures IsValidEmail(l + "@" + d)
  {
    var s := l + "@" + d;
    assert s[..|l|] == l && s[|l| + 1..] == d;
    assert HasInnerDot(d);
    assert AtSplit(s, |l|);
    RunMeaning(Start, s);
  }

  lemma ExampleAccepted()
    ensures IsValidEmail("alice@example.com")
  {
    assert "alice@example.com" == "alice" + "@" + "example.com";
    AcceptedBySplit("alice", "example.com", 7);
  }

  /** Several dots in the domain, and dots in the local part, are allowed. */
  lemma ExampleManyDotsAccepted()
    ensures IsValidEmail("first.last@mail.example.co.uk")
  {
    assert "first.last@mail.example.co.uk" == "first.last" + "@" + "mail.example.co.uk";
    AcceptedBySplit("first.last", "mail.example.co.uk", 4);
  }

  /** An inner dot suffices: a leading dot beside it does no harm. */
  lemma ExampleLeadingDotAccepted()
    ensures IsValidEmail("a@.b.c")
  {
    assert "a@.b.c" == "a" + "@" + ".b.c";
    AcceptedBySplit("a", ".b.c", 2);
  }

  /** An inner dot suffices: a trailing dot beside it does no harm. */
  lemma ExampleTrailingDotAccepted()
    ensures IsValidEmail("a@b.c.")
  {
    assert "a@b.c." == "a" + "@" + "b.c.";
    AcceptedBySplit("a", "b.c.", 1);
  }

  /** Without an inner dot in the domain the address is rejected. */
  lemma ExamplesEdgeDotsRejected()
    ensures !IsValidEmail("a@.com") && !IsValidEmail("a@com.") && !IsValidEmail("a@com")
  {
    assert "a@.com" == "a" + "@" + ".com";
    DomainWithoutInnerDotFails("a", ".com");
    assert "a@com." == "a" + "@" + "com.";
    DomainWithoutInnerDotFails("a", "com.");
    assert "a@com" == "a" + "@" + "com";
    DomainWithoutInnerDotFails("a", "com");
  }

  /** An empty local part is rejected. */
  lemma ExampleEmptyLocalRejected()
    ensures !IsValidEmail("@example.com")
  {
    RunAt(Start, "@example.com", 0);
    FailAbsorbs("@example.com"[1..]);
  }

  /** A space is rejected. */
  lemma ExampleSpaceRejected()
    ensures !IsValidEmail("a b@example.com")
  {
    WhitespaceFails("a b@example.com", 1);
  }

  /** A second `@` is rejected. */
  lemma ExampleSecondAtRejected()
    ensures !IsValidEmail("a@b@example.com")
  {
    TwoAtSignsFail("a@b@example.com", 1, 3);
  }
}
