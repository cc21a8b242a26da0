/** The workout-link scanner: `trainingPattern` of retrieveHistory.py, a regular
    expression searched with `re.findall`, and the loop of `collectTraining` that
    gathers its matches into a set. The expression is fixed, so the scanner is written
    for that one expression rather than as a regular-expression engine. */
module Scanner {
  import opened Wrappers
  import opened PyStr

  /** One character position of the part of the expression before the first digit run. */
  datatype Sym = Lit(c: char) | AnyButNewline

  /** A Python regular-expression `.` matches any character except a newline. */
  predicate SymMatches(p: Sym, c: char) {
    match p
    case Lit(d) => c == d
    case AnyButNewline => c != '\n'
  }

  function Literal(w: string): seq<Sym> {
    seq(|w|, k requires 0 <= k < |w| => Lit(w[k]))
  }

  /** The host part of a workout link. */
  const HostPrefix: string := "https://log.concept2.com/profile/"

  /** The host part as retrieveHistory.py puts it into the expression: the host name
      is inserted unescaped, so each of its two dots is the wildcard `.`. */
  const WrittenPattern: seq<Sym> :=
    Literal("https://log") + [AnyButNewline] + Literal("concept2") + [AnyButNewline] + Literal("com/profile/")

  /** The host part as it is evidently meant: every character literal. */
  const IntendedPattern: seq<Sym> := Literal(HostPrefix)

  /** `u` begins with a text that `pat` matches. */
  predicate PrefixMatches(pat: seq<Sym>, u: string) {
    |pat| <= |u| && forall k :: 0 <= k < |pat| ==> SymMatches(pat[k], u[k])
  }

  /** `u` has the shape `[0-9]+/log/[0-9]+`. */
  ghost predicate IsLinkTail(u: string) {
    exists b :: 0 < b && b + 5 < |u| && AllDigits(u[..b]) && u[b..b + 5] == "/log/" && AllDigits(u[b + 5..])
  }

  /** `t` is a text the whole expression `<pat>[0-9]+/log/[0-9]+` matches. */
  ghost predicate IsLink(pat: seq<Sym>, t: string) {
    PrefixMatches(pat, t) && IsLinkTail(t[|pat|..])
  }

  /** `t` occurs in `s`: it is a prefix of some suffix of `s`. */
  ghost predicate IsSubstring(t: string, s: string) {
    exists a :: 0 <= a <= |s| && t <= s[a..]
  }

  /** End of the longest digit run of `u` that starts at `i`. */
  function DigitRunEnd(u: string, i: nat): (j: nat)
    requires i <= |u|
    ensures i <= j <= |u|
    ensures forall k :: i <= k < j ==> IsDigit(u[k])
    ensures j == |u| || !IsDigit(u[j])
    decreases |u| - i
  {
    if i < |u| && IsDigit(u[i]) then DigitRunEnd(u, i + 1) else i
  }

  /** Length of the match of `<pat>[0-9]+/log/[0-9]+` at the start of `u`, if there is
      one. The first digit run must be followed by `/`, so backtracking cannot shorten
      it; the second is greedy, so it is as long as it can be. */
  function MatchLen(pat: seq<Sym>, u: string): (r: Option<nat>)
    ensures r.Some? ==> 0 < r.value <= |u| && IsLink(pat, u[..r.value])
    ensures r.Some? ==> r.value == |u| || !IsDigit(u[r.value])
  {
    if !PrefixMatches(pat, u) then None
    else
      var b := DigitRunEnd(u, |pat|);
      if b == |pat| || |u| < b + 5 || u[b..b + 5] != "/log/" then None
      else
        var c := DigitRunEnd(u, b + 5);
        if c == b + 5 then None
        else
          LinkFromRuns(pat, u, b, c);
          Some(c)
  }

  lemma LinkFromRuns(pat: seq<Sym>, u: string, b: nat, c: nat)
    requires PrefixMatches(pat, u) && |pat| < b && b + 5 < c <= |u|
    requires forall k :: |pat| <= k < b ==> IsDigit(u[k])
    requires u[b..b + 5] == "/log/"
    requires forall k :: b + 5 <= k < c ==> IsDigit(u[k])
    ensures IsLink(pat, u[..c])
  {
    var t := u[..c];
    var tail := t[|pat|..];
    assert tail == u[|pat|..c];
    var m := b - |pat|;
    forall k | 0 <= k < |tail| && k != m && k != m + 1 && k != m + 2 && k != m + 3 && k != m + 4
      ensures IsDigit(tail[k])
    {
      assert tail[k] == u[|pat| + k];
    }
    assert tail[m..m + 5] == u[b..b + 5];
    assert AllDigits(tail[..m]);
    assert AllDigits(tail[m + 5..]);
  }

  /** Regular-expression semantics of the match at the start of `u`: whenever some
      prefix of `u` is a link, `MatchLen` reports a match at least as long, and exactly
      that long when the prefix cannot be extended by a digit. With the contract of
      `MatchLen`, this makes its result the longest link prefix of `u`. */
  lemma MatchLenLongest(pat: seq<Sym>, u: string, n: nat)
    requires n <= |u| && IsLink(pat, u[..n])
    ensures MatchLen(pat, u).Some? && n <= MatchLen(pat, u).value
    ensures n == |u| || !IsDigit(u[n]) ==> MatchLen(pat, u) == Some(n)
  {
    var b := LinkPrefixParts(pat, u, n);
    DigitRunExact(u, |pat|, b);
    DigitRunAtLeast(u, b + 5, n);
    if n == |u| || !IsDigit(u[n]) {
      DigitRunExact(u, b + 5, n);
    }
  }

  /** The position of `/log/` in a link tail. */
  lemma TailParts(tail: string) returns (m: nat)
    requires IsLinkTail(tail)
    ensures 0 < m && m + 5 < |tail| && AllDigits(tail[..m]) && tail[m..m + 5] == "/log/" && AllDigits(tail[m + 5..])
  {
    m :| 0 < m && m + 5 < |tail| && AllDigits(tail[..m]) && tail[m..m + 5] == "/log/" && AllDigits(tail[m + 5..]);
  }

  /** The parts of a link prefix `u[..n]`, as positions in `u`. */
  lemma LinkPrefixParts(pat: seq<Sym>, u: string, n: nat) returns (b: nat)
    requires n <= |u| && IsLink(pat, u[..n])
    ensures PrefixMatches(pat, u) && |pat| < b && b + 5 < n
    ensures forall k :: |pat| <= k < b ==> IsDigit(u[k])
    ensures u[b..b + 5] == "/log/"
    ensures forall k :: b + 5 <= k < n ==> IsDigit(u[k])
  {
    var t := u[..n];
    var tail := t[|pat|..];
    var m := TailParts(tail);
    b := |pat| + m;
    forall k | |pat| <= k < b ensures IsDigit(u[k]) {
      assert u[k] == tail[..m][k - |pat|];
    }
    assert tail == u[|pat|..n];
    assert u[b..b + 5] == tail[m..m + 5];
    forall k | b + 5 <= k < n ensures IsDigit(u[k]) {
      assert u[k] == tail[m + 5..][k - b - 5];
    }
  }

  lemma DigitRunAtLeast(u: string, i: nat, j: nat)
    requires i <= j <= |u|
    requires forall k :: i <= k < j ==> IsDigit(u[k])
    ensures j <= DigitRunEnd(u, i)
  {
  }

  lemma DigitRunExact(u: string, i: nat, j: nat)
    requires i <= j <= |u|
    requires forall k :: i <= k < j ==> IsDigit(u[k])
    requires j == |u| || !IsDigit(u[j])
    ensures DigitRunEnd(u, i) == j
  {
  }

  lemma SubstringsOfSuffix(s: string, n: nat)
    requires n <= |s|
    ensures forall t :: IsSubstring(t, s[n..]) ==> IsSubstring(t, s)
  {
    forall t | IsSubstring(t, s[n..]) ensures IsSubstring(t, s) {
      var a :| 0 <= a <= |s[n..]| && t <= s[n..][a..];
      assert s[n..][a..] == s[n + a..];
    }
  }

  /** `re.findall` of the expression over `s`: scanning from the left, a match is
      taken and scanning resumes after it; otherwise scanning moves one character on.
      Every text it returns is a link and occurs in `s`. */
  function FindAll(pat: seq<Sym>, s: string): (r: seq<string>)
    ensures forall t :: t in r ==> IsLink(pat, t) && IsSubstring(t, s)
    decreases |s|
  {
    if |s| == 0 then []
    else
      match MatchLen(pat, s)
      case Some(n) =>
        SubstringsOfSuffix(s, n);
        assert s[..n] <= s[0..];
        [s[..n]] + FindAll(pat, s[n..])
      case None =>
        SubstringsOfSuffix(s, 1);
        FindAll(pat, s[1..])
  }

  /** Where the match that starts at position `i` of `s` ends (`i` when there is none). */
  function Reach(pat: seq<Sym>, s: string, i: nat): nat
    requires i <= |s|
  {
    match MatchLen(pat, s[i..])
    case Some(n) => i + n
    case None => i
  }

  /** No match that starts before position `a` of `s` reaches past `a`. */
  predicate Unobstructed(pat: seq<Sym>, s: string, a: nat) {
    forall i :: 0 <= i < a && i <= |s| ==> Reach(pat, s, i) <= a
  }

  /** Leftmost, non-overlapping search: a link `t` at position `a` of `s` that no match
      begun earlier reaches into, and that cannot be extended by a digit, is among the
      results. */
  lemma {:induction false} FindAllReports(pat: seq<Sym>, s: string, t: string, a: nat)
    requires IsLink(pat, t) && a + |t| <= |s| && s[a..a + |t|] == t
    requires a + |t| == |s| || !IsDigit(s[a + |t|])
    requires Unobstructed(pat, s, a)
    ensures t in FindAll(pat, s)
    decreases |s|, 1
  {
    if a == 0 {
      LinkNonEmpty(pat, t);
      assert s[..|t|] == t;
      FindAllReportsFirst(pat, s, |t|);
    } else {
      FindAllReportsLater(pat, s, t, a);
    }
  }

  lemma {:induction false} FindAllReportsLater(pat: seq<Sym>, s: string, t: string, a: nat)
    requires IsLink(pat, t) && 0 < a && a + |t| <= |s| && s[a..a + |t|] == t
    requires a + |t| == |s| || !IsDigit(s[a + |t|])
    requires Unobstructed(pat, s, a)
    ensures t in FindAll(pat, s)
    decreases |s|, 0
  {
    var step := ScanStep(pat, s);
    StepWithinGap(pat, s, a, step);
    SliceShift(s, t, step, a);
    ObstaclesShift(pat, s, a, step);
    FindAllReports(pat, s[step..], t, a - step);
  }

  lemma SliceShift(s: string, t: string, step: nat, a: nat)
    requires step <= a && a + |t| <= |s| && s[a..a + |t|] == t
    ensures s[step..][a - step..a - step + |t|] == t
    ensures a + |t| < |s| ==> s[step..][a - step + |t|] == s[a + |t|]
  {
    assert s[step..][a - step..a - step + |t|] == s[a..a + |t|];
  }

  lemma LinkNonEmpty(pat: seq<Sym>, t: string)
    requires IsLink(pat, t)
    ensures |pat| + 7 <= |t|
  {
  }

  lemma FindAllReportsFirst(pat: seq<Sym>, s: string, b: nat)
    requires 0 < b <= |s| && IsLink(pat, s[..b]) && (b == |s| || !IsDigit(s[b]))
    ensures s[..b] in FindAll(pat, s)
  {
    MatchLenLongest(pat, s, b);
    var _ := FindAllUnfold(pat, s);
  }

  lemma StepWithinGap(pat: seq<Sym>, s: string, a: nat, step: nat)
    requires 0 < a <= |s| && 0 < step
    requires MatchLen(pat, s).Some? ==> step == MatchLen(pat, s).value
    requires MatchLen(pat, s).None? ==> step == 1
    requires Unobstructed(pat, s, a)
    ensures step <= a
  {
    assert s[0..] == s;
    assert Reach(pat, s, 0) <= a;
  }

  /** The length one step of the scan consumes; what the later scan finds is found. */
  lemma ScanStep(pat: seq<Sym>, s: string) returns (step: nat)
    requires |s| > 0
    ensures 0 < step <= |s|
    ensures MatchLen(pat, s).Some? ==> step == MatchLen(pat, s).value
    ensures MatchLen(pat, s).None? ==> step == 1
    ensures forall t :: t in FindAll(pat, s[step..]) ==> t in FindAll(pat, s)
  {
    step := FindAllUnfold(pat, s);
  }

  /** Proof helper: the definition of `FindAll` at a nonempty page, with the length of
      the step named. */
  lemma FindAllUnfold(pat: seq<Sym>, s: string) returns (step: nat)
    requires |s| > 0
    ensures 0 < step <= |s|
    ensures MatchLen(pat, s).Some? ==> step == MatchLen(pat, s).value && FindAll(pat, s) == [s[..step]] + FindAll(pat, s[step..])
    ensures MatchLen(pat, s).None? ==> step == 1 && FindAll(pat, s) == FindAll(pat, s[1..])
  {
    step := if MatchLen(pat, s).Some? then MatchLen(pat, s).value else 1;
  }

  /** `t` occurs at position `a` of `s`, and no digit follows it there. */
  predicate UnextendedAt(t: string, s: string, a: nat) {
    a + |t| <= |s| && s[a..a + |t|] == t && (a + |t| == |s| || !IsDigit(s[a + |t|]))
  }

  /** `t` occurs in `s` at a place where no digit follows it. */
  ghost predicate OccursUnextended(t: string, s: string) {
    exists a: nat :: UnextendedAt(t, s, a)
  }

  /** Each text `re.findall` returns occurs in the page where it cannot be extended by a
      digit: the scan never reports a cut-off workout number. */
  lemma {:induction false} FindAllUnextended(pat: seq<Sym>, s: string)
    ensures forall t :: t in FindAll(pat, s) ==> OccursUnextended(t, s)
    decreases |s|
  {
    if |s| > 0 {
      var step := FindAllUnfold(pat, s);
      FindAllUnextended(pat, s[step..]);
      forall t | t in FindAll(pat, s) ensures OccursUnextended(t, s) {
        if MatchLen(pat, s).Some? && t == s[..step] {
          assert UnextendedAt(t, s, 0);
        } else {
          UnextendedInSuffix(t, s, step);
        }
      }
    }
  }

  lemma UnextendedInSuffix(t: string, s: string, k: nat)
    requires k <= |s| && OccursUnextended(t, s[k..])
    ensures OccursUnextended(t, s)
  {
    var a: nat :| UnextendedAt(t, s[k..], a);
    assert s[k + a..k + a + |t|] == s[k..][a..a + |t|];
    assert UnextendedAt(t, s, k + a);
  }

  lemma ObstaclesShift(pat: seq<Sym>, s: string, a: nat, step: nat)
    requires 0 < step <= a <= |s|
    requires Unobstructed(pat, s, a)
    ensures Unobstructed(pat, s[step..], a - step)
  {
    forall i | 0 <= i < a - step && i <= |s[step..]|
      ensures Reach(pat, s[step..], i) <= a - step
    {
      assert s[step..][i..] == s[step + i..];
      assert Reach(pat, s, step + i) <= a;
    }
  }

  /** A link followed by anything that does not continue its digits is found first,
      and scanning resumes right after it. */
  lemma FindAllLinkFirst(pat: seq<Sym>, t: string, rest: string)
    requires IsLink(pat, t) && (|rest| == 0 || !IsDigit(rest[0]))
    ensures FindAll(pat, t + rest) == [t] + FindAll(pat, rest)
  {
    var s := t + rest;
    assert s[..|t|] == t;
    MatchLenLongest(pat, s, |t|);
    assert s[|t|..] == rest;
  }

  /** A character that cannot start the expression is skipped. */
  lemma FindAllSkips(pat: seq<Sym>, c: char, rest: string)
    requires |pat| > 0 && !SymMatches(pat[0], c)
    ensures FindAll(pat, [c] + rest) == FindAll(pat, rest)
  {
    var s := [c] + rest;
    assert MatchLen(pat, s) == None;
    assert s[1..] == rest;
  }

  /** A prefix made of literals matches exactly the text it spells. */
  lemma LiteralPrefix(w: string, u: string)
    ensures PrefixMatches(Literal(w), u) <==> |w| <= |u| && u[..|w|] == w
  {
    if |w| <= |u| && u[..|w|] == w {
      forall k | 0 <= k < |w| ensures SymMatches(Literal(w)[k], u[k]) {
        assert u[k] == u[..|w|][k];
      }
    }
  }

  /** Under the intended pattern a link is the host prefix, a profile number,
      `/log/` and a workout number. */
  lemma IntendedLinkParts(t: string) returns (profile: string, workout: string)
    requires IsLink(IntendedPattern, t)
    ensures t == HostPrefix + profile + "/log/" + workout
    ensures |profile| > 0 && AllDigits(profile) && |workout| > 0 && AllDigits(workout)
  {
    profile, workout := LiteralLinkParts(HostPrefix, t);
  }

  /** Under any form of the expression a link is a text the host part matches, a
      profile number, `/log/` and a workout number. */
  lemma LinkParts(pat: seq<Sym>, t: string) returns (host: string, profile: string, workout: string)
    requires IsLink(pat, t)
    ensures t == host + profile + "/log/" + workout && |host| == |pat| && PrefixMatches(pat, host)
    ensures |profile| > 0 && AllDigits(profile) && |workout| > 0 && AllDigits(workout)
  {
    host := t[..|pat|];
    var tail := t[|pat|..];
    var m := TailParts(tail);
    profile, workout := tail[..m], tail[m + 5..];
    assert tail == tail[..m] + tail[m..m + 5] + tail[m + 5..];
    assert t == host + tail;
    assert forall k :: 0 <= k < |pat| ==> host[k] == t[k];
  }

  lemma LiteralLinkParts(w: string, t: string) returns (profile: string, workout: string)
    requires IsLink(Literal(w), t)
    ensures t == w + profile + "/log/" + workout
    ensures |profile| > 0 && AllDigits(profile) && |workout| > 0 && AllDigits(workout)
  {
    LiteralPrefix(w, t);
    var tail := t[|w|..];
    var m := TailParts(tail);
    profile, workout := tail[..m], tail[m + 5..];
    assert tail == tail[..m] + tail[m..m + 5] + tail[m + 5..];
    assert t == t[..|w|] + tail;
  }

  /** Conversely, every text of that shape is a link under the intended pattern. */
  lemma PartsAreIntendedLink(profile: string, workout: string)
    requires |profile| > 0 && AllDigits(profile) && |workout| > 0 && AllDigits(workout)
    ensures IsLink(IntendedPattern, HostPrefix + profile + "/log/" + workout)
  {
    var t := HostPrefix + profile + "/log/" + workout;
    var n := |HostPrefix|;
    assert t[..n] == HostPrefix;
    LiteralPrefix(HostPrefix, t);
    var tail := t[n..];
    var m := |profile|;
    assert tail == profile + "/log/" + workout;
    assert tail[..m] == profile;
    assert tail[m..m + 5] == "/log/";
    assert tail[m + 5..] == workout;
  }

  /** Every link of the intended pattern contains the dot of the host name, so a page
      without a dot has no link. */
  lemma IntendedLinksNeedDot(s: string)
    ensures FindAll(IntendedPattern, s) != [] ==> '.' in s
  {
    var r := FindAll(IntendedPattern, s);
    if r != [] {
      DotInLink(r[0], s);
    }
  }

  lemma DotInLink(t: string, s: string)
    requires IsLink(IntendedPattern, t) && IsSubstring(t, s)
    ensures '.' in s
  {
    LiteralPrefix(HostPrefix, t);
    assert t[11] == t[..|HostPrefix|][11] == '.';
    var a :| 0 <= a <= |s| && t <= s[a..];
    assert s[a + 11] == s[a..][11] == t[11];
  }

  /** Two prefixes side by side match two texts side by side. */
  lemma PrefixMatchesConcat(p1: seq<Sym>, p2: seq<Sym>, u1: string, u2: string)
    requires |p1| == |u1| && PrefixMatches(p1, u1) && PrefixMatches(p2, u2)
    ensures PrefixMatches(p1 + p2, u1 + u2)
  {
    forall k | 0 <= k < |p1 + p2| ensures SymMatches((p1 + p2)[k], (u1 + u2)[k]) {
      if k >= |p1| {
        assert (p1 + p2)[k] == p2[k - |p1|];
        assert (u1 + u2)[k] == u2[k - |p1|];
      }
    }
  }

  /** A host that only resembles the service's: a letter where each dot belongs. */
  const Lookalike: string := "https://log" + "X" + "concept2" + "Y" + "com/profile/" + "1/log/2"

  /** The pattern as written reports the lookalike link as a workout; the intended
      pattern does not. */
  lemma WrittenPatternAcceptsLookalike()
    ensures FindAll(WrittenPattern, Lookalike) == [Lookalike]
    ensures FindAll(IntendedPattern, Lookalike) == []
  {
    LookalikeIsWrittenLink();
    FindAllSingle(WrittenPattern, Lookalike);
    LookalikeHasNoDot();
    IntendedLinksNeedDot(Lookalike);
  }

  lemma LookalikeIsWrittenLink()
    ensures IsLink(WrittenPattern, Lookalike)
  {
    var host := "https://log" + "X" + "concept2" + "Y" + "com/profile/";
    LookalikeHost(host);
    assert Lookalike == host + "1/log/2";
    assert Lookalike[..|host|] == host;
    assert PrefixMatches(WrittenPattern, Lookalike);
    var tail := Lookalike[|WrittenPattern|..];
    assert tail == "1/log/2";
    assert tail[..1] == "1" && tail[1..6] == "/log/" && tail[6..] == "2";
    assert IsLinkTail(tail);
  }

  lemma LookalikeHost(host: string)
    requires host == "https://log" + "X" + "concept2" + "Y" + "com/profile/"
    ensures |host| == |WrittenPattern| && PrefixMatches(WrittenPattern, host)
  {
    LiteralPrefix("https://log", "https://log");
    LiteralPrefix("concept2", "concept2");
    LiteralPrefix("com/profile/", "com/profile/");
    PrefixMatchesConcat(Literal("https://log"), [AnyButNewline], "https://log", "X");
    PrefixMatchesConcat(Literal("https://log") + [AnyButNewline], Literal("concept2"), "https://log" + "X", "concept2");
    PrefixMatchesConcat(Literal("https://log") + [AnyButNewline] + Literal("concept2"), [AnyButNewline],
      "https://log" + "X" + "concept2", "Y");
    PrefixMatchesConcat(Literal("https://log") + [AnyButNewline] + Literal("concept2") + [AnyButNewline], Literal("com/profile/"),
      "https://log" + "X" + "concept2" + "Y", "com/profile/");
  }

  lemma LookalikeHasNoDot()
    ensures '.' !in Lookalike
  {
  }

  /** A page that is exactly one link yields that link. */
  lemma FindAllSingle(pat: seq<Sym>, t: string)
    requires IsLink(pat, t)
    ensures FindAll(pat, t) == [t]
  {
    FindAllLinkFirst(pat, t, "");
    assert t + "" == t;
  }

  /** The expression cannot begin at a space. */
  predicate SkipsSpace(pat: seq<Sym>) {
    |pat| > 0 && !SymMatches(pat[0], ' ')
  }

  /** Both forms of the expression begin with the literal `h`. */
  lemma PatternsSkipSpace()
    ensures SkipsSpace(WrittenPattern) && SkipsSpace(IntendedPattern)
  {
    assert WrittenPattern[0] == Literal("https://log")[0] == Lit('h');
    assert IntendedPattern[0] == Lit('h');
  }

  /** A link, a space and the rest of the page: the link comes first, then whatever the
      rest yields. */
  lemma FindAllLinkSpace(pat: seq<Sym>, t: string, rest: string)
    requires SkipsSpace(pat) && IsLink(pat, t)
    ensures FindAll(pat, t + " " + rest) == [t] + FindAll(pat, rest)
  {
    var u := " " + rest;
    SpaceFirst(t, rest, u, t + " " + rest);
    FindAllLinkFirst(pat, t, u);
    FindAllSkips(pat, ' ', rest);
  }

  lemma SpaceFirst(t: string, rest: string, u: string, s: string)
    requires u == " " + rest && s == t + " " + rest
    ensures s == t + u && u == [' '] + rest && |u| > 0 && !IsDigit(u[0])
  {
  }

  /** The links on one season page: the distinct matches of the expression `pat`. */
  function LinkSet(pat: seq<Sym>, html: string): set<string> {
    set t | t in FindAll(pat, html)
  }

  /** `collectTraining` once the season page is fetched: the matches are appended to a
      list one by one and the list is turned into a set. The program passes
      `WrittenPattern`, the expression as compiled at line 40. */
  method CollectTraining(pat: seq<Sym>, htmlSeason: string) returns (links: set<string>)
    ensures links == LinkSet(pat, htmlSeason)
    ensures forall t :: t in links ==> IsLink(pat, t) && IsSubstring(t, htmlSeason)
  {
    var matchResult := FindAll(pat, htmlSeason);
    var listWorkouts: seq<string> := [];
    for i := 0 to |matchResult|
      invariant listWorkouts == matchResult[..i]
    {
      listWorkouts := listWorkouts + [matchResult[i]];
    }
    assert listWorkouts == matchResult;
    links := set t | t in listWorkouts;
  }

  /** A page holding the same link twice yields that link once. */
  lemma DuplicateLinkCollapses(pat: seq<Sym>, t: string)
    requires SkipsSpace(pat) && IsLink(pat, t)
    ensures FindAll(pat, t + " " + t) == [t, t]
    ensures LinkSet(pat, t + " " + t) == {t}
  {
    FindAllLinkSpace(pat, t, t);
    FindAllSingle(pat, t);
  }

  /** The links, each followed by a space. */
  function Spaced(links: seq<string>): string
    decreases |links|
  {
    if |links| == 0 then "" else links[0] + " " + Spaced(links[1..])
  }

  /** Scanning a page made of links, one after another with a space between, finds
      exactly those links in that order. */
  lemma {:induction false} RescanFindsSame(pat: seq<Sym>, links: seq<string>)
    requires SkipsSpace(pat) && forall t :: t in links ==> IsLink(pat, t)
    ensures FindAll(pat, Spaced(links)) == links
    decreases |links|
  {
    if |links| > 0 {
      var t := links[0];
      var rest := Spaced(links[1..]);
      FindAllLinkSpace(pat, t, rest);
      RescanFindsSame(pat, links[1..]);
      assert links == [t] + links[1..];
    }
  }

  /** The scanner is idempotent: rescanning what it found finds the same set. */
  lemma RescanIdempotent(pat: seq<Sym>, html: string)
    requires SkipsSpace(pat)
    ensures LinkSet(pat, Spaced(FindAll(pat, html))) == LinkSet(pat, html)
  {
    RescanFindsSame(pat, FindAll(pat, html));
  }
}
