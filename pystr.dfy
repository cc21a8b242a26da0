/** The few Python string and path operations the script relies on:
    `str.split("/")`, `str(int)` and `os.path.join` on POSIX. */
module PyStr {

  /** The character class `[0-9]` of a Python regular expression (ASCII digits only). */
  predicate IsDigit(c: char) {
    '0' <= c <= '9'
  }

  predicate AllDigits(s: string) {
    forall k :: 0 <= k < |s| ==> IsDigit(s[k])
  }

  /** Number of occurrences of `c` in `s`. */
  function Occurrences(c: char, s: string): nat
    decreases |s|
  {
    if |s| == 0 then 0 else (if s[0] == c then 1 else 0) + Occurrences(c, s[1..])
  }

  /** Python `s.split("/")`: the pieces between the slashes, so there is always one
      more piece than there are slashes and no piece holds a slash. */
  function Split(s: string): (r: seq<string>)
    ensures |r| == Occurrences('/', s) + 1
    ensures forall k :: 0 <= k < |r| ==> '/' !in r[k]
    decreases |s|
  {
    if |s| == 0 then [""]
    else
      var rest := Split(s[1..]);
      if s[0] == '/' then [""] + rest
      else [[s[0]] + rest[0]] + rest[1..]
  }

  /** Python `"/".join(segments)`. */
  function Join(segments: seq<string>): string
    decreases |segments|
  {
    if |segments| == 0 then ""
    else if |segments| == 1 then segments[0]
    else segments[0] + "/" + Join(segments[1..])
  }

  /** Splitting at the slashes loses nothing: joining the pieces gives the string back. */
  lemma {:induction false} JoinSplit(s: string)
    ensures Join(Split(s)) == s
    decreases |s|
  {
    if |s| > 0 {
      var rest := Split(s[1..]);
      JoinSplit(s[1..]);
      if s[0] == '/' {
        assert Split(s) == [""] + rest;
        assert ([""] + rest)[1..] == rest;
      } else if |rest| == 1 {
        assert Split(s) == [[s[0]] + rest[0]];
        assert s == [s[0]] + s[1..];
      } else {
        assert Split(s) == [[s[0]] + rest[0]] + rest[1..];
        assert ([[s[0]] + rest[0]] + rest[1..])[1..] == rest[1..];
        assert Join(rest) == rest[0] + "/" + Join(rest[1..]);
        assert s == [s[0]] + s[1..];
      }
    }
  }

  /** A string without a slash is a single piece. */
  lemma {:induction false} SplitWithoutSlash(s: string)
    requires '/' !in s
    ensures Split(s) == [s]
    decreases |s|
  {
    if |s| > 0 {
      assert s[0] != '/';
      assert '/' !in s[1..] by {
        forall k | 0 <= k < |s[1..]| ensures s[1..][k] != '/' {
          assert s[1..][k] == s[k + 1];
        }
      }
      SplitWithoutSlash(s[1..]);
      assert s == [s[0]] + s[1..];
    }
  }

  /** Splitting at a slash splits the two sides independently. */
  lemma {:induction false} SplitAround(a: string, b: string)
    ensures Split(a + "/" + b) == Split(a) + Split(b)
    decreases |a|
  {
    var s := a + "/" + b;
    if |a| == 0 {
      assert s == ['/'] + b;
      assert s[1..] == b;
      assert Split(s) == [""] + Split(b);
    } else {
      assert s[0] == a[0];
      assert s[1..] == a[1..] + "/" + b;
      SplitAround(a[1..], b);
      SplitStep(s, a, Split(a[1..]), Split(b));
    }
  }

  /** Two slash-free pieces after a slash each add one piece to the split. */
  lemma SplitTwoMore(front: string, a: string, b: string)
    requires '/' !in a && '/' !in b
    ensures Split(front + "/" + a + "/" + b) == Split(front) + [a, b]
  {
    assert front + "/" + a + "/" + b == front + "/" + (a + "/" + b);
    SplitAround(front, a + "/" + b);
    SplitAround(a, b);
    SplitWithoutSlash(a);
    SplitWithoutSlash(b);
  }

  /** One unfolding of `Split` on both sides of the equation in `SplitAround`. */
  lemma SplitStep(s: string, a: string, restA: seq<string>, tailB: seq<string>)
    requires |a| > 0 && |s| > 0 && s[0] == a[0]
    requires |restA| > 0 && restA == Split(a[1..])
    requires Split(s[1..]) == restA + tailB
    ensures Split(s) == Split(a) + tailB
  {
    if a[0] != '/' {
      SplitStepPlain(s, a, restA, tailB);
    } else {
      SplitStepSlash(s, a, restA, tailB);
    }
  }

  lemma SplitStepPlain(s: string, a: string, restA: seq<string>, tailB: seq<string>)
    requires |a| > 0 && |s| > 0 && s[0] == a[0] && a[0] != '/'
    requires |restA| > 0 && restA == Split(a[1..])
    requires Split(s[1..]) == restA + tailB
    ensures Split(s) == Split(a) + tailB
  {
    SplitPlainLonger(s, a, restA, tailB);
    SplitPlainShort(a, restA);
    ConsAssoc(Split(s), Split(a), [a[0]] + restA[0], restA, tailB);
  }

  lemma SplitStepSlash(s: string, a: string, restA: seq<string>, tailB: seq<string>)
    requires |a| > 0 && |s| > 0 && s[0] == a[0] && a[0] == '/'
    requires |restA| > 0 && restA == Split(a[1..])
    requires Split(s[1..]) == restA + tailB
    ensures Split(s) == Split(a) + tailB
  {
    SplitSlashStep(s, restA + tailB);
    SplitSlashStep(a, restA);
    ConsAssocEmpty(Split(s), Split(a), restA, tailB);
  }

  lemma SplitPlainLonger(s: string, a: string, restA: seq<string>, tailB: seq<string>)
    requires |a| > 0 && |s| > 0 && s[0] == a[0] && a[0] != '/'
    requires |restA| > 0 && Split(s[1..]) == restA + tailB
    ensures Split(s) == [[a[0]] + restA[0]] + (restA + tailB)[1..]
  {
    assert (restA + tailB)[0] == restA[0];
    SplitPlainStep(s, restA + tailB, [a[0]] + restA[0]);
  }

  lemma SplitPlainShort(a: string, restA: seq<string>)
    requires |a| > 0 && a[0] != '/'
    requires |restA| > 0 && restA == Split(a[1..])
    ensures Split(a) == [[a[0]] + restA[0]] + restA[1..]
  {
    SplitPlainStep(a, restA, [a[0]] + restA[0]);
  }

  lemma ConsAssoc(rs: seq<string>, ra: seq<string>, head: string, restA: seq<string>, tailB: seq<string>)
    requires |restA| > 0
    requires rs == [head] + (restA + tailB)[1..] && ra == [head] + restA[1..]
    ensures rs == ra + tailB
  {
    assert (restA + tailB)[1..] == restA[1..] + tailB;
  }

  lemma ConsAssocEmpty(rs: seq<string>, ra: seq<string>, restA: seq<string>, tailB: seq<string>)
    requires rs == [""] + (restA + tailB) && ra == [""] + restA
    ensures rs == ra + tailB
  {
  }

  lemma SplitPlainStep(s: string, rest: seq<string>, head: string)
    requires |s| > 0 && s[0] != '/' && rest == Split(s[1..]) && head == [s[0]] + rest[0]
    ensures Split(s) == [head] + rest[1..]
  {
  }

  lemma SplitSlashStep(s: string, rest: seq<string>)
    requires |s| > 0 && s[0] == '/' && rest == Split(s[1..])
    ensures Split(s) == [""] + rest
  {
  }

  /** The decimal digit for `d` in 0..9. */
  function DigitChar(d: nat): (c: char)
    requires d < 10
    ensures IsDigit(c)
  {
    (48 + d) as char
  }

  /** Python `str(n)` for a natural number: decimal, no leading zero. */
  function NatToStr(n: nat): (r: string)
    ensures |r| > 0 && AllDigits(r)
    ensures |r| > 1 ==> r[0] != '0'
    decreases n
  {
    if n < 10 then [DigitChar(n)] else NatToStr(n / 10) + [DigitChar(n % 10)]
  }

  /** The value of a decimal numeral. */
  function ParseNat(s: string): nat
    requires AllDigits(s)
    decreases |s|
  {
    if |s| == 0 then 0
    else ParseNat(s[..|s| - 1]) * 10 + ((s[|s| - 1] as int) - 48)
  }

  /** The numeral `str(n)` reads back as `n`. */
  lemma {:induction false} ParseNatToStr(n: nat)
    ensures ParseNat(NatToStr(n)) == n
    decreases n
  {
    if n >= 10 {
      var r := NatToStr(n);
      assert r[..|r| - 1] == NatToStr(n / 10);
      ParseNatToStr(n / 10);
    }
  }

  /** Python `str(n)` for an integer: a minus sign before the digits of a negative one. */
  function IntToStr(n: int): (r: string)
    ensures n >= 0 ==> AllDigits(r) && ParseNat(r) == n
    ensures n < 0 ==> |r| > 1 && r[0] == '-' && AllDigits(r[1..]) && ParseNat(r[1..]) == -n
    ensures n >= 0 ==> |r| > 0 && (|r| > 1 ==> r[0] != '0')
    ensures n < 0 ==> |r| > 2 ==> r[1] != '0'
  {
    ParseNatToStr(if n < 0 then -n else n);
    if n < 0 then "-" + NatToStr(-n) else NatToStr(n)
  }

  /** Python `os.path.join(a, b)` on POSIX: an absolute `b` replaces `a`; otherwise a
      slash is put between them unless `a` is empty or already ends with one. */
  function PathJoin(a: string, b: string): (r: string)
    ensures |b| <= |r| && r[|r| - |b|..] == b
    ensures |b| > 0 && b[0] == '/' ==> r == b
    ensures !(|b| > 0 && b[0] == '/') ==> |a| <= |r| && r[..|a|] == a
    ensures !(|b| > 0 && b[0] == '/') && |a| > 0 && a[|a| - 1] != '/' ==> r == a + "/" + b
    ensures !(|b| > 0 && b[0] == '/') && (|a| == 0 || a[|a| - 1] == '/') ==> r == a + b
  {
    if |b| > 0 && b[0] == '/' then b
    else if |a| == 0 || a[|a| - 1] == '/' then a + b
    else a + "/" + b
  }
}
