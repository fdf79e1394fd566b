/**
  AWS ECR registry coordinates (`AwsEcrInformation` in
  src/docker/dist_target.rs): a recogniser for the anchored pattern

    (digits) ".dkr.ecr." (region) ANY "amazonaws" ANY "com/" (repository)

  where ANY is one character other than a line feed (the two dots of
  `.amazonaws.com` are not escaped in the source pattern), and a printer.
 */
module Ecr {
  import opened Maybe

  datatype EcrInformation = EcrInformation(accountId: string, region: string, repositoryName: string)

  /** `\d`, restricted to ASCII digits. */
  predicate IsDigit(c: char) { '0' <= c <= '9' }

  /** `[a-z0-9-]` */
  predicate IsRegionChar(c: char) { 'a' <= c <= 'z' || '0' <= c <= '9' || c == '-' }

  /** `[a-zA-Z0-9-_/]`: letters, digits, `-`, `_` and `/`. */
  predicate IsRepositoryChar(c: char)
  {
    'a' <= c <= 'z' || 'A' <= c <= 'Z' || '0' <= c <= '9' || c == '-' || c == '_' || c == '/'
  }

  /** An unescaped `.`: any character except a line feed. */
  predicate IsWildcard(c: char) { c != '\n' }

  predicate AllDigits(s: string) { forall i :: 0 <= i < |s| ==> IsDigit(s[i]) }
  predicate AllRegionChars(s: string) { forall i :: 0 <= i < |s| ==> IsRegionChar(s[i]) }
  predicate AllRepositoryChars(s: string) { forall i :: 0 <= i < |s| ==> IsRepositoryChar(s[i]) }

  /** Each capture is a non-empty run of its character class. */
  predicate Valid(c: EcrInformation)
  {
    && |c.accountId| > 0 && AllDigits(c.accountId)
    && |c.region| > 0 && AllRegionChars(c.region)
    && |c.repositoryName| > 0 && AllRepositoryChars(c.repositoryName)
  }

  /** What follows the region in a match: `x` "amazonaws" `y` "com/" and the repository. */
  function Tail(x: char, y: char, repositoryName: string): string
  {
    [x] + "amazonaws" + [y] + "com/" + repositoryName
  }

  /** The text the pattern matches with captures `c` and `x`, `y` at the two wildcards. */
  function Spell(c: EcrInformation, x: char, y: char): string
  {
    c.accountId + ".dkr.ecr." + (c.region + Tail(x, y, c.repositoryName))
  }

  /** `s` matches the whole pattern with `c` as its three captures. */
  ghost predicate Matches(s: string, c: EcrInformation)
  {
    Valid(c) && exists x, y | IsWildcard(x) && IsWildcard(y) :: s == Spell(c, x, y)
  }

  /** `impl Display for AwsEcrInformation`. */
  function Format(c: EcrInformation): (s: string)
    ensures s == Spell(c, '.', '.')
  {
    assert ".amazonaws.com/" + c.repositoryName == Tail('.', '.', c.repositoryName);
    c.accountId + ".dkr.ecr." + c.region + ".amazonaws.com/" + c.repositoryName
  }

  // ----- The recogniser -----

  /** Length of the longest prefix of digits. */
  function DigitRun(s: string): (n: nat)
    ensures n <= |s| && AllDigits(s[..n])
    ensures n < |s| ==> !IsDigit(s[n])
  {
    if |s| > 0 && IsDigit(s[0]) then
      var n := 1 + DigitRun(s[1..]);
      assert s[..n] == [s[0]] + s[1..][..n - 1];
      n
    else 0
  }

  /** Length of the longest prefix of region characters. */
  function RegionRun(s: string): (n: nat)
    ensures n <= |s| && AllRegionChars(s[..n])
    ensures n < |s| ==> !IsRegionChar(s[n])
  {
    if |s| > 0 && IsRegionChar(s[0]) then
      var n := 1 + RegionRun(s[1..]);
      assert s[..n] == [s[0]] + s[1..][..n - 1];
      n
    else 0
  }

  /** What the pattern needs after the region: `ANY "amazonaws" ANY "com/" repository $`. */
  predicate TailMatches(t: string)
  {
    && |t| > 15
    && IsWildcard(t[0]) && t[1..10] == "amazonaws"
    && IsWildcard(t[10]) && t[11..15] == "com/"
    && AllRepositoryChars(t[15..])
  }

  /**
    The backtracking of the greedy `[a-z0-9-]+`: the longest region length
    in 1..l after which the rest of the pattern matches.
   */
  function LongestRegion(rest: string, l: nat): (r: Option<nat>)
    requires l <= |rest|
    ensures r.Some? ==> 1 <= r.value <= l && TailMatches(rest[r.value..])
    ensures r.Some? ==> forall k :: r.value < k <= l ==> !TailMatches(rest[k..])
    ensures r.None? ==> forall k :: 1 <= k <= l ==> !TailMatches(rest[k..])
  {
    if l == 0 then None
    else if TailMatches(rest[l..]) then Some(l)
    else LongestRegion(rest, l - 1)
  }

  /** `AwsEcrInformation::from_string`. */
  function Parse(s: string): Option<EcrInformation>
  {
    var n := DigitRun(s);
    if n == 0 || |s| < n + 9 || s[n..n + 9] != ".dkr.ecr." then None
    else
      var rest := s[n + 9..];
      match LongestRegion(rest, RegionRun(rest))
      case None => None
      case Some(l) => Some(EcrInformation(s[..n], rest[..l], rest[l + 15..]))
  }

  // ----- What the recogniser computes -----

  lemma TailLayout(x: char, y: char, p: string)
    ensures var t := Tail(x, y, p);
      && |t| == 15 + |p| && t[0] == x && t[1..10] == "amazonaws" && t[10] == y
      && t[11..15] == "com/" && t[15..] == p
    ensures TailMatches(Tail(x, y, p)) <==> IsWildcard(x) && IsWildcard(y) && |p| > 0 && AllRepositoryChars(p)
  {
    var t := Tail(x, y, p);
    assert t == ([x] + "amazonaws" + [y] + "com/") + p;
  }

  lemma TailOfMatch(t: string)
    requires TailMatches(t)
    ensures t == Tail(t[0], t[10], t[15..])
  {
    assert t == [t[0]] + t[1..10] + [t[10]] + t[11..15] + t[15..];
  }

  lemma DigitRunIs(s: string, n: nat)
    requires n < |s| && AllDigits(s[..n]) && !IsDigit(s[n])
    ensures DigitRun(s) == n
  {
  }

  lemma {:induction false} RegionRunAtLeast(s: string, n: nat)
    requires n <= |s| && AllRegionChars(s[..n])
    ensures n <= RegionRun(s)
  {
    if n > 0 {
      assert IsRegionChar(s[..n][0]);
      assert s[1..][..n - 1] == s[..n][1..];
      RegionRunAtLeast(s[1..], n - 1);
    }
  }

  lemma RegionRunIs(s: string, n: nat)
    requires n < |s| && AllRegionChars(s[..n]) && !IsRegionChar(s[n])
    ensures RegionRun(s) == n
  {
    RegionRunAtLeast(s, n);
  }

  /** The account and the fixed `.dkr.ecr.` in front of the rest of the input. */
  lemma HostLayout(a: string, rest: string)
    requires |a| > 0 && AllDigits(a)
    ensures var s := a + ".dkr.ecr." + rest; var n := |a|;
      && |s| >= n + 9 && DigitRun(s) == n
      && s[..n] == a && s[n..n + 9] == ".dkr.ecr." && s[n + 9..] == rest
  {
    var s := a + ".dkr.ecr." + rest;
    var n := |a|;
    assert s == a + (".dkr.ecr." + rest);
    assert s[..n] == a;
    assert s[n..n + 9] == ".dkr.ecr.";
    assert s[n + 9..] == rest;
    assert s[n] == '.';
    DigitRunIs(s, n);
  }

  /** How a match lays out its input: this is where each capture sits. */
  lemma MatchLayout(s: string, c: EcrInformation)
    requires Matches(s, c)
    ensures var n := |c.accountId|;
      && |s| >= n + 9 && DigitRun(s) == n && s[..n] == c.accountId && s[n..n + 9] == ".dkr.ecr."
      && var rest := s[n + 9..];
      && |rest| > |c.region| + 15
      && rest[..|c.region|] == c.region
      && TailMatches(rest[|c.region|..])
      && rest[|c.region| + 15..] == c.repositoryName
      && |c.region| <= RegionRun(rest)
  {
    var x, y :| IsWildcard(x) && IsWildcard(y) && s == Spell(c, x, y);
    var t := Tail(x, y, c.repositoryName);
    var rest := c.region + t;
    HostLayout(c.accountId, rest);
    TailLayout(x, y, c.repositoryName);
    assert rest[..|c.region|] == c.region;
    assert rest[|c.region|..] == t;
    assert rest[|c.region| + 15..] == t[15..];
    RegionRunAtLeast(rest, |c.region|);
  }

  /** Two matches whose regions have the same length are the same match. */
  lemma MatchesUnique(s: string, c1: EcrInformation, c2: EcrInformation)
    requires Matches(s, c1) && Matches(s, c2) && |c1.region| == |c2.region|
    ensures c1 == c2
  {
    MatchLayout(s, c1);
    MatchLayout(s, c2);
  }

  /** What `Parse` returns, position by position. */
  lemma ParseLayout(s: string)
    requires Parse(s).Some?
    ensures var n := DigitRun(s); var c := Parse(s).value;
      && n > 0 && |s| >= n + 9 && s[n..n + 9] == ".dkr.ecr."
      && var rest := s[n + 9..]; var l := |c.region|;
      && LongestRegion(rest, RegionRun(rest)) == Some(l)
      && c == EcrInformation(s[..n], rest[..l], rest[l + 15..])
  {
  }

  /** An input made of an account, `.dkr.ecr.`, a region and a matching tail is a match. */
  lemma MatchOf(s: string, n: nat, l: nat)
    requires 0 < n && n + 9 <= |s| && AllDigits(s[..n]) && s[n..n + 9] == ".dkr.ecr."
    requires 0 < l <= |s[n + 9..]| && AllRegionChars(s[n + 9..][..l]) && TailMatches(s[n + 9..][l..])
    ensures Matches(s, EcrInformation(s[..n], s[n + 9..][..l], s[n + 9..][l + 15..]))
  {
    var rest := s[n + 9..];
    var c := EcrInformation(s[..n], rest[..l], rest[l + 15..]);
    var t := rest[l..];
    TailOfMatch(t);
    assert t[15..] == c.repositoryName;
    assert rest == c.region + t;
    assert s == s[..n] + s[n..n + 9] + s[n + 9..];
    assert s == Spell(c, t[0], t[10]);
  }

  lemma RegionPrefix(s: string, m: nat, l: nat)
    requires l <= m <= |s| && AllRegionChars(s[..m])
    ensures AllRegionChars(s[..l])
  {
    assert s[..l] == s[..m][..l];
  }

  /** Every value the recogniser returns is a match of the whole input. */
  lemma ParseSound(s: string)
    requires Parse(s).Some?
    ensures Matches(s, Parse(s).value)
  {
    ParseLayout(s);
    var n := DigitRun(s);
    var rest := s[n + 9..];
    var m := RegionRun(rest);
    var l := LongestRegion(rest, m).value;
    RegionPrefix(rest, m, l);
    MatchOf(s, n, l);
  }

  /** The recogniser picks the match with the longest region (the greedy capture). */
  lemma ParseLongest(s: string, c: EcrInformation)
    requires Parse(s).Some? && Matches(s, c)
    ensures |c.region| <= |Parse(s).value.region|
  {
    MatchLayout(s, c);
    var n := DigitRun(s);
    var rest := s[n + 9..];
    var l := LongestRegion(rest, RegionRun(rest)).value;
    assert |Parse(s).value.region| == l;
  }

  /** Whenever the input matches, the recogniser finds a match. */
  lemma ParseComplete(s: string, c: EcrInformation)
    requires Matches(s, c)
    ensures Parse(s).Some?
  {
    MatchLayout(s, c);
  }

  /**
    `from_string` returns `Some(c)` exactly when `c` is the match of the
    whole input whose region is longest.
   */
  lemma ParseIsLongestMatch(s: string, c: EcrInformation)
    ensures Parse(s) == Some(c) <==>
      Matches(s, c) && forall c' :: Matches(s, c') ==> |c'.region| <= |c.region|
  {
    if Parse(s) == Some(c) {
      ParseSound(s);
      forall c' | Matches(s, c') ensures |c'.region| <= |c.region| {
        ParseLongest(s, c');
      }
    }
    if Matches(s, c) && forall c' :: Matches(s, c') ==> |c'.region| <= |c.region| {
      ParseComplete(s, c);
      ParseSound(s);
      ParseLongest(s, c);
      MatchesUnique(s, c, Parse(s).value);
    }
  }

  /** `from_string` returns `None` exactly when the input does not match. */
  lemma ParseNoneIffNoMatch(s: string)
    ensures Parse(s).None? <==> forall c :: !Matches(s, c)
  {
    if Parse(s).Some? {
      ParseSound(s);
    } else {
      forall c ensures !Matches(s, c) {
        if Matches(s, c) { ParseComplete(s, c); }
      }
    }
  }

  /**
    When the first wildcard holds a character that cannot extend the
    region, the region capture is exactly the intended one.
   */
  lemma ParseSpell(c: EcrInformation, x: char, y: char)
    requires Valid(c) && IsWildcard(x) && IsWildcard(y) && !IsRegionChar(x)
    ensures Parse(Spell(c, x, y)) == Some(c)
  {
    var s := Spell(c, x, y);
    var t := Tail(x, y, c.repositoryName);
    var rest := c.region + t;
    HostLayout(c.accountId, rest);
    TailLayout(x, y, c.repositoryName);
    assert rest[..|c.region|] == c.region;
    assert rest[|c.region|] == x;
    RegionRunIs(rest, |c.region|);
    assert Matches(s, c);
    ParseComplete(s, c);
    ParseSound(s);
    var c0 := Parse(s).value;
    MatchLayout(s, c0);
    ParseLongest(s, c);
    MatchesUnique(s, c, c0);
  }

  /** Printing a well-formed coordinate and parsing it back gives it back. */
  lemma ParseFormat(c: EcrInformation)
    requires Valid(c)
    ensures Parse(Format(c)) == Some(c)
  {
    ParseSpell(c, '.', '.');
  }

  /**
    Printing what was parsed reproduces the input exactly when both
    wildcard positions of the input hold a literal `.`.
   */
  lemma FormatParse(s: string)
    requires Parse(s).Some?
    ensures var c := Parse(s).value;
      var i := |c.accountId| + 9 + |c.region|;
      i + 10 < |s| && (Format(c) == s <==> s[i] == '.' && s[i + 10] == '.')
  {
    var c := Parse(s).value;
    ParseSound(s);
    var x, y :| IsWildcard(x) && IsWildcard(y) && s == Spell(c, x, y);
    var i := |c.accountId| + 9 + |c.region|;
    assert s[i] == x && s[i + 10] == y;
    if Format(c) == s {
      assert Spell(c, '.', '.')[i] == '.' && Spell(c, '.', '.')[i + 10] == '.';
    }
  }

  // ----- The unit tests of the source -----
  // The inputs are written as concatenations of short literals,
  // which the verifier indexes far more cheaply than one long literal.

  lemma ExampleValid()
    ensures Parse("550877636976" + ".dkr.ecr." + "ca-central-1" + ".amazonaws.com/" + "my/repo-si_tory")
         == Some(EcrInformation("550877636976", "ca-central-1", "my/repo-si_tory"))
    ensures Format(EcrInformation("550877636976", "ca-central-1", "my/repo-si_tory"))
         == "550877636976" + ".dkr.ecr." + "ca-central-1" + ".amazonaws.com/" + "my/repo-si_tory"
  {
    var c := EcrInformation("550877636976", "ca-central-1", "my/repo-si_tory");
    assert Valid(c);
    ParseFormat(c);
  }

  lemma ExampleWrongPrefix()
    ensures Parse("foo." + "550877636976" + ".dkr.ecr." + "ca-central-1" + ".amazonaws.com/") == None
  {
    var s := "foo." + "550877636976" + ".dkr.ecr." + "ca-central-1" + ".amazonaws.com/";
    assert !IsDigit(s[0]);
  }

  /** The end of an input `u + "com/" + p`. */
  lemma EndsWithRepository(s: string, u: string, p: string)
    requires s == u + "com/" + p
    ensures var k := |u| + 4;
      && s[k - 4..k] == "com/" && s[k..] == p && s[k - 1] == '/'
      && forall i :: k <= i < |s| ==> s[i] == p[i - k]
  {
    assert s == u + ("com/" + p);
  }

  /** In a match the repository is the end of the input, right after `com/`. */
  lemma RepositoryEndsInput(s: string, c: EcrInformation)
    ensures Matches(s, c) ==> var k := |s| - |c.repositoryName|;
      && 4 <= k < |s| && s[k - 4..k] == "com/" && s[k..] == c.repositoryName
      && s[k - 1] == '/' && forall i :: k <= i < |s| ==> IsRepositoryChar(s[i])
  {
    if !Matches(s, c) { return; }
    var x, y :| IsWildcard(x) && IsWildcard(y) && s == Spell(c, x, y);
    var p := c.repositoryName;
    var u := c.accountId + ".dkr.ecr." + c.region + [x] + "amazonaws" + [y];
    assert s == u + "com/" + p;
    EndsWithRepository(s, u, p);
  }

  /**
    An input with a character outside the repository class at `j`, and no
    `/` from `j` up to its last character, has no match: the repository
    would have to start after `j`, right behind a `/`.
   */
  lemma BlockedRepository(s: string, j: nat)
    requires j < |s| && !IsRepositoryChar(s[j])
    requires forall i :: j <= i < |s| - 1 ==> s[i] != '/'
    ensures Parse(s) == None
  {
    ParseNoneIffNoMatch(s);
    forall c ensures !Matches(s, c) {
      RepositoryEndsInput(s, c);
    }
  }

  lemma ExampleWrongSuffix()
    ensures Parse("550877636976" + ".dkr.ecr." + "ca-central-1" + ".amazonaws.com/" + "foo#bar") == None
  {
    var x := "550877636976" + ".dkr.ecr." + "ca-central-1" + ".amazonaws.com/";
    var s := x + "foo#bar";
    assert s[|x| + 3] == '#';
    BlockedRepository(s, |x| + 3);
  }

  lemma ExampleEmptyRepository()
    ensures Parse("550877636976" + ".dkr.ecr." + "ca-central-1" + ".amazonaws.com/") == None
  {
    var x := "550877636976" + ".dkr.ecr." + "ca-central-1";
    var s := x + ".amazonaws.com/";
    assert s[|x| + 10] == '.';
    BlockedRepository(s, |x| + 10);
  }

  /**
    The unescaped dots accept other characters than `.`; such an input
    is recognised, but printing the result does not give it back.
   */
  lemma WildcardsBreakRoundTrip(c: EcrInformation, x: char, y: char)
    requires Valid(c) && IsWildcard(x) && IsWildcard(y) && !IsRegionChar(x)
    requires x != '.' || y != '.'
    ensures Parse(Spell(c, x, y)) == Some(c)
    ensures Format(c) != Spell(c, x, y)
  {
    ParseSpell(c, x, y);
    var i := |c.accountId| + 9 + |c.region|;
    TailLayout(x, y, c.repositoryName);
    TailLayout('.', '.', c.repositoryName);
    assert Spell(c, x, y)[i] == x && Spell(c, x, y)[i + 10] == y;
    assert Spell(c, '.', '.')[i] == '.' && Spell(c, '.', '.')[i + 10] == '.';
  }

  /** For instance `1.dkr.ecr.r_amazonaws_com/p`. */
  lemma WildcardDotsAcceptUnderscores()
    ensures Parse("1" + ".dkr.ecr." + "r_amazonaws_com/p") == Some(EcrInformation("1", "r", "p"))
    ensures Format(EcrInformation("1", "r", "p")) != "1" + ".dkr.ecr." + "r_amazonaws_com/p"
  {
    var c := EcrInformation("1", "r", "p");
    assert Tail('_', '_', "p") == "_amazonaws_com/p";
    assert "r_amazonaws_com/p" == "r" + Tail('_', '_', "p");
    assert Valid(c) by {
      assert AllDigits("1") && AllRegionChars("r") && AllRepositoryChars("p");
    }
    WildcardsBreakRoundTrip(c, '_', '_');
  }
}
