/**
 * The Instagram link pattern of main.py:86,
 *   ^(?:https?://)?(?:www\.)?(?:instagram\.com|instagr\.am)/(?:p|reel|tv)/([^/?#&]+).*
 * as a recogniser that follows the pattern left to right, a declarative
 * statement of the language it accepts, and the text `match.group(0)` that
 * the link handler passes on to the providers.
 */
module InstaLink {
  import opened Common

  const Schemes: seq<string> := ["", "http://", "https://"]
  const Subdomains: seq<string> := ["", "www."]
  // The host and the path kind, each with the slash that follows it in the pattern.
  const Hosts: seq<string> := ["instagram.com/", "instagr.am/"]
  const Kinds: seq<string> := ["p/", "reel/", "tv/"]

  /** The characters the shortcode group `[^/?#&]` excludes. */
  predicate IsDelimiter(c: char) {
    c == '/' || c == '?' || c == '#' || c == '&'
  }

  predicate StartsWith(s: string, p: string) {
    |p| <= |s| && s[..|p|] == p
  }

  /** One way of reading the fixed part of the pattern, before the shortcode. */
  function LinkPrefix(a: nat, b: nat, c: nat, d: nat): string
    requires a < |Schemes| && b < |Subdomains| && c < |Hosts| && d < |Kinds|
  {
    Schemes[a] + (Subdomains[b] + (Hosts[c] + Kinds[d]))
  }

  /** `s` starts with `p` and the shortcode after it has at least one character. */
  predicate PrefixThenCode(s: string, p: string) {
    StartsWith(s, p) && |p| < |s| && !IsDelimiter(s[|p|])
  }

  /**
   * The language of the pattern under `re.search`: an optional scheme, an
   * optional `www.`, one of the two hosts, one of the three path kinds, then
   * at least one shortcode character; `.*` lets anything follow.
   */
  ghost predicate PatternMatches(s: string) {
    exists a: nat, b: nat, c: nat, d: nat ::
      a < |Schemes| && b < |Subdomains| && c < |Hosts| && d < |Kinds| &&
      PrefixThenCode(s, LinkPrefix(a, b, c, d))
  }

  /** `(?:https?://)?`: a present scheme is consumed. */
  function AfterScheme(s: string): (r: string)
    ensures |r| <= |s| && r == s[|s| - |r|..]
  {
    if StartsWith(s, "https://") then s[8..] else if StartsWith(s, "http://") then s[7..] else s
  }

  /** `(?:www\.)?` */
  function AfterSubdomain(s: string): (r: string)
    ensures |r| <= |s| && r == s[|s| - |r|..]
  {
    if StartsWith(s, "www.") then s[4..] else s
  }

  /** `(?:instagram\.com|instagr\.am)/` */
  function AfterHost(s: string): (r: Option<string>)
    ensures r.Some? ==> |r.value| + 11 <= |s| && r.value == s[|s| - |r.value|..]
  {
    if StartsWith(s, "instagram.com/") then Some(s[14..])
    else if StartsWith(s, "instagr.am/") then Some(s[11..])
    else None
  }

  /** `(?:p|reel|tv)/` */
  function AfterKind(s: string): (r: Option<string>)
    ensures r.Some? ==> |r.value| + 2 <= |s| && r.value == s[|s| - |r.value|..]
  {
    if StartsWith(s, "p/") then Some(s[2..])
    else if StartsWith(s, "reel/") then Some(s[5..])
    else if StartsWith(s, "tv/") then Some(s[3..])
    else None
  }

  /** What follows the fixed part of the pattern, if that part matches. */
  function AfterPrefix(s: string): (r: Option<string>)
    ensures r.Some? ==> |r.value| + 13 <= |s| && r.value == s[|s| - |r.value|..]
  {
    match AfterHost(AfterSubdomain(AfterScheme(s)))
    case None => None
    case Some(h) => AfterKind(h)
  }

  /** The recogniser: the fixed part matches and one shortcode character follows. */
  predicate Recognise(s: string)
    ensures Recognise(s) ==> |s| >= |"instagr.am/p/X"|
  {
    var r := AfterPrefix(s);
    r.Some? && r.value != [] && !IsDelimiter(r.value[0])
  }

  lemma StartsWithConcat(s: string, x: string, y: string)
    ensures StartsWith(s, x + y) <==> StartsWith(s, x) && StartsWith(s[|x|..], y)
  {
    if StartsWith(s, x) && StartsWith(s[|x|..], y) {
      assert s[..|x + y|] == s[..|x|] + s[|x|..][..|y|];
    }
    if StartsWith(s, x + y) {
      assert s[..|x|] == (x + y)[..|x|];
      assert s[|x|..][..|y|] == (x + y)[|x|..];
    }
  }

  lemma SchemeRead(s: string, a: nat)
    requires a < |Schemes| && StartsWith(s, Schemes[a])
    requires |Schemes[a]| < |s| && (s[|Schemes[a]|] == 'w' || s[|Schemes[a]|] == 'i')
    ensures AfterScheme(s) == s[|Schemes[a]|..]
  {
    if a == 0 {
      assert !StartsWith(s, "https://") && !StartsWith(s, "http://") by {
        assert s[0] != "https://"[0];
      }
    } else if a == 1 {
      assert !StartsWith(s, "https://") by {
        assert s[7] != "https://"[7];
      }
    }
  }

  lemma SubdomainRead(s: string, b: nat)
    requires b < |Subdomains| && StartsWith(s, Subdomains[b])
    requires |Subdomains[b]| < |s| && s[|Subdomains[b]|] == 'i'
    ensures AfterSubdomain(s) == s[|Subdomains[b]|..]
  {
    if b == 0 {
      assert !StartsWith(s, "www.") by {
        assert s[0] != "www."[0];
      }
    }
  }

  lemma HostRead(s: string, c: nat)
    requires c < |Hosts| && StartsWith(s, Hosts[c])
    ensures AfterHost(s) == Some(s[|Hosts[c]|..])
  {
    if c == 1 {
      assert !StartsWith(s, "instagram.com/") by {
        assert s[7] == "instagr.am/"[7] != "instagram.com/"[7];
      }
    }
  }

  lemma KindRead(s: string, d: nat)
    requires d < |Kinds| && StartsWith(s, Kinds[d])
    ensures AfterKind(s) == Some(s[|Kinds[d]|..])
  {
    if d != 0 {
      assert s[0] == Kinds[d][0];
      assert !StartsWith(s, "p/") by {
        assert s[0] != "p/"[0];
      }
      if d == 2 {
        assert !StartsWith(s, "reel/") by {
          assert s[0] != "reel/"[0];
        }
      }
    }
  }

  /** The fixed part after the scheme starts with `w` (of `www.`) or `i` (of either host). */
  lemma AfterSchemeFirstChar(b: nat, c: nat, d: nat)
    requires b < |Subdomains| && c < |Hosts| && d < |Kinds|
    ensures var t := Subdomains[b] + (Hosts[c] + Kinds[d]);
      t[0] == 'w' || t[0] == 'i'
  {
    var h := Hosts[c] + Kinds[d];
    assert h[0] == Hosts[c][0] == 'i';
    if b == 0 {
      assert Subdomains[b] + h == h;
    }
  }

  /** Reading the scheme leaves the rest of the fixed part. */
  lemma SchemeStep(s: string, a: nat, b: nat, c: nat, d: nat)
    requires a < |Schemes| && b < |Subdomains| && c < |Hosts| && d < |Kinds|
    requires StartsWith(s, LinkPrefix(a, b, c, d))
    ensures AfterScheme(s) == s[|Schemes[a]|..]
    ensures StartsWith(s[|Schemes[a]|..], Subdomains[b] + (Hosts[c] + Kinds[d]))
  {
    var p, t := Schemes[a], Subdomains[b] + (Hosts[c] + Kinds[d]);
    assert LinkPrefix(a, b, c, d) == p + t;
    StartsWithConcat(s, p, t);
    AfterSchemeFirstChar(b, c, d);
    var rest := s[|p|..];
    assert |t| > 0 && StartsWith(rest, t);
    assert rest[0] == t[0];
    assert |p| < |s| && s[|p|] == rest[0];
    SchemeRead(s, a);
  }

  /** Reading the subdomain leaves the host and the kind. */
  lemma SubdomainStep(s: string, b: nat, c: nat, d: nat)
    requires b < |Subdomains| && c < |Hosts| && d < |Kinds|
    requires StartsWith(s, Subdomains[b] + (Hosts[c] + Kinds[d]))
    ensures AfterSubdomain(s) == s[|Subdomains[b]|..]
    ensures StartsWith(s[|Subdomains[b]|..], Hosts[c] + Kinds[d])
  {
    var h := Hosts[c] + Kinds[d];
    StartsWithConcat(s, Subdomains[b], h);
    assert s[|Subdomains[b]|..][0] == h[0] == Hosts[c][0] == 'i';
    SubdomainRead(s, b);
  }

  /** Reading the host and the kind leaves what follows the fixed part. */
  lemma HostKindStep(s: string, c: nat, d: nat)
    requires c < |Hosts| && d < |Kinds|
    requires StartsWith(s, Hosts[c] + Kinds[d])
    ensures AfterHost(s) == Some(s[|Hosts[c]|..])
    ensures AfterKind(s[|Hosts[c]|..]) == Some(s[|Hosts[c]| + |Kinds[d]|..])
  {
    StartsWithConcat(s, Hosts[c], Kinds[d]);
    HostRead(s, c);
    KindRead(s[|Hosts[c]|..], d);
  }

  /** Any reading of the pattern is the one the recogniser finds. */
  lemma ReadingIsRecognised(s: string, a: nat, b: nat, c: nat, d: nat)
    requires a < |Schemes| && b < |Subdomains| && c < |Hosts| && d < |Kinds|
    requires StartsWith(s, LinkPrefix(a, b, c, d))
    ensures AfterPrefix(s) == Some(s[|LinkPrefix(a, b, c, d)|..])
  {
    var s1 := s[|Schemes[a]|..];
    SchemeStep(s, a, b, c, d);
    var s2 := s1[|Subdomains[b]|..];
    SubdomainStep(s1, b, c, d);
    HostKindStep(s2, c, d);
    var rest := s2[|Hosts[c]| + |Kinds[d]|..];
    assert AfterHost(AfterSubdomain(AfterScheme(s))) == Some(s2[|Hosts[c]|..]);
    assert AfterPrefix(s) == Some(rest);
    PrefixLength(a, b, c, d);
    DropDrop(s, |Schemes[a]|, |Subdomains[b]|);
    DropDrop(s, |Schemes[a]| + |Subdomains[b]|, |Hosts[c]| + |Kinds[d]|);
  }

  lemma PrefixLength(a: nat, b: nat, c: nat, d: nat)
    requires a < |Schemes| && b < |Subdomains| && c < |Hosts| && d < |Kinds|
    ensures |LinkPrefix(a, b, c, d)| == |Schemes[a]| + |Subdomains[b]| + |Hosts[c]| + |Kinds[d]|
  {
  }

  lemma DropDrop(s: string, i: nat, j: nat)
    requires i + j <= |s|
    ensures s[i..][j..] == s[i + j..]
  {
  }

  /** The alternative of each optional or alternated part that the recogniser took. */
  function SchemeTaken(s: string): (a: nat)
    ensures a < |Schemes| && StartsWith(s, Schemes[a]) && AfterScheme(s) == s[|Schemes[a]|..]
  {
    if StartsWith(s, "https://") then 2 else if StartsWith(s, "http://") then 1 else 0
  }

  function SubdomainTaken(s: string): (b: nat)
    ensures b < |Subdomains| && StartsWith(s, Subdomains[b]) && AfterSubdomain(s) == s[|Subdomains[b]|..]
  {
    if StartsWith(s, "www.") then 1 else 0
  }

  function HostTaken(s: string): (c: nat)
    requires AfterHost(s).Some?
    ensures c < |Hosts| && StartsWith(s, Hosts[c]) && AfterHost(s) == Some(s[|Hosts[c]|..])
  {
    if StartsWith(s, "instagram.com/") then 0 else 1
  }

  function KindTaken(s: string): (d: nat)
    requires AfterKind(s).Some?
    ensures d < |Kinds| && StartsWith(s, Kinds[d]) && AfterKind(s) == Some(s[|Kinds[d]|..])
  {
    if StartsWith(s, "p/") then 0 else if StartsWith(s, "reel/") then 1 else 2
  }

  /** A successful recognition exhibits a reading of the pattern. */
  lemma RecognisedIsReading(s: string) returns (a: nat, b: nat, c: nat, d: nat)
    requires AfterPrefix(s).Some?
    ensures a < |Schemes| && b < |Subdomains| && c < |Hosts| && d < |Kinds|
    ensures StartsWith(s, LinkPrefix(a, b, c, d)) && AfterPrefix(s) == Some(s[|LinkPrefix(a, b, c, d)|..])
  {
    a := SchemeTaken(s);
    var s1 := s[|Schemes[a]|..];
    b := SubdomainTaken(s1);
    var s2 := s1[|Subdomains[b]|..];
    c := HostTaken(s2);
    var s3 := s2[|Hosts[c]|..];
    d := KindTaken(s3);
    StartsWithConcat(s2, Hosts[c], Kinds[d]);
    StartsWithConcat(s1, Subdomains[b], Hosts[c] + Kinds[d]);
    StartsWithConcat(s, Schemes[a], Subdomains[b] + (Hosts[c] + Kinds[d]));
    ReadingIsRecognised(s, a, b, c, d);
  }

  /** The recogniser accepts exactly the language of the pattern. */
  lemma RecogniseIffPattern(s: string)
    ensures Recognise(s) <==> PatternMatches(s)
  {
    if Recognise(s) {
      var a, b, c, d := RecognisedIsReading(s);
      assert PrefixThenCode(s, LinkPrefix(a, b, c, d));
    }
    if PatternMatches(s) {
      var a: nat, b: nat, c: nat, d: nat :|
        a < |Schemes| && b < |Subdomains| && c < |Hosts| && d < |Kinds| &&
        PrefixThenCode(s, LinkPrefix(a, b, c, d));
      ReadingIsRecognised(s, a, b, c, d);
    }
  }

  lemma TakeOfConcat(s: string, t: string, n: nat)
    requires n <= |s|
    ensures (s + t)[..n] == s[..n]
  {
  }

  lemma TakeOfTake(s: string, k: nat, n: nat)
    requires n <= k <= |s|
    ensures s[..k][..n] == s[..n]
  {
  }

  /** Two texts that agree on a reading's prefix and the character after it. */
  lemma SameReading(s: string, m: string, a: nat, b: nat, c: nat, d: nat)
    requires a < |Schemes| && b < |Subdomains| && c < |Hosts| && d < |Kinds|
    requires PrefixThenCode(s, LinkPrefix(a, b, c, d))
    requires |m| > |LinkPrefix(a, b, c, d)| && m[..|LinkPrefix(a, b, c, d)| + 1] == s[..|LinkPrefix(a, b, c, d)| + 1]
    ensures Recognise(m)
  {
    var p := LinkPrefix(a, b, c, d);
    assert m[..|p|] == m[..|p| + 1][..|p|];
    assert s[..|p|] == s[..|p| + 1][..|p|];
    assert m[|p|] == m[..|p| + 1][|p|];
    ReadingIsRecognised(m, a, b, c, d);
  }

  /**
   * The pattern is anchored at the start of the text: a text that does not
   * begin with the first letter of a scheme, of `www.` or of a host is
   * refused, whatever link it holds later.
   */
  lemma AnchoredAtStart(s: string)
    requires s != [] ==> s[0] != 'h' && s[0] != 'w' && s[0] != 'i'
    ensures !Recognise(s)
  {
    if s != [] {
      assert !StartsWith(s, "https://") && !StartsWith(s, "http://") && !StartsWith(s, "www.");
      assert !StartsWith(s, "instagram.com/") && !StartsWith(s, "instagr.am/");
    }
  }

  /** A reading of the fixed part followed by nothing, or by a delimiter, has no shortcode and is refused. */
  lemma EmptyCodeRefused(a: nat, b: nat, c: nat, d: nat, rest: string)
    requires a < |Schemes| && b < |Subdomains| && c < |Hosts| && d < |Kinds|
    requires rest == [] || IsDelimiter(rest[0])
    ensures !Recognise(LinkPrefix(a, b, c, d) + rest)
  {
    var p := LinkPrefix(a, b, c, d);
    var s := p + rest;
    assert s[..|p|] == p;
    ReadingIsRecognised(s, a, b, c, d);
    assert s[|p|..] == rest;
  }

  /** Trailing text never spoils a link: the pattern ends in `.*`. */
  lemma RecogniseExtends(s: string, t: string)
    requires Recognise(s)
    ensures Recognise(s + t)
  {
    var a, b, c, d := RecognisedIsReading(s);
    var n := |LinkPrefix(a, b, c, d)| + 1;
    TakeOfConcat(s, t, n);
    SameReading(s, s + t, a, b, c, d);
  }

  /** A prefix that still holds the first shortcode character is recognised too. */
  lemma RecognisedPrefix(s: string, m: string)
    requires Recognise(s) && StartsWith(s, m) && |m| > |s| - |AfterPrefix(s).value|
    ensures Recognise(m)
  {
    var a, b, c, d := RecognisedIsReading(s);
    var n := |LinkPrefix(a, b, c, d)| + 1;
    TakeOfTake(s, |m|, n);
    SameReading(s, m, a, b, c, d);
  }

  /** The end of the shortcode run `[^/?#&]+` that starts at `i`: the first delimiter, or the end. */
  function CodeEnd(s: string, i: nat): (j: nat)
    requires i <= |s|
    ensures i <= j <= |s| && (j == |s| || IsDelimiter(s[j]))
    ensures forall k :: i <= k < j ==> !IsDelimiter(s[k])
    decreases |s| - i
  {
    if i == |s| || IsDelimiter(s[i]) then i else CodeEnd(s, i + 1)
  }

  /** The end of `.*` from `i`: the first line break, or the end (`.` does not match a newline). */
  function LineEnd(s: string, i: nat): (j: nat)
    requires i <= |s|
    ensures i <= j <= |s| && (j == |s| || s[j] == '\n')
    ensures forall k :: i <= k < j ==> s[k] != '\n'
    decreases |s| - i
  {
    if i == |s| || s[i] == '\n' then i else LineEnd(s, i + 1)
  }

  /** The facts that `MatchedLink` promises, stated for the cut point itself. */
  lemma MatchFacts(text: string, k: nat, e: nat)
    requires Recognise(text) && k == |text| - |AfterPrefix(text).value|
    requires k + 1 <= |text| && e == LineEnd(text, CodeEnd(text, k + 1))
    ensures StartsWith(text, text[..e]) && Recognise(text[..e])
  {
    RecognisedPrefix(text, text[..e]);
  }

  /**
   * `re.search(INSTA_REGEX, text)` and its `group(0)`, the link the handler
   * hands to the providers (main.py:190-194). The greedy shortcode group takes
   * every character up to the first delimiter, and `.*` then runs to the end
   * of that line.
   */
  function MatchedLink(text: string): (m: Option<string>)
    ensures m.Some? <==> Recognise(text)
    ensures m.Some? ==> StartsWith(text, m.value) && Recognise(m.value)
    ensures m.Some? ==> |m.value| == |text| || text[|m.value|] == '\n'
    ensures m.Some? ==>
      var c := CodeEnd(text, |text| - |AfterPrefix(text).value| + 1);
      c <= |m.value| && forall i :: c <= i < |m.value| ==> text[i] != '\n'
  {
    if Recognise(text) then
      var k := |text| - |AfterPrefix(text).value|;
      var e := LineEnd(text, CodeEnd(text, k + 1));
      MatchFacts(text, k, e);
      Some(text[..e])
    else
      None
  }
}
