/**
 * The tab's address-bar interpreter (`processUrlInput`): free text becomes a URL
 * kept as typed, an `http://` localhost URL, an `https://` domain URL, or a Google
 * search. Java's regular expressions are written out as string predicates, and
 * `URLEncoder.encode(…, "UTF-8")` is the parameter `encode`.
 */
module UrlInput {
  import opened Strings

  const SearchPrefix := "https://www.google.com/search?q="

  /** The lower-cased text starts with one of the schemes that are navigated to verbatim. */
  predicate HasKnownScheme(lower: string) {
    "http://" <= lower || "https://" <= lower || "file://" <= lower
    || "javascript:" <= lower || "chrome://" <= lower
  }

  /** `looksLikeUrl`: the text has a dot and no space character. */
  predicate LooksLikeUrl(t: string) {
    '.' in t && ' ' !in t
  }

  predicate IsLabelChar(c: char) { IsAsciiLetter(c) || IsDigit(c) || c == '-' }

  /** `[a-zA-Z0-9-]+` */
  predicate IsLabel(p: string) {
    |p| >= 1 && forall i :: 0 <= i < |p| ==> IsLabelChar(p[i])
  }

  /** `[a-zA-Z]{2,}` */
  predicate IsTopLevelLabel(p: string) {
    |p| >= 2 && forall i :: 0 <= i < |p| ==> IsAsciiLetter(p[i])
  }

  /**
   * `([a-zA-Z0-9-]+\.)+[a-zA-Z]{2,}`: two or more dot-separated labels, the last of
   * them letters only. Labels hold no dot, so splitting on dots finds the only way to match.
   */
  predicate IsDomainName(h: string) {
    var parts := SplitDots(h);
    |parts| >= 2
    && (forall i :: 0 <= i < |parts| - 1 ==> IsLabel(parts[i]))
    && IsTopLevelLabel(parts[|parts| - 1])
  }

  /** The position of the first `/` in `s`, or `|s|` when there is none. */
  function FirstSlash(s: string): (i: nat)
    ensures i <= |s|
    ensures '/' !in s[..i]
    ensures i < |s| ==> s[i] == '/'
    decreases |s|
  {
    if |s| == 0 || s[0] == '/' then 0
    else
      var j := FirstSlash(s[1..]);
      assert s[..j + 1] == [s[0]] + s[1..][..j];
      j + 1
  }

  predicate NoLineTerminator(s: string) {
    forall i :: 0 <= i < |s| ==> !IsLineTerminator(s[i])
  }

  /** `(/.*)?$` : nothing, or a slash and the rest of the line. */
  predicate IsOptionalPath(r: string) {
    r == [] || (r[0] == '/' && NoLineTerminator(r[1..]))
  }

  /**
   * `^([a-zA-Z0-9-]+\.)+[a-zA-Z]{2,}(/.*)?$`. A domain name holds no slash, so
   * the name part of a match ends at the first slash.
   */
  predicate MatchesDomainPattern(t: string) {
    var i := FirstSlash(t);
    IsDomainName(t[..i]) && IsOptionalPath(t[i..])
  }

  /** `isLikelyUrl` */
  predicate IsLikelyUrl(t: string) {
    LooksLikeUrl(t) || MatchesDomainPattern(t)
  }

  /** The length of the run of ASCII digits that starts `s`. */
  function LeadingDigits(s: string): (n: nat)
    ensures n <= |s|
    ensures forall i :: 0 <= i < n ==> IsDigit(s[i])
    ensures n < |s| ==> !IsDigit(s[n])
    decreases |s|
  {
    if |s| > 0 && IsDigit(s[0]) then 1 + LeadingDigits(s[1..]) else 0
  }

  /**
   * `(:\d+)?(/.*)?$`. A shorter run of digits than the longest one would leave a
   * digit where the path or the end must come, so only the longest run can match.
   */
  predicate IsOptionalPortAndPath(r: string) {
    IsOptionalPath(r)
    || (|r| > 0 && r[0] == ':'
        && var d := LeadingDigits(r[1..]);
        d >= 1 && IsOptionalPath(r[1 + d..]))
  }

  /** `^127\.0\.0\.1(:\d+)?(/.*)?$` */
  predicate MatchesLoopbackPattern(t: string) {
    "127.0.0.1" <= t && IsOptionalPortAndPath(t[9..])
  }

  /** `^localhost(:\d+)?(/.*)?$`; every text it matches also starts with `localhost`. */
  predicate MatchesLocalhostPattern(t: string) {
    "localhost" <= t && IsOptionalPortAndPath(t[9..])
  }

  /** `isLocalhost` */
  predicate IsLocalhost(t: string) {
    "localhost" <= t || MatchesLoopbackPattern(t) || MatchesLocalhostPattern(t)
  }

  /**
   * `processUrlInput`: the text is trimmed, then taken as a URL when it carries a
   * known scheme (checked case-insensitively, returned with its case intact), given
   * `http://` when it names the local host, given `https://` when it looks like a
   * domain, and otherwise turned into a search URL.
   */
  function ProcessUrlInput(input: string, encode: string -> string): (r: string)
    ensures var t := Trim(input);
            && (HasKnownScheme(Lower(t)) ==> r == t)
            && (!HasKnownScheme(Lower(t)) && IsLocalhost(t) ==> r == "http://" + t)
            && (!HasKnownScheme(Lower(t)) && !IsLocalhost(t) && IsLikelyUrl(t) ==> r == "https://" + t)
            && (!HasKnownScheme(Lower(t)) && !IsLocalhost(t) && !IsLikelyUrl(t) ==> r == SearchPrefix + encode(t))
    ensures HasKnownScheme(Lower(r))
  {
    var trimmed := Trim(input);
    var lowerTrimmed := Lower(trimmed);
    if HasKnownScheme(lowerTrimmed) then trimmed
    else
      if IsLocalhost(trimmed) then
        var r := "http://" + trimmed;
        assert r[..7] == "http://";
        SchemeSurvivesLowering(r);
        r
      else if IsLikelyUrl(trimmed) then
        var r := "https://" + trimmed;
        assert r[..8] == "https://";
        SchemeSurvivesLowering(r);
        r
      else
        var r := SearchPrefix + encode(trimmed);
        assert r[..8] == SearchPrefix[..8] == "https://";
        SchemeSurvivesLowering(r);
        r
  }

  /** The URLs produced by the interpreter keep their scheme when lower-cased. */
  lemma SchemeSurvivesLowering(r: string)
    requires "http://" <= r || "https://" <= r
    ensures HasKnownScheme(Lower(r))
  {
    if "http://" <= r {
      LowerPrefix("http://", r);
      LowerOfLower("http://");
    } else {
      LowerPrefix("https://", r);
      LowerOfLower("https://");
    }
  }

  /** Interpreting already-trimmed text gives the same URL: Enter trims before interpreting. */
  lemma TrimBeforeInterpretIsHarmless(input: string, encode: string -> string)
    ensures ProcessUrlInput(Trim(input), encode) == ProcessUrlInput(input, encode)
  {
    TrimIdempotent(input);
  }

  /** Text framed by non-blank characters is its own trim. */
  lemma TrimOfConcat(a: string, b: string)
    requires |a| > 0 && !IsWhitespace(a[0]) && !IsWhitespace(a[|a| - 1])
    requires b == [] || !IsWhitespace(b[|b| - 1])
    ensures Trim(a + b) == a + b
  {
    var s := a + b;
    assert s[0] == a[0];
    assert s[|s| - 1] == if b == [] then a[|a| - 1] else b[|b| - 1];
    TrimUnchanged(s);
  }

  /** Trimmed text after a prefix that starts and ends with no whitespace stays trimmed. */
  lemma TrimmedAfterPrefix(a: string, t: string)
    requires |a| > 0 && !IsWhitespace(a[0]) && !IsWhitespace(a[|a| - 1])
    requires Trim(t) == t
    ensures Trim(a + t) == a + t
  {
    TrimIdempotent(t);
    TrimOfConcat(a, t);
  }

  /** A search URL around an encoding with no whitespace is trimmed. */
  lemma SearchUrlTrimmed(e: string)
    requires forall c :: c in e ==> !IsWhitespace(c)
    ensures Trim(SearchPrefix + e) == SearchPrefix + e
  {
    assert e == [] || e[|e| - 1] in e;
    TrimOfConcat(SearchPrefix, e);
  }

  /** Each URL the interpreter can build from trimmed text is itself trimmed. */
  lemma CandidatesAreTrimmed(t: string, e: string)
    requires Trim(t) == t
    requires forall c :: c in e ==> !IsWhitespace(c)
    ensures Trim("http://" + t) == "http://" + t
    ensures Trim("https://" + t) == "https://" + t
    ensures Trim(SearchPrefix + e) == SearchPrefix + e
  {
    TrimmedAfterPrefix("http://", t);
    TrimmedAfterPrefix("https://", t);
    SearchUrlTrimmed(e);
  }

  /** A trimmed URL with a known scheme is taken as it is. */
  lemma SchemeUrlIsFixed(s: string, encode: string -> string)
    requires Trim(s) == s && HasKnownScheme(Lower(s))
    ensures ProcessUrlInput(s, encode) == s
  {
  }

  /** The interpreter returns trimmed text when the search encoder emits no whitespace. */
  lemma ResultIsTrimmed(input: string, encode: string -> string)
    requires forall c :: c in encode(Trim(input)) ==> !IsWhitespace(c)
    ensures Trim(ProcessUrlInput(input, encode)) == ProcessUrlInput(input, encode)
  {
    TrimIdempotent(input);
    CandidatesAreTrimmed(Trim(input), encode(Trim(input)));
  }

  /**
   * Interpreting an interpreted URL again returns it unchanged, when the search
   * encoder emits no whitespace (form encoding emits none).
   */
  lemma {:induction false} InterpretIdempotent(input: string, encode: string -> string)
    requires forall c :: c in encode(Trim(input)) ==> !IsWhitespace(c)
    ensures ProcessUrlInput(ProcessUrlInput(input, encode), encode) == ProcessUrlInput(input, encode)
  {
    ResultIsTrimmed(input, encode);
    SchemeUrlIsFixed(ProcessUrlInput(input, encode), encode);
  }
  /**
   * Text on the loopback address contains a dot, so without a space it also passes
   * the likely-URL test; it is sent over plain `http` all the same.
   */
  lemma LoopbackOutranksDomain(input: string, encode: string -> string)
    requires MatchesLoopbackPattern(Trim(input))
    ensures '.' in Trim(input)
    ensures ' ' !in Trim(input) ==> IsLikelyUrl(Trim(input))
    ensures ProcessUrlInput(input, encode) == "http://" + Trim(input)
  {
    var t := Trim(input);
    assert t[..9] == "127.0.0.1";
    assert t[3] == '.';
    assert Lower(t)[0] == '1';
  }

  /** A dotted name whose last label is shorter than two characters is no domain name. */
  lemma ShortLastLabelNotDomain(p: string, d: string)
    requires |d| < 2 && '.' !in d
    ensures !IsDomainName(p + "." + d)
  {
    SplitAroundDot(p, d);
    SplitAfterLabel(d, "");
  }

  /** With a space in its path, `127.0.0.1/a b` is a loopback URL that passes neither domain test. */
  lemma LoopbackWithSpaceIsNotLikelyUrl()
    ensures var t := "127.0.0" + "." + "1" + "/a b"; MatchesLoopbackPattern(t) && ' ' in t && !IsLikelyUrl(t)
  {
    var name, path := "127.0.0" + "." + "1", "/a b";
    var t := name + path;
    ShortLastLabelNotDomain("127.0.0", "1");
    assert name == "127.0.0.1";
    FirstSlashAfterName(name, path);
    assert t[..|name|] == name && t[|name|..] == path;
    assert IsOptionalPath(path);
    assert t[|name| + 2] == ' ';
  }

  /** Any text that starts with `localhost` is a localhost URL, whatever follows. */
  lemma LocalhostPrefixWins(input: string, encode: string -> string)
    requires "localhost" <= Trim(input)
    ensures ProcessUrlInput(input, encode) == "http://" + Trim(input)
  {
    var t := Trim(input);
    assert t[..9] == "localhost";
    assert Lower(t)[0] == 'l';
  }

  /** Blank input is not rejected: it becomes a search for the empty text. */
  lemma BlankInputSearches(input: string, encode: string -> string)
    requires IsBlank(input)
    ensures ProcessUrlInput(input, encode) == SearchPrefix + encode("")
  {
    BlankIffTrimEmpty(input);
    assert FirstSlash("") == 0;
    assert SplitDots("") == [""];
  }

  /**
   * A domain-pattern match always contains a dot, so a likely URL is text with a dot
   * that either has no space or matches the pattern (which allows spaces in its path).
   */
  lemma DomainPatternHasDot(t: string)
    ensures MatchesDomainPattern(t) ==> '.' in t
    ensures IsLikelyUrl(t) <==> '.' in t && (' ' !in t || MatchesDomainPattern(t))
  {
    if MatchesDomainPattern(t) {
      var i := FirstSlash(t);
      var parts := SplitDots(t[..i]);
      JoinSplit(t[..i]);
      assert t[..i] == parts[0] + "." + JoinDots(parts[1..]);
      assert t[..i][|parts[0]|] == '.';
    }
  }

  /** The first slash of a slash-free name followed by a path is where the path starts. */
  lemma {:induction false} FirstSlashAfterName(name: string, path: string)
    requires '/' !in name && |path| > 0 && path[0] == '/'
    ensures FirstSlash(name + path) == |name|
    decreases |name|
  {
    if |name| > 0 {
      assert (name + path)[1..] == name[1..] + path;
      FirstSlashAfterName(name[1..], path);
    } else {
      assert name + path == path;
    }
  }

  /** A label, a dot and a letters-only label form a domain name, which holds no slash. */
  lemma TwoLabelDomain(a: string, b: string)
    requires IsLabel(a) && IsTopLevelLabel(b)
    ensures IsDomainName(a + "." + b) && '/' !in a + "." + b
  {
    assert '.' !in a && '.' !in b;
    SplitAfterLabel(a, b);
    SplitAfterLabel(b, "");
    assert SplitDots(a + "." + b) == [a, b];
    var t := a + "." + b;
    forall i | 0 <= i < |t| ensures t[i] != '/' {
      if i < |a| { assert t[i] == a[i]; } else if i > |a| { assert t[i] == b[i - |a| - 1]; }
    }
  }

  /** The pattern does add texts with a space: `ab.cd/ x` is a likely URL only through it. */
  lemma PatternAdmitsSpaceInPath()
    ensures var t := "ab" + "." + "cd" + "/ x"; MatchesDomainPattern(t) && ' ' in t && IsLikelyUrl(t)
  {
    var name, path := "ab" + "." + "cd", "/ x";
    var t := name + path;
    assert IsLabel("ab") && IsTopLevelLabel("cd");
    TwoLabelDomain("ab", "cd");
    FirstSlashAfterName(name, path);
    assert t[..|name|] == name && t[|name|..] == path;
    assert IsOptionalPath(path);
    assert t[|name| + 1] == ' ';
  }
}
