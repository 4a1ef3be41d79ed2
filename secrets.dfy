/**
 * Matching the user's stored secrets against the page being filled: the main
 * (registrable) domain of a URL, the containment test, the five-entry menu list,
 * the display texts, and the search box of the "all secrets" dialog.
 * Parsing a URL into its host (`java.net.URI(url).host`, with a parse failure or
 * a missing host giving no host) is the parameter `hostOf`.
 */
module Secrets {
  import opened Wrappers
  import opened Strings
  import opened Seqs

  datatype SecretEntry = SecretEntry(
    website: string,
    username: string,
    password: string,
    notes: Option<string>,
    tags: seq<string>)

  /** Two-label public suffixes under which a registrable domain has three labels. */
  const MultiPartTlds: set<string> := {"co.uk", "com.au", "co.jp", "co.nz", "com.br", "co.in"}

  /** The most matched secrets the context menu lists. */
  const MaxMatches: nat := 5

  predicate IsLocalHost(host: string) {
    host == "localhost" || "127." <= host
  }

  /**
   * The main domain of a host: local hosts and single-label hosts as they are,
   * three labels under a two-label public suffix, and otherwise the last two labels.
   */
  function MainDomainOfHost(host: string): (d: string)
    ensures IsLocalHost(host) || |SplitDots(host)| < 2 ==> d == host
  {
    if IsLocalHost(host) then host
    else
      var parts := SplitDots(host);
      var n := |parts|;
      if n >= 2 then
        var lastTwo := parts[n - 2] + "." + parts[n - 1];
        if lastTwo in MultiPartTlds && n >= 3 then parts[n - 3] + "." + lastTwo else lastTwo
      else host
  }

  /** How many trailing labels the main domain of a non-local host keeps. */
  function KeptLabels(parts: seq<string>): (k: nat)
    requires |parts| >= 2
    ensures k == 2 || k == 3
    ensures k <= |parts|
  {
    var n := |parts|;
    if parts[n - 2] + "." + parts[n - 1] in MultiPartTlds && n >= 3 then 3 else 2
  }

  lemma JoinLastLabels(parts: seq<string>, k: nat)
    requires k == 2 || k == 3
    requires k <= |parts|
    ensures var n := |parts|;
            k == 2 ==> JoinDots(parts[n - 2..]) == parts[n - 2] + "." + parts[n - 1]
    ensures var n := |parts|;
            k == 3 ==> JoinDots(parts[n - 3..]) == parts[n - 3] + "." + (parts[n - 2] + "." + parts[n - 1])
  {
    var n := |parts|;
    var two := parts[n - 2..];
    assert two == [parts[n - 2], parts[n - 1]];
    assert two[1..] == [parts[n - 1]];
    assert JoinDots(two) == parts[n - 2] + "." + JoinDots(two[1..]);
    if k == 3 {
      var three := parts[n - 3..];
      assert three[0] == parts[n - 3] && three[1..] == two;
      assert JoinDots(three) == parts[n - 3] + "." + JoinDots(two);
    }
  }

  /** The labels the main domain keeps: the last two, or the last three under a multi-part suffix. */
  lemma MainDomainLabels(host: string)
    requires !IsLocalHost(host) && |SplitDots(host)| >= 2
    ensures var parts := SplitDots(host); var k := KeptLabels(parts);
            MainDomainOfHost(host) == JoinDots(parts[|parts| - k..])
            && SplitDots(MainDomainOfHost(host)) == parts[|parts| - k..]
  {
    var parts := SplitDots(host);
    var n := |parts|;
    var k := KeptLabels(parts);
    JoinLastLabels(parts, k);
    assert DotFree(parts[n - k..]);
    SplitJoin(parts[n - k..]);
  }

  /** The join of the labels from `j` on is a suffix of the join of all of them. */
  lemma KeptJoinIsSuffix(parts: seq<string>, j: nat, d: string, host: string)
    requires j < |parts|
    requires d == JoinDots(parts[j..]) && host == JoinDots(parts)
    ensures IsSuffix(d, host)
  {
    JoinTailIsSuffix(parts, j);
  }

  /** The kept labels of a name's kept labels are all of them. */
  lemma KeptLabelsOfTail(parts: seq<string>)
    requires |parts| >= 2
    ensures var k := KeptLabels(parts); KeptLabels(parts[|parts| - k..]) == k
  {
    var n := |parts|;
    var k := KeptLabels(parts);
    var t := parts[n - k..];
    assert t[|t| - 2] == parts[n - 2] && t[|t| - 1] == parts[n - 1];
  }

  /** The main domain is the trailing part of the host, on a label boundary. */
  lemma MainDomainIsSuffix(host: string)
    ensures IsSuffix(MainDomainOfHost(host), host)
  {
    if !IsLocalHost(host) && |SplitDots(host)| >= 2 {
      var parts := SplitDots(host);
      MainDomainLabels(host);
      JoinSplit(host);
      KeptJoinIsSuffix(parts, |parts| - KeptLabels(parts), MainDomainOfHost(host), host);
    }
  }

  /** The main domain of a main domain is itself. */
  lemma MainDomainIdempotent(host: string)
    ensures MainDomainOfHost(MainDomainOfHost(host)) == MainDomainOfHost(host)
  {
    var d := MainDomainOfHost(host);
    if !IsLocalHost(host) && |SplitDots(host)| >= 2 && !IsLocalHost(d) {
      var parts := SplitDots(host);
      var k := KeptLabels(parts);
      MainDomainLabels(host);
      var dp := parts[|parts| - k..];
      assert SplitDots(d) == dp;
      KeptLabelsOfTail(parts);
      MainDomainLabels(d);
      assert dp[|dp| - k..] == dp;
    }
  }

  /** `extractMainDomain`: the main domain of the URL's host, or nothing when the URL has no host. */
  function ExtractMainDomain(hostOf: string -> Option<string>, url: string): (d: Option<string>)
    ensures d.Some? <==> hostOf(url).Some?
    ensures d.Some? ==> IsSuffix(d.value, hostOf(url).value)
  {
    match hostOf(url)
    case None => None
    case Some(host) =>
      MainDomainIsSuffix(host);
      Some(MainDomainOfHost(host))
  }

  /**
   * The containment test of `matchSecretsForDomain`, on lower-cased text: the
   * secret's main domain (its whole website when that has no host) contains the
   * page's domain or is contained in it, or the website contains the page's domain.
   */
  predicate SecretMatches(hostOf: string -> Option<string>, lowerDomain: string, secret: SecretEntry) {
    var secretDomain := match ExtractMainDomain(hostOf, secret.website)
                        case Some(d) => Lower(d)
                        case None => Lower(secret.website);
    Contains(secretDomain, lowerDomain) || Contains(lowerDomain, secretDomain)
    || Contains(Lower(secret.website), lowerDomain)
  }

  /**
   * `matchSecretsForDomain`: the first five matching secrets, in the order they were
   * stored; fewer than five only when no other secret matches.
   */
  function MatchSecretsForDomain(hostOf: string -> Option<string>, domain: string, secrets: seq<SecretEntry>)
    : (r: seq<SecretEntry>)
    ensures |r| <= MaxMatches
    ensures IsSubsequence(r, secrets)
    ensures forall i :: 0 <= i < |r| ==> SecretMatches(hostOf, Lower(domain), r[i])
    ensures |r| < MaxMatches ==> forall x :: x in secrets && SecretMatches(hostOf, Lower(domain), x) ==> x in r
    ensures r == Take(Filter((x: SecretEntry) => SecretMatches(hostOf, Lower(domain), x), secrets), MaxMatches)
  {
    var lowerDomain := Lower(domain);
    var matched := Filter((x: SecretEntry) => SecretMatches(hostOf, lowerDomain, x), secrets);
    var r := Take(matched, MaxMatches);
    PrefixOfSubsequence(matched, secrets, |r|);
    assert matched[..|r|] == r;
    r
  }

  /** A secret whose website has no host and is empty matches every page. */
  lemma EmptyWebsiteMatchesAnyDomain(hostOf: string -> Option<string>, lowerDomain: string, secret: SecretEntry)
    requires secret.website == [] && hostOf([]) == None
    ensures SecretMatches(hostOf, lowerDomain, secret)
  {
    assert [] <= lowerDomain;
  }

  /** `replaceFirstChar { titlecase }`: an ASCII lower-case first letter is upper-cased, nothing else changes. */
  function Capitalize(s: string): (r: string)
    ensures |r| == |s| && (|s| > 0 ==> r[1..] == s[1..])
    ensures |s| > 0 && IsAsciiLower(s[0]) ==> IsAsciiUpper(r[0])
    ensures |s| > 0 && !IsAsciiLower(s[0]) ==> r == s
    ensures Lower(r) == Lower(s)
  {
    if |s| > 0 && IsAsciiLower(s[0]) then
      var r := [UpperChar(s[0])] + s[1..];
      assert Lower(r)[0] == Lower(s)[0];
      r
    else s
  }

  /** `getDisplayName`: the website's main domain, or the website itself, capitalised. */
  function DisplayName(hostOf: string -> Option<string>, website: string): (r: string)
    ensures var d := ExtractMainDomain(hostOf, website).GetOr(website);
            Lower(r) == Lower(d) && |r| == |d| && (|r| > 0 ==> !IsAsciiLower(r[0]))
    ensures var d := ExtractMainDomain(hostOf, website).GetOr(website);
            |d| > 0 ==> r[1..] == d[1..] && (IsAsciiLower(d[0]) ==> r[0] == UpperChar(d[0]))
                        && (!IsAsciiLower(d[0]) ==> r == d)
  {
    Capitalize(ExtractMainDomain(hostOf, website).GetOr(website))
  }

  /** The username as the menu shows it: cut to 22 characters and an ellipsis when longer than 25. */
  function UsernamePreview(username: string): (r: string)
    ensures |r| <= 25
    ensures |username| <= 25 ==> r == username
    ensures |username| > 25 ==> r == username[..22] + "..." && |r| == 25
  {
    if |username| > 25 then TakeChars(username, 22) + "..." else username
  }

  /** The text of a matched secret's menu item: display name and username preview. */
  function SecretItemText(hostOf: string -> Option<string>, secret: SecretEntry): (t: string)
    ensures DisplayName(hostOf, secret.website) <= t
  {
    DisplayName(hostOf, secret.website) + " (" + UsernamePreview(secret.username) + ")"
  }

  /** The dialog's search test on an already lower-cased, trimmed query. */
  predicate MatchesQuery(query: string, secret: SecretEntry) {
    Contains(Lower(secret.website), query)
    || Contains(Lower(secret.username), query)
    || (secret.notes.Some? && Contains(Lower(secret.notes.value), query))
    || (exists i :: 0 <= i < |secret.tags| && Contains(Lower(secret.tags[i]), query))
  }

  /**
   * The "all secrets" dialog's list: every secret for a blank query, and otherwise
   * exactly the secrets (in stored order) whose website, username, notes or a tag
   * contains the lower-cased, trimmed query.
   */
  function FilterSecrets(searchQuery: string, secrets: seq<SecretEntry>): (r: seq<SecretEntry>)
    ensures IsBlank(searchQuery) ==> r == secrets
    ensures !IsBlank(searchQuery) ==>
              IsSubsequence(r, secrets)
              && (forall i :: 0 <= i < |r| ==> MatchesQuery(Trim(Lower(searchQuery)), r[i]))
              && (forall x :: x in secrets && MatchesQuery(Trim(Lower(searchQuery)), x) ==> x in r)
              && (forall x :: multiset(r)[x]
                               == if MatchesQuery(Trim(Lower(searchQuery)), x) then multiset(secrets)[x] else 0)
  {
    if IsBlank(searchQuery) then secrets
    else
      var query := Trim(Lower(searchQuery));
      Filter((x: SecretEntry) => MatchesQuery(query, x), secrets)
  }

  /** Lower-casing keeps whitespace and makes no new whitespace. */
  lemma BlankIffLowerBlank(s: string)
    ensures IsBlank(Lower(s)) <==> IsBlank(s)
  {
    if IsBlank(Lower(s)) {
      forall i | 0 <= i < |s| ensures IsWhitespace(s[i]) {
        assert IsWhitespace(Lower(s)[i]);
      }
    }
  }

  /** The dialog's search ignores the case of the query. */
  lemma FilterIgnoresQueryCase(searchQuery: string, secrets: seq<SecretEntry>)
    ensures FilterSecrets(Lower(searchQuery), secrets) == FilterSecrets(searchQuery, secrets)
  {
    BlankIffLowerBlank(searchQuery);
    LowerOfLower(Lower(searchQuery));
  }
}
