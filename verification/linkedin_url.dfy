/** The profile-URL matcher of the enrichment tool: the leftmost substring
    matching, case-insensitively,
      https://  ([a-z]{2,3}\.)?  linkedin.com/in/  [a-zA-Z0-9\-_%]+
    with the handle taken as long as possible. Case is folded on ASCII
    letters only. */
module LinkedInUrl {

  import opened Results

  /** ASCII lower-casing; every other character is unchanged. */
  function Lower(c: char): char
  {
    if 'A' <= c <= 'Z' then (c as int + 32) as char else c
  }

  predicate IsAsciiLetter(c: char)
  {
    'a' <= Lower(c) <= 'z'
  }

  /** A character of `[a-zA-Z0-9\-_%]`. */
  predicate IsHandleChar(c: char)
  {
    IsAsciiLetter(c) || '0' <= c <= '9' || c == '-' || c == '_' || c == '%'
  }

  /** The lower-case literal `lit` occurs in `s` at `at`, ignoring ASCII case. */
  predicate LiteralAt(s: string, at: nat, lit: string)
  {
    at + |lit| <= |s| && forall k :: 0 <= k < |lit| ==> Lower(s[at + k]) == lit[k]
  }

  const Scheme := "https://"
  const HostAndPath := "linkedin.com/in/"

  /** `s` has `n` letters and then a dot at `at`. */
  predicate SubdomainAt(s: string, at: nat, n: nat)
  {
    at + n < |s| && (forall k :: at <= k < at + n ==> IsAsciiLetter(s[k])) && s[at + n] == '.'
  }

  /** Everything from `at` on is a non-empty handle. */
  predicate HandleFrom(s: string, at: nat)
  {
    at < |s| && forall k :: at <= k < |s| ==> IsHandleChar(s[k])
  }

  /** Where the host starts after a subdomain of `n` letters (none for 0). */
  function HostStart(n: nat): nat
  {
    |Scheme| + (if n == 0 then 0 else n + 1)
  }

  /** Where the handle starts after a subdomain of `n` letters. */
  function HandleStart(n: nat): nat
  {
    HostStart(n) + |HostAndPath|
  }

  /** `u` is a profile URL whose subdomain has `n` letters (0: none). */
  predicate ProfileUrlWith(u: string, n: nat)
  {
    && LiteralAt(u, 0, Scheme)
    && (n == 0 || SubdomainAt(u, |Scheme|, n))
    && LiteralAt(u, HostStart(n), HostAndPath)
    && HandleFrom(u, HandleStart(n))
  }

  /** The whole of `u` matches the pattern. */
  predicate IsProfileUrl(u: string)
  {
    ProfileUrlWith(u, 3) || ProfileUrlWith(u, 2) || ProfileUrlWith(u, 0)
  }

  /** The end of the run of handle characters starting at `j`. */
  function HandleEnd(text: string, j: nat): (e: nat)
    requires j <= |text|
    ensures j <= e <= |text|
    ensures forall k :: j <= k < e ==> IsHandleChar(text[k])
    ensures e == |text| || !IsHandleChar(text[e])
    decreases |text| - j
  {
    if j < |text| && IsHandleChar(text[j]) then HandleEnd(text, j + 1) else j
  }

  /** Everything the engine's attempt at `i` with a subdomain of `n`
      letters needs before the greedy handle. */
  predicate PrefixAt(text: string, i: nat, n: nat)
  {
    && LiteralAt(text, i, Scheme)
    && (n == 0 || SubdomainAt(text, i + |Scheme|, n))
    && LiteralAt(text, i + HostStart(n), HostAndPath)
    && i + HandleStart(n) < |text|
    && IsHandleChar(text[i + HandleStart(n)])
  }

  /** The regex engine's attempt at `i` with a subdomain of `n` letters:
      the end of the match, handle taken greedily, if there is one. */
  function MatchWith(text: string, i: nat, n: nat): Option<nat>
  {
    if PrefixAt(text, i, n) then Some(HandleEnd(text, i + HandleStart(n))) else None
  }

  /** The match starting at `i`, trying a three-letter subdomain, then a
      two-letter one, then none, as the engine backtracks. */
  function MatchAt(text: string, i: nat): (r: Option<nat>)
    requires i <= |text|
    ensures r.Some? ==> i < r.value <= |text| && IsProfileUrl(text[i..r.value])
    ensures r.Some? ==> r.value == |text| || !IsHandleChar(text[r.value])
    ensures r.None? ==> forall j :: i <= j <= |text| ==> !IsProfileUrl(text[i..j])
  {
    var m3, m2, m0 := MatchWith(text, i, 3), MatchWith(text, i, 2), MatchWith(text, i, 0);
    MatchWithSound(text, i, 3);
    MatchWithSound(text, i, 2);
    MatchWithSound(text, i, 0);
    MatchWithComplete(text, i);
    if m3.Some? then m3 else if m2.Some? then m2 else m0
  }

  lemma MatchWithSound(text: string, i: nat, n: nat)
    requires i <= |text|
    requires n == 0 || n == 2 || n == 3
    ensures var m := MatchWith(text, i, n);
            m.Some? ==> i < m.value <= |text| && ProfileUrlWith(text[i..m.value], n)
  {
  }

  lemma MatchWithComplete(text: string, i: nat)
    requires i <= |text|
    ensures (forall j :: i <= j <= |text| ==> !IsProfileUrl(text[i..j]))
            || MatchWith(text, i, 3).Some? || MatchWith(text, i, 2).Some? || MatchWith(text, i, 0).Some?
  {
    if j :| i <= j <= |text| && IsProfileUrl(text[i..j]) {
      var u := text[i..j];
      var n := if ProfileUrlWith(u, 3) then 3 else if ProfileUrlWith(u, 2) then 2 else 0;
      ProfileUrlExtends(text, i, j, n);
    }
  }

  /** A profile URL that is a substring of `text` is found by the engine's
      attempt with the same subdomain length. */
  lemma ProfileUrlExtends(text: string, i: nat, j: nat, n: nat)
    requires i <= j <= |text|
    requires ProfileUrlWith(text[i..j], n)
    ensures MatchWith(text, i, n).Some?
  {
  }

  /** Where an attempt puts a dot: after the subdomain, and nowhere in the
      first letters of the host. */
  lemma PrefixShape(text: string, i: nat, n: nat)
    requires n in {0, 2, 3} && PrefixAt(text, i, n)
    ensures i + |Scheme| + 3 < |text|
    ensures n == 0 ==> text[i + |Scheme| + 2] != '.' && text[i + |Scheme| + 3] != '.'
    ensures n == 2 ==> text[i + |Scheme| + 2] == '.'
    ensures n == 3 ==> text[i + |Scheme| + 2] != '.' && text[i + |Scheme| + 3] == '.'
  {
    if n == 0 {
      assert Lower(text[i + HostStart(0) + 2]) == HostAndPath[2];
      assert Lower(text[i + HostStart(0) + 3]) == HostAndPath[3];
    } else if n == 3 {
      assert IsAsciiLetter(text[i + |Scheme| + 2]);
    }
  }

  /** The three alternatives exclude each other: the character after two
      or three subdomain letters is a dot for at most one of them, and never
      where the host begins. So the engine's choice among them is forced. */
  lemma AlternativesExclusive(text: string, i: nat, n: nat, m: nat)
    requires n in {0, 2, 3} && m in {0, 2, 3} && n != m
    requires PrefixAt(text, i, n)
    ensures !PrefixAt(text, i, m)
  {
    PrefixShape(text, i, n);
    if PrefixAt(text, i, m) {
      PrefixShape(text, i, m);
    }
  }

  /** The greedy run reaches at least as far as any run of handle characters. */
  lemma HandleEndCovers(text: string, j: nat, e: nat)
    requires j <= e <= |text|
    requires forall k :: j <= k < e ==> IsHandleChar(text[k])
    ensures e <= HandleEnd(text, j)
  {
  }

  /** The match at a start is the longest profile URL starting there. */
  lemma MatchAtIsLongest(text: string, i: nat, j: nat)
    requires i <= j <= |text|
    requires IsProfileUrl(text[i..j])
    ensures MatchAt(text, i).Some? && j <= MatchAt(text, i).value
  {
    var u := text[i..j];
    var n := if ProfileUrlWith(u, 3) then 3 else if ProfileUrlWith(u, 2) then 2 else 0;
    ProfileUrlExtends(text, i, j, n);
    forall m | m in {0, 2, 3} && m != n
      ensures !PrefixAt(text, i, m)
    {
      AlternativesExclusive(text, i, n, m);
    }
    assert MatchAt(text, i) == MatchWith(text, i, n);
    forall k | i + HandleStart(n) <= k < j
      ensures IsHandleChar(text[k])
    {
      assert text[k] == u[k - i];
    }
    HandleEndCovers(text, i + HandleStart(n), j);
  }

  /** A match in `text`: where it starts and where it ends. */
  datatype Span = Span(start: nat, end: nat)

  /** No match starts at any position in `[lo, hi)`. */
  predicate NoMatchStartsIn(text: string, lo: nat, hi: nat)
  {
    forall k, j :: lo <= k < hi && k <= j <= |text| ==> !IsProfileUrl(text[k..j])
  }

  /** The leftmost match starting at or after `i`. */
  function FindFrom(text: string, i: nat): (r: Option<Span>)
    requires i <= |text|
    ensures r.Some? ==> i <= r.value.start < r.value.end <= |text|
    ensures r.Some? ==> IsProfileUrl(text[r.value.start..r.value.end])
    ensures r.Some? ==> r.value.end == |text| || !IsHandleChar(text[r.value.end])
    ensures r.Some? ==> NoMatchStartsIn(text, i, r.value.start)
    ensures r.None? ==> NoMatchStartsIn(text, i, |text| + 1)
    decreases |text| - i
  {
    if i == |text| then
      EmptyIsNoProfileUrl(text[i..i]);
      None
    else match MatchAt(text, i)
      case Some(e) => Some(Span(i, e))
      case None =>
        var r := FindFrom(text, i + 1);
        NoMatchExtends(text, i, if r.Some? then r.value.start else |text| + 1);
        r
  }

  lemma EmptyIsNoProfileUrl(u: string)
    requires u == []
    ensures !IsProfileUrl(u)
  {
  }

  /** A position where nothing matches extends a match-free range to its left. */
  lemma NoMatchExtends(text: string, i: nat, hi: nat)
    requires i < hi
    requires forall j :: i <= j <= |text| ==> !IsProfileUrl(text[i..j])
    requires NoMatchStartsIn(text, i + 1, hi)
    ensures NoMatchStartsIn(text, i, hi)
  {
  }

  /** `Regex.Match(text)` for the pattern: the leftmost match, with the
      longest handle at that position. */
  function FindProfileUrl(text: string): (r: Option<Span>)
    ensures r.Some? ==> r.value.start < r.value.end <= |text|
    ensures r.Some? ==> IsProfileUrl(text[r.value.start..r.value.end])
    ensures r.Some? ==> r.value.end == |text| || !IsHandleChar(text[r.value.end])
    ensures r.Some? ==> NoMatchStartsIn(text, 0, r.value.start)
    ensures r.None? <==> NoMatchStartsIn(text, 0, |text| + 1)
  {
    FindFrom(text, 0)
  }

  /** `ExtractLinkedInUrl`: the matched text, with its original casing, or
      nothing (the source's `null`). */
  function ExtractLinkedInUrl(text: string): (r: Option<string>)
    ensures r.Some? ==> IsProfileUrl(r.value)
    ensures r.Some? ==> exists i, j :: 0 <= i < j <= |text| && r.value == text[i..j]
    ensures r.None? <==> forall i, j :: 0 <= i <= j <= |text| ==> !IsProfileUrl(text[i..j])
  {
    match FindProfileUrl(text)
    case Some(span) => Some(text[span.start..span.end])
    case None => None
  }

  /** Where the engine's attempt at `i` fails, the search moves on to `i + 1`. */
  lemma SkipsFailedStart(text: string, i: nat)
    requires i < |text|
    requires MatchAt(text, i).None?
    ensures FindFrom(text, i) == FindFrom(text, i + 1)
  {
  }

  /** Every match begins with the scheme, so a text with no `h` or `H` from
      `i` on has no match there. */
  lemma {:induction false} NoSchemeNoMatch(text: string, i: nat)
    requires i <= |text|
    requires forall k :: i <= k < |text| ==> Lower(text[k]) != 'h'
    ensures FindFrom(text, i).None?
    decreases |text| - i
  {
    if i < |text| {
      assert MatchWith(text, i, 3).None? && MatchWith(text, i, 2).None? && MatchWith(text, i, 0).None? by {
        assert Lower(text[i + 0]) != Scheme[0];
      }
      NoSchemeNoMatch(text, i + 1);
    }
  }

  /** A text that is one whole match with an `n`-letter subdomain, where
      the attempts the engine makes first (longer subdomains) fail, is
      extracted entire. */
  lemma ExtractWhole(text: string, n: nat)
    requires n == 3 || n == 2 || n == 0
    requires PrefixAt(text, 0, n) && HandleEnd(text, HandleStart(n)) == |text|
    requires n < 3 ==> !PrefixAt(text, 0, 3)
    requires n < 2 ==> !PrefixAt(text, 0, 2)
    ensures ExtractLinkedInUrl(text) == Some(text)
  {
    assert MatchAt(text, 0) == Some(|text|);
    assert text[0..|text|] == text;
  }

  const WwwProfile := "https://www.linkedin.com/in/jane-doe_1"

  lemma WwwScheme() ensures LiteralAt(WwwProfile, 0, Scheme) {}
  lemma WwwSubdomain() ensures SubdomainAt(WwwProfile, 8, 3) {}
  lemma WwwHost() ensures LiteralAt(WwwProfile, HostStart(3), HostAndPath) {}
  lemma WwwHandle() ensures HandleEnd(WwwProfile, HandleStart(3)) == |WwwProfile| {}

  lemma AcceptsSubdomainWww()
    ensures ExtractLinkedInUrl(WwwProfile) == Some(WwwProfile)
  {
    WwwScheme();
    WwwSubdomain();
    WwwHost();
    WwwHandle();
    ExtractWhole(WwwProfile, 3);
  }

  const FrProfile := "https://fr.linkedin.com/in/jean-pierre"

  lemma FrScheme() ensures LiteralAt(FrProfile, 0, Scheme) {}
  lemma FrSubdomain() ensures SubdomainAt(FrProfile, 8, 2) && !SubdomainAt(FrProfile, 8, 3) {}
  lemma FrHost() ensures LiteralAt(FrProfile, HostStart(2), HostAndPath) {}
  lemma FrHandle() ensures HandleEnd(FrProfile, HandleStart(2)) == |FrProfile| {}

  /** A two-letter subdomain matches once the three-letter attempt fails. */
  lemma AcceptsSubdomainFr()
    ensures ExtractLinkedInUrl(FrProfile) == Some(FrProfile)
  {
    FrScheme();
    FrSubdomain();
    FrHost();
    FrHandle();
    ExtractWhole(FrProfile, 2);
  }

  const CompanyPage := "https://linkedin.com/company/acme"

  lemma CompanyNoMatchAtStart()
    ensures !SubdomainAt(CompanyPage, 8, 3) && !SubdomainAt(CompanyPage, 8, 2)
    ensures !LiteralAt(CompanyPage, HostStart(0), HostAndPath)
  {
    assert CompanyPage[11] == 'k' && CompanyPage[10] == 'n';
    assert CompanyPage[HostStart(0) + 13] != HostAndPath[13];
  }

  lemma CompanyNoSchemeAfterStart()
    ensures forall k :: 1 <= k < |CompanyPage| ==> Lower(CompanyPage[k]) != 'h'
  {
  }

  /** A company page is not a profile: `/in/` is required. */
  lemma RejectsCompanyPage()
    ensures ExtractLinkedInUrl(CompanyPage) == None
  {
    CompanyNoMatchAtStart();
    assert MatchAt(CompanyPage, 0).None?;
    SkipsFailedStart(CompanyPage, 0);
    CompanyNoSchemeAfterStart();
    NoSchemeNoMatch(CompanyPage, 1);
  }

  lemma RejectsPlainText()
    ensures ExtractLinkedInUrl("no profile link") == None
  {
  }
}
