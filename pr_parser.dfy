/**
 * Parsing a pull-request reference out of free text (a chat message), and the
 * keyword test for whether a message asks for a review.
 *
 * Each of the four patterns is searched for as `re.search` does: the matcher
 * is tried at every position from the left and the first position that
 * matches wins. The patterns are deterministic (greedy runs that cannot give
 * characters back usefully), so each matcher is a plain function of the text
 * that follows the position.
 */
module PrParser {
  import opened Wrappers
  import opened Text

  datatype PRReference = PRReference(owner: string, repo: string, prNumber: nat)

  /** The three groups a reference pattern captures; a short or numbered
      reference captures only `digits`. */
  datatype Groups = Groups(owner: string, repo: string, digits: string)

  // ---------------------------------------------------------------------------
  // re.search: the leftmost position at which a matcher succeeds
  // ---------------------------------------------------------------------------

  function SearchFrom<G>(n: nat, matchAt: nat -> Option<G>, p: nat): (r: Option<(nat, G)>)
    requires p <= n + 1
    ensures r.Some? ==> p <= r.value.0 <= n && matchAt(r.value.0) == Some(r.value.1)
    ensures r.Some? ==> forall q | p <= q < r.value.0 :: matchAt(q).None?
    ensures r.None? ==> forall q | p <= q <= n :: matchAt(q).None?
    decreases n + 1 - p
  {
    if p > n then None
    else match matchAt(p)
      case Some(g) => Some((p, g))
      case None => SearchFrom(n, matchAt, p + 1)
  }

  /** `re.search` over a text of length `n`: positions 0 to `n` are tried. */
  function Search<G>(n: nat, matchAt: nat -> Option<G>): Option<(nat, G)> {
    SearchFrom(n, matchAt, 0)
  }

  // ---------------------------------------------------------------------------
  // Pattern 1: https?://github\.com/([^/]+)/([^/]+)/pull/(\d+)
  // ---------------------------------------------------------------------------

  predicate NotSlash(c: char) {
    c != '/'
  }

  predicate NoSlash(s: string) {
    forall i | 0 <= i < |s| :: NotSlash(s[i])
  }

  const HttpsHost: string := "https://github.com/"
  const HttpHost: string := "http://github.com/"

  predicate IsHost(host: string) {
    host == HttpsHost || host == HttpHost
  }

  /** The text the URL pattern matches, after the host `https://github.com/`
      or `http://github.com/`. */
  function UrlText(host: string, g: Groups): string {
    host + g.owner + "/" + g.repo + "/pull/" + g.digits
  }

  predicate ValidUrlGroups(g: Groups) {
    g.owner != "" && NoSlash(g.owner) && g.repo != "" && NoSlash(g.repo) && IsDigitRun(g.digits)
  }

  /** The host `https?://github\.com/` that `t` starts with, if any. */
  function HostOf(t: string): (r: Option<string>)
    ensures r.Some? ==> IsHost(r.value) && StartsWith(t, r.value)
  {
    if StartsWith(t, HttpsHost) then Some(HttpsHost)
    else if StartsWith(t, HttpHost) then Some(HttpHost)
    else None
  }

  /** The URL pattern matched at the start of `t`. */
  function MatchUrl(t: string): (r: Option<Groups>)
    ensures r.Some? ==> ValidUrlGroups(r.value)
    ensures r.Some? ==> exists host :: IsHost(host) && StartsWith(t, UrlText(host, r.value))
  {
    match HostOf(t)
    case None => None
    case Some(host) =>
      var u := t[|host|..];
      var owner := TakeWhile(u, NotSlash);
      if owner.0 == "" || owner.1 == [] then None
      else
        var repo := TakeWhile(owner.1[1..], NotSlash);
        if repo.0 == "" || !StartsWith(repo.1, "/pull/") then None
        else
          var number := TakeWhile(repo.1[6..], IsDigit);
          if number.0 == "" then None
          else
            var g := Groups(owner.0, repo.0, number.0);
            UrlPrefix(host, t, g, owner.1, repo.1, number.1);
            Some(g)
  }

  lemma UrlPrefix(host: string, t: string, g: Groups, r1: string, r2: string, r3: string)
    requires StartsWith(t, host)
    requires t[|host|..] == g.owner + r1 && r1 != [] && r1[0] == '/'
    requires r1[1..] == g.repo + r2 && StartsWith(r2, "/pull/") && r2[6..] == g.digits + r3
    ensures StartsWith(t, UrlText(host, g))
  {
    assert r2 == "/pull/" + r2[6..];
    assert r1 == "/" + r1[1..];
    assert t == host + t[|host|..];
    UrlTextPieces(host, g, r3);
    assert t == UrlText(host, g) + r3;
  }

  /** The URL text followed by `rest`, associated to the right. */
  lemma UrlTextPieces(host: string, g: Groups, rest: string)
    ensures UrlText(host, g) + rest == host + (g.owner + ("/" + (g.repo + ("/pull/" + (g.digits + rest)))))
  {
  }

  function UrlAt(s: string, p: nat): Option<Groups> {
    if p <= |s| then MatchUrl(s[p..]) else None
  }

  // ---------------------------------------------------------------------------
  // Pattern 2: ([a-zA-Z0-9_-]+)/([a-zA-Z0-9_.-]+)#(\d+)
  // ---------------------------------------------------------------------------

  predicate IsAsciiAlnum(c: char) {
    'a' <= c <= 'z' || 'A' <= c <= 'Z' || '0' <= c <= '9'
  }

  predicate IsOwnerChar(c: char) {
    IsAsciiAlnum(c) || c == '_' || c == '-'
  }

  predicate IsRepoChar(c: char) {
    IsAsciiAlnum(c) || c == '_' || c == '.' || c == '-'
  }

  /** The text `owner/repo#digits`. */
  function RepoRefText(g: Groups): string {
    g.owner + "/" + g.repo + "#" + g.digits
  }

  predicate ValidRepoRefGroups(g: Groups) {
    && g.owner != "" && (forall i | 0 <= i < |g.owner| :: IsOwnerChar(g.owner[i]))
    && g.repo != "" && (forall i | 0 <= i < |g.repo| :: IsRepoChar(g.repo[i]))
    && IsDigitRun(g.digits)
  }

  /** The `owner/repo#N` pattern matched at the start of `t`. */
  function MatchRepoRef(t: string): (r: Option<Groups>)
    ensures r.Some? ==> ValidRepoRefGroups(r.value) && StartsWith(t, RepoRefText(r.value))
  {
    var owner := TakeWhile(t, IsOwnerChar);
    if owner.0 == "" || !StartsWith(owner.1, "/") then None
    else
      var repo := TakeWhile(owner.1[1..], IsRepoChar);
      if repo.0 == "" || !StartsWith(repo.1, "#") then None
      else
        var number := TakeWhile(repo.1[1..], IsDigit);
        if number.0 == "" then None
        else
          var g := Groups(owner.0, repo.0, number.0);
          RepoRefPrefix(t, g, owner.1, repo.1, number.1);
          Some(g)
  }

  lemma RepoRefPrefix(t: string, g: Groups, r1: string, r2: string, r3: string)
    requires t == g.owner + r1 && StartsWith(r1, "/") && r1[1..] == g.repo + r2
    requires StartsWith(r2, "#") && r2[1..] == g.digits + r3
    ensures StartsWith(t, RepoRefText(g))
  {
    assert r2 == "#" + r2[1..];
    assert r1 == "/" + r1[1..];
    RepoRefPieces(g, r3);
    assert t == RepoRefText(g) + r3;
  }

  /** The `owner/repo#N` text followed by `rest`, associated to the right. */
  lemma RepoRefPieces(g: Groups, rest: string)
    ensures RepoRefText(g) + rest == g.owner + ("/" + (g.repo + ("#" + (g.digits + rest))))
  {
  }

  function RepoRefAt(s: string, p: nat): Option<Groups> {
    if p <= |s| then MatchRepoRef(s[p..]) else None
  }

  // ---------------------------------------------------------------------------
  // Pattern 3: (?:^|\s)#(\d+)(?:\s|$)
  // ---------------------------------------------------------------------------

  /** The text before the digits of a `#N` match: `#` where `^` matches, or a
      whitespace character and `#`. */
  predicate IsShortLead(lead: string, atStart: bool) {
    (lead == "#" && atStart) || (|lead| == 2 && IsSpace(lead[0]) && lead[1] == '#')
  }

  /** `#N` matched at the start of `t`; `atStart` says whether `t` begins the
      whole text (where `^` matches). The result is the digit run, which the
      text shows between its lead and whitespace or the end. */
  function MatchShortRef(t: string, atStart: bool): (r: Option<string>)
    ensures r.Some? ==> IsDigitRun(r.value)
    ensures r.Some? ==> exists lead, rest :: ShortRefSplit(t, lead, r.value, rest, atStart)
  {
    var k :=
      if atStart && StartsWith(t, "#") then 1
      else if |t| >= 2 && IsSpace(t[0]) && t[1] == '#' then 2
      else 0;
    if k == 0 then None
    else
      var number := TakeWhile(t[k..], IsDigit);
      if number.0 != "" && (number.1 == [] || IsSpace(number.1[0])) then
        assert IsShortLead(t[..k], atStart) && t == t[..k] + number.0 + number.1;
        assert ShortRefSplit(t, t[..k], number.0, number.1, atStart);
        Some(number.0)
      else None
  }

  /** `t` is a `#N` lead, the digit run `digits` and a `rest` that is empty
      or starts with whitespace. */
  predicate ShortRefSplit(t: string, lead: string, digits: string, rest: string, atStart: bool) {
    t == lead + digits + rest && IsShortLead(lead, atStart) && (rest == [] || IsSpace(rest[0]))
  }

  function ShortRefAt(s: string, p: nat): Option<string> {
    if p <= |s| then MatchShortRef(s[p..], p == 0) else None
  }

  // ---------------------------------------------------------------------------
  // Pattern 4: (?:review|pr|pull\s*request)\s+(\d+), ignoring case
  // ---------------------------------------------------------------------------

  /** `t` starts with the lower-case word `word`, ignoring the case of ASCII letters. */
  predicate StartsWithIgnoreCase(t: string, word: string) {
    |word| <= |t| && Lower(t[..|word|]) == word
  }

  /** `review`, `pr`, or `pull` and `request` with only whitespace between,
      in any letter case. */
  predicate IsReviewWord(w: string) {
    || Lower(w) == "review"
    || Lower(w) == "pr"
    || (&& |w| >= 11 && Lower(w[..4]) == "pull" && Lower(w[|w| - 7..]) == "request"
        && forall i | 4 <= i < |w| - 7 :: IsSpace(w[i]))
  }

  /** What follows `review`, `pr` or `pull\s*request` at the start of `t`. */
  function AfterReviewWord(t: string): (r: Option<string>)
    ensures r.Some? ==> |r.value| <= |t| && t == t[..|t| - |r.value|] + r.value
    ensures r.Some? ==> IsReviewWord(t[..|t| - |r.value|])
  {
    if StartsWithIgnoreCase(t, "review") then
      assert t == t[..6] + t[6..];
      Some(t[6..])
    else if StartsWithIgnoreCase(t, "pr") then
      assert t == t[..2] + t[2..];
      Some(t[2..])
    else if StartsWithIgnoreCase(t, "pull") then
      var gap := TakeWhile(t[4..], IsSpace);
      if StartsWithIgnoreCase(gap.1, "request") then
        PullRequestWord(t, gap.0, gap.1);
        Some(gap.1[7..])
      else None
    else None
  }

  lemma PullRequestWord(t: string, inner: string, after: string)
    requires StartsWithIgnoreCase(t, "pull") && t[4..] == inner + after
    requires forall i | 0 <= i < |inner| :: IsSpace(inner[i])
    requires StartsWithIgnoreCase(after, "request")
    ensures t == t[..4 + |inner| + 7] + after[7..]
    ensures IsReviewWord(t[..4 + |inner| + 7])
  {
    var n := 4 + |inner| + 7;
    var w := t[..n];
    assert after == after[..7] + after[7..];
    assert t == t[..4] + inner + after[..7] + after[7..];
    assert w[..4] == t[..4];
    assert w[|w| - 7..] == after[..7];
    assert forall i | 4 <= i < |w| - 7 :: w[i] == inner[i - 4];
  }

  /** `review N`, `pr N` or `pull request N` matched at the start of `t`: the
      result is the maximal digit run after the word and whitespace. */
  function MatchNumberRef(t: string): (r: Option<string>)
    ensures r.Some? ==> IsDigitRun(r.value)
    ensures r.Some? ==> exists word, gap, rest :: NumberRefSplit(t, word, gap, r.value, rest)
  {
    match AfterReviewWord(t)
    case None => None
    case Some(u) =>
      var gap := TakeWhile(u, IsSpace);
      var number := TakeWhile(gap.1, IsDigit);
      if gap.0 == "" || number.0 == "" then None
      else
        NumberRefWitness(t, u, gap.0, number.0, number.1);
        Some(number.0)
  }

  /** `t` is a review word, a non-empty whitespace gap, the digit run `digits`
      and a `rest` that does not continue the run. */
  predicate NumberRefSplit(t: string, word: string, gap: string, digits: string, rest: string) {
    && t == word + gap + digits + rest
    && IsReviewWord(word)
    && gap != [] && (forall i | 0 <= i < |gap| :: IsSpace(gap[i]))
    && (rest == [] || !IsDigit(rest[0]))
  }

  lemma NumberRefWitness(t: string, u: string, gap: string, digits: string, rest: string)
    requires AfterReviewWord(t) == Some(u)
    requires u == gap + (digits + rest)
    requires gap != [] && forall i | 0 <= i < |gap| :: IsSpace(gap[i])
    requires rest == [] || !IsDigit(rest[0])
    ensures NumberRefSplit(t, t[..|t| - |u|], gap, digits, rest)
  {
    var word := t[..|t| - |u|];
    assert t == word + u;
    assert word + u == word + gap + digits + rest;
  }

  function NumberRefAt(s: string, p: nat): Option<string> {
    if p <= |s| then MatchNumberRef(s[p..]) else None
  }

  // ---------------------------------------------------------------------------
  // parse_pr_reference
  // ---------------------------------------------------------------------------

  /** A configured default: set and not empty. */
  predicate IsConfigured(setting: Option<string>) {
    setting.Some? && setting.value != ""
  }

  /** A `#N` or `review N` reference resolved against the configured defaults. */
  function WithDefaults(digits: string, defaultOwner: Option<string>, defaultRepo: Option<string>): (r: Option<PRReference>)
    requires AllDigits(digits)
    ensures r.Some? <==> IsConfigured(defaultOwner) && IsConfigured(defaultRepo)
    ensures r.Some? ==> r.value.owner == defaultOwner.value && r.value.repo == defaultRepo.value
    ensures r.Some? ==> r.value.prNumber == DecimalValue(digits)
  {
    if !IsConfigured(defaultOwner) || !IsConfigured(defaultRepo) then None
    else Some(PRReference(defaultOwner.value, defaultRepo.value, DecimalValue(digits)))
  }

  /** `parse_pr_reference`, with the configured default owner and repository
      passed in. */
  function ParsePrReference(text: string, defaultOwner: Option<string>, defaultRepo: Option<string>): Option<PRReference> {
    match Search(|text|, p => UrlAt(text, p))
    case Some((_, g)) => Some(PRReference(g.owner, g.repo, DecimalValue(g.digits)))
    case None =>
      match Search(|text|, p => RepoRefAt(text, p))
      case Some((_, g)) => Some(PRReference(g.owner, g.repo, DecimalValue(g.digits)))
      case None =>
        match Search(|text|, p => ShortRefAt(text, p))
        case Some((_, digits)) => WithDefaults(digits, defaultOwner, defaultRepo)
        case None =>
          match Search(|text|, p => NumberRefAt(text, p))
          case Some((_, digits)) => WithDefaults(digits, defaultOwner, defaultRepo)
          case None => None
  }

  // ---------------------------------------------------------------------------
  // What the patterns accept
  // ---------------------------------------------------------------------------

  /** Every GitHub pull-request URL is read back with its owner, repository
      and number, whatever follows the number. */
  lemma MatchUrlText(host: string, g: Groups, rest: string)
    requires IsHost(host)
    requires ValidUrlGroups(g)
    requires rest == [] || !IsDigit(rest[0])
    ensures MatchUrl(UrlText(host, g) + rest) == Some(g)
  {
    var t := UrlText(host, g) + rest;
    var r2 := "/pull/" + (g.digits + rest);
    var r1 := "/" + (g.repo + r2);
    var u := g.owner + r1;
    UrlTextPieces(host, g, rest);
    assert HostOf(t) == Some(host) && t[|host|..] == u by {
      HostOfText(host, u);
    }
    assert TakeWhile(u, NotSlash) == (g.owner, r1) by {
      TakeWhileOfRun(g.owner, r1, NotSlash);
    }
    assert TakeWhile(r1[1..], NotSlash) == (g.repo, r2) by {
      assert r1[1..] == g.repo + r2;
      TakeWhileOfRun(g.repo, r2, NotSlash);
    }
    assert StartsWith(r2, "/pull/") && TakeWhile(r2[6..], IsDigit) == (g.digits, rest) by {
      assert r2[..6] == "/pull/" && r2[6..] == g.digits + rest;
      TakeWhileOfRun(g.digits, rest, IsDigit);
    }
    MatchUrlFromPieces(t, host, g, r1, r2, rest);
  }

  lemma HostOfText(host: string, u: string)
    requires IsHost(host)
    ensures HostOf(host + u) == Some(host)
  {
    var t := host + u;
    assert t[..|host|] == host;
    if host == HttpHost {
      assert t[4] == ':';
      assert !StartsWith(t, HttpsHost) by { assert HttpsHost[4] == 's'; }
    }
  }

  lemma MatchUrlFromPieces(t: string, host: string, g: Groups, r1: string, r2: string, r3: string)
    requires HostOf(t) == Some(host) && g.owner != "" && g.repo != "" && g.digits != ""
    requires TakeWhile(t[|host|..], NotSlash) == (g.owner, r1) && r1 != []
    requires TakeWhile(r1[1..], NotSlash) == (g.repo, r2) && StartsWith(r2, "/pull/")
    requires TakeWhile(r2[6..], IsDigit) == (g.digits, r3)
    ensures MatchUrl(t) == Some(g)
  {
  }

  /** Every `owner/repo#N` is read back, whatever follows the number. */
  lemma MatchRepoRefText(g: Groups, rest: string)
    requires ValidRepoRefGroups(g)
    requires rest == [] || !IsDigit(rest[0])
    ensures MatchRepoRef(RepoRefText(g) + rest) == Some(g)
  {
    var t := RepoRefText(g) + rest;
    var r2 := "#" + (g.digits + rest);
    var r1 := "/" + (g.repo + r2);
    RepoRefPieces(g, rest);
    assert TakeWhile(t, IsOwnerChar) == (g.owner, r1) by {
      TakeWhileOfRun(g.owner, r1, IsOwnerChar);
    }
    assert StartsWith(r1, "/") && TakeWhile(r1[1..], IsRepoChar) == (g.repo, r2) by {
      assert r1[1..] == g.repo + r2;
      TakeWhileOfRun(g.repo, r2, IsRepoChar);
    }
    assert StartsWith(r2, "#") && TakeWhile(r2[1..], IsDigit) == (g.digits, rest) by {
      assert r2[1..] == g.digits + rest;
      TakeWhileOfRun(g.digits, rest, IsDigit);
    }
    MatchRepoRefFromPieces(t, g, r1, r2, rest);
  }

  lemma MatchRepoRefFromPieces(t: string, g: Groups, r1: string, r2: string, r3: string)
    requires g.owner != "" && g.repo != "" && g.digits != ""
    requires TakeWhile(t, IsOwnerChar) == (g.owner, r1) && StartsWith(r1, "/")
    requires TakeWhile(r1[1..], IsRepoChar) == (g.repo, r2) && StartsWith(r2, "#")
    requires TakeWhile(r2[1..], IsDigit) == (g.digits, r3)
    ensures MatchRepoRef(t) == Some(g)
  {
  }

  /** `#N` at the very start of the text, or after whitespace, is read back
      when whitespace or the end of the text follows the number. */
  lemma MatchShortRefText(lead: string, digits: string, rest: string, atStart: bool)
    requires (lead == "#" && atStart) || (|lead| == 2 && IsSpace(lead[0]) && lead[1] == '#')
    requires IsDigitRun(digits)
    requires rest == [] || IsSpace(rest[0])
    ensures MatchShortRef(lead + digits + rest, atStart) == Some(digits)
  {
    var t := lead + digits + rest;
    assert t[|lead|..] == digits + rest;
    assert TakeWhile(digits + rest, IsDigit) == (digits, rest) by {
      TakeWhileOfRun(digits, rest, IsDigit);
    }
    if lead == "#" && atStart {
      assert StartsWith(t, "#") && t[1..] == digits + rest;
    } else {
      assert !(atStart && StartsWith(t, "#")) by { assert t[0] == lead[0] != '#'; }
      assert |t| >= 2 && IsSpace(t[0]) && t[1] == '#' && t[2..] == digits + rest;
    }
  }

  /** `review N` and `pr N` are read back in any letter case. */
  lemma MatchNumberRefText(word: string, gap: string, digits: string, rest: string)
    requires Lower(word) == "review" || Lower(word) == "pr"
    requires gap != [] && forall i | 0 <= i < |gap| :: IsSpace(gap[i])
    requires IsDigitRun(digits)
    requires rest == [] || !IsDigit(rest[0])
    ensures MatchNumberRef(word + gap + digits + rest) == Some(digits)
  {
    var t := word + gap + digits + rest;
    var u := gap + digits + rest;
    assert t == word + u && t[..|word|] == word;
    if Lower(word) == "review" {
      assert AfterReviewWord(t) == Some(u);
    } else {
      assert !StartsWithIgnoreCase(t, "review") by {
        if |t| >= 6 {
          assert Lower(t[..6])[0] == Lower(word)[0] == 'p';
        }
      }
      assert AfterReviewWord(t) == Some(u);
    }
    assert TakeWhile(u, IsSpace) == (gap, digits + rest) by {
      assert (digits + rest)[0] == digits[0] && !IsSpace(digits[0]);
      assert u == gap + (digits + rest);
      TakeWhileOfRun(gap, digits + rest, IsSpace);
    }
    TakeWhileOfRun(digits, rest, IsDigit);
  }

  /** `pull request N` is read back in any letter case, with any run of
      whitespace, or none, between the two words. */
  lemma MatchPullRequestText(pull: string, inner: string, request: string, gap: string, digits: string, rest: string)
    requires Lower(pull) == "pull" && Lower(request) == "request"
    requires forall i | 0 <= i < |inner| :: IsSpace(inner[i])
    requires gap != [] && forall i | 0 <= i < |gap| :: IsSpace(gap[i])
    requires IsDigitRun(digits)
    requires rest == [] || !IsDigit(rest[0])
    ensures MatchNumberRef(pull + inner + request + gap + digits + rest) == Some(digits)
  {
    var u := gap + digits + rest;
    assert pull + inner + request + gap + digits + rest == pull + (inner + (request + u));
    AfterPullRequest(pull, inner, request, u);
    GapThenDigits(gap, digits, rest);
  }

  lemma AfterPullRequest(pull: string, inner: string, request: string, u: string)
    requires Lower(pull) == "pull" && Lower(request) == "request"
    requires forall i | 0 <= i < |inner| :: IsSpace(inner[i])
    ensures AfterReviewWord(pull + (inner + (request + u))) == Some(u)
  {
    var v := request + u;
    var t := pull + (inner + v);
    assert t[..4] == pull && t[4..] == inner + v;
    assert !StartsWithIgnoreCase(t, "review") by {
      assert Lower(t[..6])[0] == LowerChar(t[0]) == Lower(pull)[0];
    }
    assert !StartsWithIgnoreCase(t, "pr") by {
      assert Lower(t[..2])[1] == LowerChar(t[1]) == Lower(pull)[1];
    }
    assert TakeWhile(t[4..], IsSpace) == (inner, v) by {
      assert LowerChar(request[0]) == Lower(request)[0];
      assert v[0] == request[0] && !IsSpace(v[0]);
      TakeWhileOfRun(inner, v, IsSpace);
    }
    assert v[..7] == request && v[7..] == u;
  }

  /** Whitespace, then a maximal digit run: the gap and the run are taken whole. */
  lemma GapThenDigits(gap: string, digits: string, rest: string)
    requires forall i | 0 <= i < |gap| :: IsSpace(gap[i])
    requires IsDigitRun(digits)
    requires rest == [] || !IsDigit(rest[0])
    ensures TakeWhile(gap + digits + rest, IsSpace) == (gap, digits + rest)
    ensures TakeWhile(digits + rest, IsDigit) == (digits, rest)
  {
    assert (digits + rest)[0] == digits[0] && !IsSpace(digits[0]);
    assert gap + digits + rest == gap + (digits + rest);
    TakeWhileOfRun(gap, digits + rest, IsSpace);
    TakeWhileOfRun(digits, rest, IsDigit);
  }

  // ---------------------------------------------------------------------------
  // The order of the patterns and the role of the defaults
  // ---------------------------------------------------------------------------

  /** The search that decides the result of `ParsePrReference` when it finds a
      match at `p`: nothing earlier matches. */
  lemma SearchFindsFirst<G>(n: nat, matchAt: nat -> Option<G>, p: nat, g: G)
    requires p <= n && matchAt(p) == Some(g)
    requires forall q | 0 <= q < p :: matchAt(q).None?
    ensures Search(n, matchAt) == Some((p, g))
  {
  }

  /** A full URL anywhere in the text wins over every other form: the first
      one decides the result, whatever the defaults are. */
  lemma UrlTakesPriority(text: string, defaultOwner: Option<string>, defaultRepo: Option<string>)
    requires Search(|text|, p => UrlAt(text, p)).Some?
    ensures var (p, g) := Search(|text|, p => UrlAt(text, p)).value;
      && ParsePrReference(text, defaultOwner, defaultRepo) == Some(PRReference(g.owner, g.repo, DecimalValue(g.digits)))
      && exists host :: IsHost(host) && StartsWith(text[p..], UrlText(host, g))
  {
  }

  /** With no URL in the text, the first `owner/repo#N` decides the result,
      whatever the defaults are. */
  lemma RepoRefBeforeDefaults(text: string, defaultOwner: Option<string>, defaultRepo: Option<string>)
    requires Search(|text|, p => UrlAt(text, p)).None?
    requires Search(|text|, p => RepoRefAt(text, p)).Some?
    ensures var (p, g) := Search(|text|, p => RepoRefAt(text, p)).value;
      && ParsePrReference(text, defaultOwner, defaultRepo) == Some(PRReference(g.owner, g.repo, DecimalValue(g.digits)))
      && StartsWith(text[p..], RepoRefText(g))
  {
  }

  /** Without a URL or `owner/repo#N`, the first `#N` decides the result; when
      there is none, the first `review N`; when there is neither, there is no
      reference. A result always names the configured owner and repository,
      and there is none unless both are configured. */
  lemma ImplicitReferenceUsesDefaults(text: string, defaultOwner: Option<string>, defaultRepo: Option<string>)
    requires Search(|text|, p => UrlAt(text, p)).None?
    requires Search(|text|, p => RepoRefAt(text, p)).None?
    ensures var r := ParsePrReference(text, defaultOwner, defaultRepo);
      var short := Search(|text|, p => ShortRefAt(text, p));
      var number := Search(|text|, p => NumberRefAt(text, p));
      && (short.Some? ==> r == WithDefaults(short.value.1, defaultOwner, defaultRepo))
      && (short.None? && number.Some? ==> r == WithDefaults(number.value.1, defaultOwner, defaultRepo))
      && (short.None? && number.None? ==> r == None)
      && (r.Some? ==>
            && IsConfigured(defaultOwner) && IsConfigured(defaultRepo)
            && r.value.owner == defaultOwner.value && r.value.repo == defaultRepo.value)
  {
  }

  /** Every reference returned names an owner and a repository. */
  lemma ResultNamesRepository(text: string, defaultOwner: Option<string>, defaultRepo: Option<string>)
    ensures var r := ParsePrReference(text, defaultOwner, defaultRepo);
      r.Some? ==> r.value.owner != "" && r.value.repo != ""
  {
  }

  /** A URL and an `owner/repo#N` both need a slash, so a text without one can
      only refer to a pull request of the configured repository. */
  lemma NoSlashNoExplicitReference(text: string)
    requires '/' !in text
    ensures Search(|text|, p => UrlAt(text, p)).None?
    ensures Search(|text|, p => RepoRefAt(text, p)).None?
  {
    forall p | 0 <= p <= |text|
      ensures UrlAt(text, p).None? && RepoRefAt(text, p).None?
    {
      if HostOf(text[p..]).Some? {
        UrlNeedsSlash(text, p);
        assert false;
      }
      if MatchRepoRef(text[p..]).Some? {
        RepoRefNeedsSlash(text, p);
        assert false;
      }
    }
  }

  lemma UrlNeedsSlash(text: string, p: nat)
    requires p <= |text| && HostOf(text[p..]).Some?
    ensures '/' in text
  {
    var host := HostOf(text[p..]).value;
    assert text[p..][|host| - 1] == host[|host| - 1] == '/';
    assert text[p + |host| - 1] == '/';
  }

  lemma RepoRefNeedsSlash(text: string, p: nat)
    requires p <= |text| && MatchRepoRef(text[p..]).Some?
    ensures '/' in text
  {
    var g := MatchRepoRef(text[p..]).value;
    assert RepoRefText(g)[|g.owner|] == '/';
    assert text[p + |g.owner|] == '/';
  }

  /** `#N` needs a `#`. */
  lemma NoHashNoShortRef(text: string)
    requires '#' !in text
    ensures Search(|text|, p => ShortRefAt(text, p)).None?
  {
    forall p | 0 <= p <= |text|
      ensures ShortRefAt(text, p).None?
    {
      if MatchShortRef(text[p..], p == 0).Some? {
        ShortRefNeedsHash(text, p);
        assert false;
      }
    }
  }

  lemma ShortRefNeedsHash(text: string, p: nat)
    requires p <= |text| && MatchShortRef(text[p..], p == 0).Some?
    ensures '#' in text
  {
    var d := MatchShortRef(text[p..], p == 0).value;
    var lead, rest :| ShortRefSplit(text[p..], lead, d, rest, p == 0);
    assert lead[|lead| - 1] == '#';
    assert (lead + d + rest)[|lead| - 1] == lead[|lead| - 1];
    assert text[p + |lead| - 1] == '#';
  }

  /** No `review`, `pr` or `pull` starts at position `q` of `text`. */
  lemma NoReviewWordAt(text: string, q: nat)
    requires q + 2 <= |text|
    requires LowerChar(text[q]) != 'r'
    requires LowerChar(text[q]) == 'p' ==> LowerChar(text[q + 1]) != 'r' && LowerChar(text[q + 1]) != 'u'
    ensures NumberRefAt(text, q).None?
  {
    var t := text[q..];
    assert t[0] == text[q] && t[1] == text[q + 1];
    assert !StartsWithIgnoreCase(t, "review") by {
      if |t| >= 6 { assert Lower(t[..6])[0] == LowerChar(t[0]); }
    }
    assert !StartsWithIgnoreCase(t, "pr") by {
      assert Lower(t[..2])[0] == LowerChar(t[0]) && Lower(t[..2])[1] == LowerChar(t[1]);
    }
    assert !StartsWithIgnoreCase(t, "pull") by {
      if |t| >= 4 { assert Lower(t[..4])[0] == LowerChar(t[0]) && Lower(t[..4])[1] == LowerChar(t[1]); }
    }
  }

  // ---------------------------------------------------------------------------
  // Worked examples
  // ---------------------------------------------------------------------------

  lemma ExampleEmptyText(defaultOwner: Option<string>, defaultRepo: Option<string>)
    ensures ParsePrReference("", defaultOwner, defaultRepo) == None
  {
    assert UrlAt("", 0).None? && RepoRefAt("", 0).None? && ShortRefAt("", 0).None? && NumberRefAt("", 0).None?;
  }

  lemma ExampleFullUrl(text: string, defaultOwner: Option<string>, defaultRepo: Option<string>)
    requires text == "https://github.com/acme/project/pull/42"
    ensures ParsePrReference(text, defaultOwner, defaultRepo) == Some(PRReference("acme", "project", 42))
  {
    var g := Groups("acme", "project", "42");
    assert text == UrlText(HttpsHost, g) + "";
    LeadingUrlParses(HttpsHost, g, "", defaultOwner, defaultRepo);
    assert DecimalValue("42") == 42 by {
      assert "42"[..1] == "4";
    }
  }

  /** A text that opens with a pull-request URL names that pull request. */
  lemma LeadingUrlParses(host: string, g: Groups, rest: string,
                         defaultOwner: Option<string>, defaultRepo: Option<string>)
    requires IsHost(host) && ValidUrlGroups(g)
    requires rest == [] || !IsDigit(rest[0])
    ensures ParsePrReference(UrlText(host, g) + rest, defaultOwner, defaultRepo)
      == Some(PRReference(g.owner, g.repo, DecimalValue(g.digits)))
  {
    var text := UrlText(host, g) + rest;
    MatchUrlText(host, g, rest);
    assert text[0..] == text;
    SearchFindsFirst(|text|, p => UrlAt(text, p), 0, g);
  }

  lemma ExampleShortRef(digits: string, defaultOwner: Option<string>, defaultRepo: Option<string>)
    requires IsDigitRun(digits)
    ensures ParsePrReference("#" + digits, defaultOwner, defaultRepo)
      == if IsConfigured(defaultOwner) && IsConfigured(defaultRepo)
         then Some(PRReference(defaultOwner.value, defaultRepo.value, DecimalValue(digits)))
         else None
  {
    var text := "#" + digits;
    assert '/' !in text by {
      assert forall i | 1 <= i < |text| :: text[i] == digits[i - 1];
    }
    NoSlashNoExplicitReference(text);
    MatchShortRefText("#", digits, "", true);
    assert text + "" == text && text[0..] == text;
    SearchFindsFirst(|text|, p => ShortRefAt(text, p), 0, digits);
  }

  /** A text with no `/` and no `#` whose first `review N` is at `p` refers to
      pull request N of the configured repository, when there is one. */
  lemma NumberRefParses(text: string, p: nat, digits: string, defaultOwner: Option<string>, defaultRepo: Option<string>)
    requires '/' !in text && '#' !in text
    requires p <= |text| && NumberRefAt(text, p) == Some(digits)
    requires forall q | 0 <= q < p :: NumberRefAt(text, q).None?
    ensures ParsePrReference(text, defaultOwner, defaultRepo) == WithDefaults(digits, defaultOwner, defaultRepo)
  {
    NoSlashNoExplicitReference(text);
    NoHashNoShortRef(text);
    SearchFindsFirst(|text|, p => NumberRefAt(text, p), p, digits);
  }

  /** With the defaults configured, `please review 55` refers to pull request 55
      of the configured repository. */
  lemma ExampleReviewNumber(text: string, defaultOwner: Option<string>, defaultRepo: Option<string>)
    requires text == "please review 55"
    requires IsConfigured(defaultOwner) && IsConfigured(defaultRepo)
    ensures ParsePrReference(text, defaultOwner, defaultRepo)
      == Some(PRReference(defaultOwner.value, defaultRepo.value, 55))
  {
    ReviewNumberSearchMarks(text);
    ReviewNumberSearch(text);
    ReviewNumberSearchSkipped(text);
    NumberRefParses(text, 7, "55", defaultOwner, defaultRepo);
    assert DecimalValue("55") == 55 by {
      assert "55"[..1] == "5";
    }
  }

  lemma ReviewNumberSearchMarks(text: string)
    requires text == "please review 55"
    ensures '/' !in text && '#' !in text
  {
  }

  lemma ReviewNumberSearch(text: string)
    requires text == "please review 55"
    ensures NumberRefAt(text, 7) == Some("55")
  {
    assert text[7..] == "review" + " " + "55" + "";
    MatchNumberRefText("review", " ", "55", "");
  }

  lemma ReviewNumberSearchSkipped(text: string)
    requires text == "please review 55"
    ensures forall q | 0 <= q < 7 :: NumberRefAt(text, q).None?
  {
    forall q | 0 <= q < 7
      ensures NumberRefAt(text, q).None?
    {
      NoReviewWordAt(text, q);
    }
  }

  /** With the defaults configured, `Check PR 77` refers to pull request 77 of
      the configured repository. */
  lemma ExamplePrNumber(text: string, defaultOwner: Option<string>, defaultRepo: Option<string>)
    requires text == "Check PR 77"
    requires IsConfigured(defaultOwner) && IsConfigured(defaultRepo)
    ensures ParsePrReference(text, defaultOwner, defaultRepo)
      == Some(PRReference(defaultOwner.value, defaultRepo.value, 77))
  {
    PrNumberSearchMarks(text);
    PrNumberSearch(text);
    PrNumberSearchSkipped(text);
    NumberRefParses(text, 6, "77", defaultOwner, defaultRepo);
    assert DecimalValue("77") == 77 by {
      assert "77"[..1] == "7";
    }
  }

  lemma PrNumberSearchMarks(text: string)
    requires text == "Check PR 77"
    ensures '/' !in text && '#' !in text
  {
  }

  lemma PrNumberSearch(text: string)
    requires text == "Check PR 77"
    ensures NumberRefAt(text, 6) == Some("77")
  {
    assert text[6..] == "PR" + " " + "77" + "";
    MatchNumberRefText("PR", " ", "77", "");
  }

  lemma PrNumberSearchSkipped(text: string)
    requires text == "Check PR 77"
    ensures forall q | 0 <= q < 6 :: NumberRefAt(text, q).None?
  {
    forall q | 0 <= q < 6
      ensures NumberRefAt(text, q).None?
    {
      NoReviewWordAt(text, q);
    }
  }

  // ---------------------------------------------------------------------------
  // extract_review_intent
  // ---------------------------------------------------------------------------

  const ReviewKeywords: seq<string> := ["review", "check", "look at", "examine", "analyze", "inspect"]

  /** Whether a message asks for a review: one of the keywords occurs in it,
      ignoring letter case. */
  function ExtractReviewIntent(text: string): (r: bool)
    ensures r <==> exists k, i | k in ReviewKeywords :: OccursAt(Lower(text), k, i)
  {
    var lowered := Lower(text);
    exists k | k in ReviewKeywords :: Contains(lowered, k)
  }

  /** Shouting does not change the answer. */
  lemma IntentIgnoresCase(text: string)
    ensures ExtractReviewIntent(Upper(text)) == ExtractReviewIntent(text)
  {
    LowerOfUpper(text);
  }

  /** A message that asks for a review still does with more text around it. */
  lemma IntentSurvivesContext(before: string, text: string, after: string)
    requires ExtractReviewIntent(text)
    ensures ExtractReviewIntent(before + text + after)
  {
    var k, i :| k in ReviewKeywords && OccursAt(Lower(text), k, i);
    var whole := before + text + after;
    LowerOfConcat(before + text, after);
    LowerOfConcat(before, text);
    assert Lower(whole) == Lower(before) + Lower(text) + Lower(after);
    assert Lower(whole)[|before| + i..|before| + i + |k|] == Lower(text)[i..i + |k|];
    assert OccursAt(Lower(whole), k, |before| + i);
  }

  lemma ExampleIntent()
    ensures ExtractReviewIntent("REVIEW this")
    ensures ExtractReviewIntent("Please CHECK it")
  {
    assert Lower("REVIEW this")[0..6] == "review";
    assert OccursAt(Lower("REVIEW this"), "review", 0);
    assert Lower("Please CHECK it")[7..12] == "check";
    assert OccursAt(Lower("Please CHECK it"), "check", 7);
  }

  /** Every keyword holds one of the letters v, c, k, x, z and p, so a text
      with none of them, in either case, does not ask for a review. */
  lemma NoKeywordLetterNoIntent(text: string)
    requires forall i | 0 <= i < |text| :: LowerChar(text[i]) !in {'v', 'c', 'k', 'x', 'z', 'p'}
    ensures !ExtractReviewIntent(text)
  {
    forall k, i | k in ReviewKeywords
      ensures !OccursAt(Lower(text), k, i)
    {
      var j := KeywordLetter(k);
      if 0 <= i && i + |k| <= |text| {
        assert Lower(text)[i..i + |k|][j] == LowerChar(text[i + j]);
      }
    }
  }

  /** The position in a keyword of its letter v, c, k, x, z or p. */
  lemma KeywordLetter(k: string) returns (j: nat)
    requires k in ReviewKeywords
    ensures j < |k| && k[j] in {'v', 'c', 'k', 'x', 'z', 'p'}
  {
    j := if k == "review" then 2 else if k == "check" then 0 else if k == "look at" then 3
      else if k == "examine" then 1 else if k == "analyze" then 5 else 3;
  }

  lemma ExampleNoIntent(text: string)
    requires text == "Merge when ready"
    ensures !ExtractReviewIntent("")
    ensures !ExtractReviewIntent(text)
  {
    NoKeywordLetterNoIntent(text);
  }
}
