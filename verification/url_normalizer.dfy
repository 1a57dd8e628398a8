/** Canonicalisation of a remote URL (`normalizeGitUrl` in
    src/extension.ts): editor-proxy stripping, the per-provider SSH and
    HTTPS patterns, and the generic clean-up fallback. */
module UrlNormalizer {
  import opened Wrappers
  import opened JsStrings
  import opened HostDetection

  /** `url.replace('vscode.dev/', '')`: only the first occurrence goes. */
  function StripEditorProxy(url: string): string {
    ReplaceFirst(url, "vscode.dev/", "")
  }

  function Domain(h: HostType): string
    requires h != Unknown
  {
    match h
    case GitHub => "github.com"
    case GitLab => "gitlab.com"
    case Bitbucket => "bitbucket.org"
  }

  /** The literal head of the SSH pattern `git@<domain>:(.+?)(?:\.git)?$`. */
  function SshPrefix(h: HostType): string
    requires h != Unknown
  {
    "git@" + Domain(h) + ":"
  }

  /** The literal head of the HTTPS pattern `https://<domain>/(.+?)(?:\.git)?$`,
      which is also the head of every canonical URL. */
  function HttpsPrefix(h: HostType): string
    requires h != Unknown
  {
    "https://" + Domain(h) + "/"
  }

  // ---------------------------------------------------------------------
  // The patterns `<prefix>(.+?)(?:\.git)?$`

  /** What `.+` can consume up to the end of the input: at least one
      character and no line terminator (the `.` excludes them). */
  predicate Capturable(rest: string) {
    |rest| > 0 && forall j :: 0 <= j < |rest| ==> !IsLineTerminator(rest[j])
  }

  /** The leftmost position at or after `from` where the unanchored pattern
      matches: the prefix occurs there and a capturable remainder follows. */
  function MatchStartFrom(s: string, prefix: string, from: nat): (r: Option<nat>)
    requires from <= |s|
    decreases |s| - from
    ensures r.Some? ==> from <= r.value && OccursAt(prefix, s, r.value)
    ensures r.Some? ==> Capturable(s[r.value + |prefix|..])
    ensures r.Some? ==> forall j :: from <= j < r.value && OccursAt(prefix, s, j) ==> !Capturable(s[j + |prefix|..])
    ensures r.None? ==> forall j :: from <= j <= |s| && OccursAt(prefix, s, j) ==> !Capturable(s[j + |prefix|..])
  {
    if OccursAt(prefix, s, from) && Capturable(s[from + |prefix|..]) then Some(from)
    else if from == |s| then None
    else MatchStartFrom(s, prefix, from + 1)
  }

  /** The group `(.+?)` when followed by `(?:\.git)?$`: the lazy group
      tries the lengths 1, 2, ... and stops at the first one after which
      either nothing or exactly ".git" remains. */
  function LazyCapture(rest: string): (c: string)
    requires |rest| > 0
    ensures 1 <= |c| && (rest == c || rest == c + ".git")
    ensures forall n :: 1 <= n < |c| ==> rest[n..] != "" && rest[n..] != ".git"
  {
    if |rest| >= 5 && EndsWith(rest, ".git") then rest[..|rest| - 4] else rest
  }

  /** Where the prefix occurs with a non-empty remainder, the input ends
      with the prefix followed by the capture, with or without ".git". */
  lemma CaptureEndsInput(s: string, prefix: string, i: nat)
    requires OccursAt(prefix, s, i) && i + |prefix| < |s|
    ensures var c := LazyCapture(s[i + |prefix|..]);
            EndsWith(s, prefix + c) || EndsWith(s, prefix + c + ".git")
  {
    var rest := s[i + |prefix|..];
    var c := LazyCapture(rest);
    assert s[i..] == prefix + rest;
    assert s[|s| - |prefix + rest|..] == prefix + rest;
    if rest == c {
      assert EndsWith(s, prefix + c);
    } else {
      assert prefix + rest == prefix + c + ".git";
    }
  }

  /** The capture taken at the leftmost match is the lazy one. */
  lemma LeftmostLazyCapture(s: string, prefix: string, i: nat)
    requires MatchStartFrom(s, prefix, 0) == Some(i)
    ensures var rest := s[i + |prefix|..];
            var c := LazyCapture(rest);
            && (rest == c || rest == c + ".git")
            && forall n :: 1 <= n < |c| ==> rest[n..] != "" && rest[n..] != ".git"
  {
  }

  /** `s.match(pattern)[1]` for the pattern `<prefix>(.+?)(?:\.git)?$`. */
  function MatchRemote(s: string, prefix: string): (r: Option<string>)
    ensures r.Some? ==> Capturable(r.value)
    ensures r.Some? ==> EndsWith(s, prefix + r.value) || EndsWith(s, prefix + r.value + ".git")
    ensures r.None? <==> forall j :: 0 <= j <= |s| && OccursAt(prefix, s, j) ==> !Capturable(s[j + |prefix|..])
    ensures r.Some? ==>
              && MatchStartFrom(s, prefix, 0).Some?
              && var rest := s[MatchStartFrom(s, prefix, 0).value + |prefix|..];
                 && (rest == r.value || rest == r.value + ".git")
                 && forall n :: 1 <= n < |r.value| ==> rest[n..] != "" && rest[n..] != ".git"
  {
    match MatchStartFrom(s, prefix, 0)
    case None => None
    case Some(i) =>
      CaptureEndsInput(s, prefix, i);
      LeftmostLazyCapture(s, prefix, i);
      Some(LazyCapture(s[i + |prefix|..]))
  }

  // ---------------------------------------------------------------------
  // The fallback (lines 94-96)

  /** `.replace(/\.git$/, '')` */
  function DropGitSuffix(s: string): (r: string)
    ensures EndsWith(s, ".git") ==> r + ".git" == s
    ensures !EndsWith(s, ".git") ==> r == s
  {
    if EndsWith(s, ".git") then s[..|s| - 4] else s
  }

  /** `.replace(/^git:\/\//, 'https://')` */
  function RewriteGitScheme(s: string): string {
    if "git://" <= s then "https://" + s[6..] else s
  }

  /** Drop a trailing ".git", then trim, then rewrite a leading "git://". */
  function Cleanup(s: string): string {
    RewriteGitScheme(Trim(DropGitSuffix(s)))
  }

  // ---------------------------------------------------------------------
  // normalizeGitUrl

  function NormalizeGitUrl(url: string): string {
    var u := StripEditorProxy(url);
    var host := DetectHostType(u);
    if host == Unknown then Cleanup(u)
    else
      match MatchRemote(u, SshPrefix(host)) {
        case Some(path) => HttpsPrefix(host) + path
        case None =>
          match MatchRemote(u, HttpsPrefix(host)) {
            case Some(path) => HttpsPrefix(host) + path
            case None => Cleanup(u)
          }
      }
  }

  // ---------------------------------------------------------------------
  // Host type survives normalisation

  /** No domain that the detector ranks above h's own occurs in `s`. */
  predicate NoHigherDomain(s: string, h: HostType) {
    && (h == GitLab || h == Bitbucket ==> !Contains(s, "github.com"))
    && (h == Bitbucket ==> !Contains(s, "gitlab.com"))
  }

  lemma NoHigherDomainInside(s: string, t: string, h: HostType)
    ensures Contains(s, t) && NoHigherDomain(s, h) ==> NoHigherDomain(t, h)
  {
    ContainsTransitive(s, t, "github.com");
    ContainsTransitive(s, t, "gitlab.com");
  }

  lemma NoHigherDomainAfter(x: string, t: string, h: HostType)
    requires forall j :: 0 <= j < |x| ==> x[j] != 'g'
    ensures NoHigherDomain(x + t, h) <==> NoHigherDomain(t, h)
  {
    ContainsAfterPrefix(x, t, "github.com");
    ContainsAfterPrefix(x, t, "gitlab.com");
  }

  lemma NoHigherDomainBeforeGitSuffix(t: string, h: HostType)
    ensures NoHigherDomain(t + ".git", h) <==> NoHigherDomain(t, h)
  {
    ContainsBeforeGitSuffix(t, "github.com");
    ContainsBeforeGitSuffix(t, "gitlab.com");
  }

  /** No domain contains a domain the detector ranks above it. */
  lemma DomainLacksHigher(h: HostType)
    requires h != Unknown
    ensures NoHigherDomain(Domain(h), h)
  {
    if h == GitLab {
      MissingCharacter(Domain(h), "github.com", 'h');
    } else if h == Bitbucket {
      MissingCharacter(Domain(h), "github.com", 'h');
      MissingCharacter(Domain(h), "gitlab.com", 'l');
    }
  }

  /** A keyword absent from the middle and from the right of a framed
      text, and longer than the left part, is absent from the whole. */
  lemma AbsentFromFrame(x: string, d: string, y: string, k: string)
    requires |x| < |k| && 0 < |x| && x[|x| - 1] !in k
    requires 0 < |y| && y[0] !in k
    requires !Contains(d, k) && !Contains(y, k)
    ensures !Contains(x + d + y, k)
  {
    ContainsAcrossSeparator(x + d, y, k);
    ContainsAcrossSeparator(x, d, k);
  }

  /** A text that names h's domain and no higher-ranked one is detected as h. */
  lemma DetectByDomain(s: string, h: HostType)
    requires h != Unknown && Contains(s, Domain(h)) && NoHigherDomain(s, h)
    ensures DetectHostType(s) == h
  {
  }

  lemma DomainInFrame(x: string, h: HostType, y: string)
    requires h != Unknown
    ensures Contains(x + Domain(h) + y, Domain(h))
  {
    var d := Domain(h);
    assert OccursAt(d, d, 0);
    OccurrenceIsFound(d, d, 0);
    ContainsInConcat(x, d, d);
    ContainsInConcat(x + d, y, d);
  }

  /** A domain framed by short text ending in a separator on its left and
      by a separator on its right is detected as its own provider, as long
      as no higher-ranked domain follows. */
  lemma DetectFramedDomain(x: string, h: HostType, y: string)
    requires h != Unknown
    requires 0 < |x| < 10 && (x[|x| - 1] == '@' || x[|x| - 1] == '/')
    requires 0 < |y| && (y[0] == ':' || y[0] == '/')
    requires NoHigherDomain(y, h)
    ensures DetectHostType(x + Domain(h) + y) == h
  {
    var d := Domain(h);
    DomainInFrame(x, h, y);
    DomainLacksHigher(h);
    if h != GitHub {
      assert x[|x| - 1] !in "github.com" && y[0] !in "github.com";
      AbsentFromFrame(x, d, y, "github.com");
    }
    if h == Bitbucket {
      assert x[|x| - 1] !in "gitlab.com" && y[0] !in "gitlab.com";
      AbsentFromFrame(x, d, y, "gitlab.com");
    }
    DetectByDomain(x + d + y, h);
  }

  /** What a successful match returns occurs in the URL, right after the
      pattern's prefix. */
  lemma MatchedTextOccurs(s: string, prefix: string)
    ensures MatchRemote(s, prefix).Some? ==>
              Contains(s, prefix + MatchRemote(s, prefix).value)
              && Contains(s, MatchRemote(s, prefix).value)
              && Contains(s, prefix)
  {
    var r := MatchRemote(s, prefix);
    if r.Some? {
      var c := r.value;
      SuffixOccurs(s, prefix + c);
      SuffixOccurs(s, prefix + c + ".git");
      PartsOccur(prefix + c, ".git");
      ContainsTransitive(s, prefix + c + ".git", prefix + c);
      PartsOccur(prefix, c);
      ContainsTransitive(s, prefix + c, c);
      ContainsTransitive(s, prefix + c, prefix);
    }
  }

  lemma SuffixOccurs(s: string, t: string)
    ensures EndsWith(s, t) ==> Contains(s, t)
  {
    if EndsWith(s, t) {
      assert OccursAt(t, s, |s| - |t|) by {
        forall j | 0 <= j < |t| ensures s[|s| - |t| + j] == t[j] {
          assert s[|s| - |t|..][j] == t[j];
        }
      }
      OccurrenceIsFound(s, t, |s| - |t|);
    }
  }

  lemma PartsOccur(a: string, b: string)
    ensures Contains(a + b, a) && Contains(a + b, b)
  {
    assert OccursAt(a, a, 0) && OccursAt(b, b, 0);
    OccurrenceIsFound(a, a, 0);
    OccurrenceIsFound(b, b, 0);
    ContainsInConcat(a, b, a);
    ContainsInConcat(a, b, b);
  }

  /** For a URL detected as h, a match of either of h's patterns yields a
      canonical URL that is again detected as h. */
  lemma MatchKeepsHost(u: string, h: HostType, prefix: string)
    requires h != Unknown && DetectHostType(u) == h
    ensures MatchRemote(u, prefix).Some? ==> DetectHostType(HttpsPrefix(h) + MatchRemote(u, prefix).value) == h
  {
    var m := MatchRemote(u, prefix);
    if m.Some? {
      MatchedTextOccurs(u, prefix);
      DetectedHasNoHigher(u, h);
      NoHigherDomainInside(u, m.value, h);
      CanonicalKeepsHost(h, m.value);
    }
  }

  lemma DetectedHasNoHigher(u: string, h: HostType)
    requires h != Unknown && DetectHostType(u) == h
    ensures NoHigherDomain(u, h)
  {
  }

  /** `https://<domain>/<c>` is detected by its domain when `c` names no
      higher-ranked domain. */
  lemma CanonicalKeepsHost(h: HostType, c: string)
    requires h != Unknown && NoHigherDomain(c, h)
    ensures DetectHostType(HttpsPrefix(h) + c) == h
  {
    NoHigherDomainAfter("/", c, h);
    DetectFramedDomain("https://", h, "/" + c);
    assert HttpsPrefix(h) + c == "https://" + Domain(h) + ("/" + c);
  }

  lemma DropGitSuffixKeepsKeyword(u: string, k: string)
    requires IsProviderKeyword(k)
    ensures Contains(DropGitSuffix(u), k) <==> Contains(u, k)
  {
    if EndsWith(u, ".git") {
      KeywordShape(k);
      assert u == DropGitSuffix(u) + ".git";
      ContainsBeforeGitSuffix(DropGitSuffix(u), k);
    }
  }

  lemma RewriteGitSchemeKeepsKeyword(b: string, k: string)
    requires IsProviderKeyword(k)
    ensures Contains(RewriteGitScheme(b), k) <==> Contains(b, k)
  {
    if "git://" <= b {
      KeywordShape(k);
      var rest := b[6..];
      assert b == "git:" + ("//" + rest);
      ContainsAcrossSeparator("git:", "//" + rest, k);
      ContainsAfterPrefix("//", rest, k);
      ContainsAfterPrefix("https://", rest, k);
    }
  }

  /** The fallback neither creates nor destroys an occurrence of any of the
      detector's keywords. */
  lemma CleanupKeepsKeyword(u: string, k: string)
    requires IsProviderKeyword(k)
    ensures Contains(Cleanup(u), k) <==> Contains(u, k)
  {
    KeywordShape(k);
    DropGitSuffixKeepsKeyword(u, k);
    ContainsAfterTrim(DropGitSuffix(u), k);
    RewriteGitSchemeKeepsKeyword(Trim(DropGitSuffix(u)), k);
  }

  lemma CleanupKeepsHost(u: string)
    ensures DetectHostType(Cleanup(u)) == DetectHostType(u)
  {
    CleanupKeepsKeyword(u, "github.com");
    CleanupKeepsKeyword(u, "gitlab.com");
    CleanupKeepsKeyword(u, "bitbucket.org");
    CleanupKeepsKeyword(u, "gitlab");
    CleanupKeepsKeyword(u, "bitbucket");
  }

  /** The host type detected on the normalised URL is the one detected on
      the URL normalisation acted on (after proxy stripping). */
  lemma HostTypeSurvivesNormalization(url: string)
    ensures DetectHostType(NormalizeGitUrl(url)) == DetectHostType(StripEditorProxy(url))
  {
    var u := StripEditorProxy(url);
    var h := DetectHostType(u);
    CleanupKeepsHost(u);
    if h != Unknown {
      MatchKeepsHost(u, h, SshPrefix(h));
      MatchKeepsHost(u, h, HttpsPrefix(h));
    }
  }

  // ---------------------------------------------------------------------
  // Which branch normalisation takes

  lemma PrefixesNameDomain(h: HostType)
    requires h != Unknown
    ensures Contains(SshPrefix(h), Domain(h)) && Contains(HttpsPrefix(h), Domain(h))
  {
    var d := Domain(h);
    assert OccursAt(d, SshPrefix(h), 4);
    assert OccursAt(d, HttpsPrefix(h), 8);
    OccurrenceIsFound(SshPrefix(h), d, 4);
    OccurrenceIsFound(HttpsPrefix(h), d, 8);
  }

  /** A URL naming none of the exact domains (a self-hosted GitLab or
      Bitbucket, or an unrecognised host) only goes through the fallback. */
  lemma SelfHostedReachesCleanup(url: string)
    requires !Contains(StripEditorProxy(url), "github.com")
    requires !Contains(StripEditorProxy(url), "gitlab.com")
    requires !Contains(StripEditorProxy(url), "bitbucket.org")
    ensures NormalizeGitUrl(url) == Cleanup(StripEditorProxy(url))
  {
    var u := StripEditorProxy(url);
    var h := DetectHostType(u);
    if h != Unknown {
      PrefixesNameDomain(h);
      MatchedTextOccurs(u, SshPrefix(h));
      MatchedTextOccurs(u, HttpsPrefix(h));
      ContainsTransitive(u, SshPrefix(h), Domain(h));
      ContainsTransitive(u, HttpsPrefix(h), Domain(h));
    }
  }

  /** An unrecognised URL that the fallback has nothing to do on (no
      trailing ".git", no surrounding white space, no "git://" scheme)
      comes back as it was after proxy stripping. */
  lemma UnrecognisedCleanUrlUnchanged(url: string)
    requires DetectHostType(StripEditorProxy(url)) == Unknown
    requires !EndsWith(StripEditorProxy(url), ".git")
    requires IsTrimmed(StripEditorProxy(url))
    requires !("git://" <= StripEditorProxy(url))
    ensures NormalizeGitUrl(url) == StripEditorProxy(url)
  {
    TrimmedIsFixed(StripEditorProxy(url));
  }

  // ---------------------------------------------------------------------
  // The remote forms that normalisation makes canonical

  /** An owner/repository path as remotes of provider `h` carry it:
      non-empty, without white space, '@' or ':', not naming the editor
      proxy, and naming no domain the detector ranks above h's own. Bare
      provider names (`gitlab-org/gitlab`) are allowed. */
  predicate PlainPath(path: string, h: HostType) {
    && |path| > 0
    && (forall j :: 0 <= j < |path| ==> !IsWhitespace(path[j]) && path[j] != '@' && path[j] != ':')
    && NoHigherDomain(path, h)
    && !Contains(path, "vscode.dev/")
  }

  /** The suffix after the path is ".git", or nothing when the path does
      not itself end in ".git". */
  predicate SuffixFits(path: string, suffix: string) {
    suffix == ".git" || (suffix == "" && !EndsWith(path, ".git"))
  }

  lemma PlainTail(path: string, suffix: string, h: HostType)
    requires PlainPath(path, h) && SuffixFits(path, suffix)
    ensures Capturable(path + suffix) && LazyCapture(path + suffix) == path
    ensures !Contains(path + suffix, "vscode.dev/")
    ensures NoHigherDomain(path + suffix, h)
    ensures forall j :: 0 <= j < |path + suffix| ==> (path + suffix)[j] != '@' && !IsWhitespace((path + suffix)[j])
  {
    if suffix == ".git" {
      ContainsBeforeGitSuffix(path, "vscode.dev/");
      NoHigherDomainBeforeGitSuffix(path, h);
      assert (path + suffix)[..|path + suffix| - 4] == path;
    } else {
      assert path + suffix == path;
    }
  }

  /** A URL whose head lacks 'v' and whose tail lacks the proxy name has
      nothing to strip. */
  lemma NothingToStrip(x: string, t: string)
    requires 'v' !in x && !Contains(t, "vscode.dev/")
    ensures StripEditorProxy(x + t) == x + t
  {
    ContainsAfterPrefix(x, t, "vscode.dev/");
  }

  /** A pattern whose prefix starts the input matches there. */
  lemma MatchAtStart(prefix: string, t: string)
    requires Capturable(t)
    ensures MatchRemote(prefix + t, prefix) == Some(LazyCapture(t))
  {
    assert OccursAt(prefix, prefix + t, 0);
    assert (prefix + t)[|prefix|..] == t;
  }

  /** A pattern whose prefix holds a character the input lacks does not match. */
  lemma NoMatchWithout(s: string, prefix: string, c: char)
    requires c in prefix && c !in s
    ensures MatchRemote(s, prefix) == None
  {
    MatchedTextOccurs(s, prefix);
    MissingCharacter(s, prefix, c);
  }

  /** `git@<domain>:<path>[.git]` becomes `https://<domain>/<path>`. */
  lemma SshRemoteIsCanonical(h: HostType, path: string, suffix: string)
    requires h != Unknown && PlainPath(path, h) && SuffixFits(path, suffix)
    ensures NormalizeGitUrl(SshPrefix(h) + path + suffix) == HttpsPrefix(h) + path
  {
    AppendAssoc(SshPrefix(h), path, suffix);
    SshRemoteSteps(h, path, suffix);
    NormalizeViaSsh(SshPrefix(h) + (path + suffix), h, path);
  }

  lemma SshRemoteSteps(h: HostType, path: string, suffix: string)
    requires h != Unknown && PlainPath(path, h) && SuffixFits(path, suffix)
    ensures var url := SshPrefix(h) + (path + suffix);
            && StripEditorProxy(url) == url && DetectHostType(url) == h
            && MatchRemote(url, SshPrefix(h)) == Some(path)
  {
    var t := path + suffix;
    PlainTail(path, suffix, h);
    assert 'v' !in SshPrefix(h);
    NothingToStrip(SshPrefix(h), t);
    SshRemoteDetected(h, t);
    MatchAtStart(SshPrefix(h), t);
  }

  lemma SshRemoteDetected(h: HostType, t: string)
    requires h != Unknown && NoHigherDomain(t, h)
    ensures DetectHostType(SshPrefix(h) + t) == h
  {
    NoHigherDomainAfter(":", t, h);
    assert SshPrefix(h) + t == "git@" + Domain(h) + (":" + t);
    DetectFramedDomain("git@", h, ":" + t);
  }

  /** How normalisation ends for a URL detected as h, with nothing to
      strip, that the SSH pattern matches. */
  lemma NormalizeViaSsh(url: string, h: HostType, path: string)
    requires h != Unknown && StripEditorProxy(url) == url && DetectHostType(url) == h
    requires MatchRemote(url, SshPrefix(h)) == Some(path)
    ensures NormalizeGitUrl(url) == HttpsPrefix(h) + path
  {
  }

  /** How normalisation ends for a URL detected as h, with nothing to
      strip, that only the HTTPS pattern matches. */
  lemma NormalizeViaHttps(url: string, h: HostType, path: string)
    requires h != Unknown && StripEditorProxy(url) == url && DetectHostType(url) == h
    requires MatchRemote(url, SshPrefix(h)).None? && MatchRemote(url, HttpsPrefix(h)) == Some(path)
    ensures NormalizeGitUrl(url) == HttpsPrefix(h) + path
  {
  }

  /** How normalisation ends for a URL detected as h, with nothing to
      strip, that neither pattern matches. */
  lemma NormalizeViaCleanup(url: string, h: HostType)
    requires h != Unknown && StripEditorProxy(url) == url && DetectHostType(url) == h
    requires MatchRemote(url, SshPrefix(h)).None? && MatchRemote(url, HttpsPrefix(h)).None?
    ensures NormalizeGitUrl(url) == Cleanup(url)
  {
  }

  lemma AtSignAbsent(x: string, t: string)
    requires '@' !in x && forall j :: 0 <= j < |t| ==> t[j] != '@'
    ensures '@' !in x + t
  {
  }

  /** `https://<domain>/<path>[.git]` becomes `https://<domain>/<path>`. */
  lemma HttpsRemoteIsCanonical(h: HostType, path: string, suffix: string)
    requires h != Unknown && PlainPath(path, h) && SuffixFits(path, suffix)
    ensures NormalizeGitUrl(HttpsPrefix(h) + path + suffix) == HttpsPrefix(h) + path
  {
    var url := HttpsPrefix(h) + (path + suffix);
    assert HttpsPrefix(h) + path + suffix == url;
    HttpsRemoteSteps(h, path, suffix);
    NormalizeViaHttps(url, h, path);
  }

  lemma HttpsRemoteSteps(h: HostType, path: string, suffix: string)
    requires h != Unknown && PlainPath(path, h) && SuffixFits(path, suffix)
    ensures var url := HttpsPrefix(h) + (path + suffix);
            && StripEditorProxy(url) == url && DetectHostType(url) == h
            && MatchRemote(url, SshPrefix(h)).None? && MatchRemote(url, HttpsPrefix(h)) == Some(path)
  {
    var t := path + suffix;
    PlainTail(path, suffix, h);
    HttpsHeadAndTail(h, t);
    HttpsRemoteDetected(h, t);
    MatchAtStart(HttpsPrefix(h), t);
  }

  lemma HttpsHeadAndTail(h: HostType, t: string)
    requires h != Unknown
    requires !Contains(t, "vscode.dev/") && forall j :: 0 <= j < |t| ==> t[j] != '@'
    ensures StripEditorProxy(HttpsPrefix(h) + t) == HttpsPrefix(h) + t
    ensures MatchRemote(HttpsPrefix(h) + t, SshPrefix(h)).None?
  {
    HeadCharacters(h);
    HeadAndTail(HttpsPrefix(h), t);
  }

  /** A head without 'v' and '@' and a plain tail leave nothing to strip
      and nothing for the SSH pattern of any provider. */
  lemma DomainCharacters(h: HostType)
    requires h != Unknown
    ensures 'v' !in Domain(h) && '@' !in Domain(h) && ':' !in Domain(h)
  {
  }

  /** The characters the URL heads of a provider hold or lack. */
  lemma HeadCharacters(h: HostType)
    requires h != Unknown
    ensures 'v' !in HttpsPrefix(h) && '@' !in HttpsPrefix(h) && ':' in HttpsPrefix(h)
    ensures 'v' !in "git://" + Domain(h) + "/" && '@' !in "git://" + Domain(h) + "/"
    ensures ':' !in "//" + Domain(h) + "/"
  {
    DomainCharacters(h);
    assert HttpsPrefix(h)[5] == ':';
  }

  lemma HeadAndTail(head: string, t: string)
    requires 'v' !in head && '@' !in head
    requires !Contains(t, "vscode.dev/") && forall j :: 0 <= j < |t| ==> t[j] != '@'
    ensures StripEditorProxy(head + t) == head + t
    ensures forall h :: h != Unknown ==> MatchRemote(head + t, SshPrefix(h)).None?
  {
    NothingToStrip(head, t);
    AtSignAbsent(head, t);
    forall h | h != Unknown
      ensures MatchRemote(head + t, SshPrefix(h)).None?
    {
      NoMatchWithout(head + t, SshPrefix(h), '@');
    }
  }

  lemma HttpsRemoteDetected(h: HostType, t: string)
    requires h != Unknown && NoHigherDomain(t, h)
    ensures DetectHostType(HttpsPrefix(h) + t) == h
  {
    NoHigherDomainAfter("/", t, h);
    assert HttpsPrefix(h) + t == "https://" + Domain(h) + ("/" + t);
    DetectFramedDomain("https://", h, "/" + t);
  }

  /** `git://<domain>/<path>.git` matches neither pattern; the fallback
      turns it into `https://<domain>/<path>`. */
  lemma GitProtocolRemoteIsCanonical(h: HostType, path: string)
    requires h != Unknown && PlainPath(path, h)
    ensures NormalizeGitUrl("git://" + Domain(h) + "/" + path + ".git") == HttpsPrefix(h) + path
  {
    GitProtocolRemoteSteps(h, path);
    NormalizeViaCleanup("git://" + Domain(h) + "/" + path + ".git", h);
    GitProtocolCleanup(h, path);
  }

  lemma GitProtocolCleanup(h: HostType, path: string)
    requires h != Unknown && |path| > 0 && !IsWhitespace(path[|path| - 1])
    ensures Cleanup("git://" + Domain(h) + "/" + path + ".git") == HttpsPrefix(h) + path
  {
    Regroup("git://", Domain(h), "/", path, ".git");
    Regroup("https://", Domain(h), "/", path, "");
    assert "https://" + Domain(h) + "/" + path + "" == HttpsPrefix(h) + path;
    GitSchemeCleanup(Domain(h) + "/" + path);
  }

  lemma Regroup(a: string, b: string, c: string, d: string, e: string)
    ensures a + b + c + d + e == a + (b + c + d) + e
  {
  }

  lemma GitProtocolRemoteSteps(h: HostType, path: string)
    requires h != Unknown && PlainPath(path, h)
    ensures var url := "git://" + Domain(h) + "/" + path + ".git";
            && StripEditorProxy(url) == url && DetectHostType(url) == h
            && MatchRemote(url, SshPrefix(h)).None? && MatchRemote(url, HttpsPrefix(h)).None?
  {
    AppendAssoc("git://" + Domain(h) + "/", path, ".git");
    PlainTail(path, ".git", h);
    GitProtocolParts(h, path + ".git");
  }

  lemma GitProtocolParts(h: HostType, t: string)
    requires h != Unknown && !Contains(t, "vscode.dev/") && NoHigherDomain(t, h)
    requires forall j :: 0 <= j < |t| ==> t[j] != '@' && t[j] != ':'
    ensures var url := "git://" + Domain(h) + "/" + t;
            && StripEditorProxy(url) == url && DetectHostType(url) == h
            && MatchRemote(url, SshPrefix(h)).None? && MatchRemote(url, HttpsPrefix(h)).None?
  {
    GitHeadAndTail(h, t);
    GitRemoteDetected(h, t);
    HttpsPatternMissesGitScheme(h, t);
  }

  lemma GitHeadAndTail(h: HostType, t: string)
    requires h != Unknown
    requires !Contains(t, "vscode.dev/") && forall j :: 0 <= j < |t| ==> t[j] != '@'
    ensures StripEditorProxy("git://" + Domain(h) + "/" + t) == "git://" + Domain(h) + "/" + t
    ensures MatchRemote("git://" + Domain(h) + "/" + t, SshPrefix(h)).None?
  {
    HeadCharacters(h);
    HeadAndTail("git://" + Domain(h) + "/", t);
  }

  lemma GitRemoteDetected(h: HostType, t: string)
    requires h != Unknown && NoHigherDomain(t, h)
    ensures DetectHostType("git://" + Domain(h) + "/" + t) == h
  {
    NoHigherDomainAfter("/", t, h);
    assert "git://" + Domain(h) + "/" + t == "git://" + Domain(h) + ("/" + t);
    DetectFramedDomain("git://", h, "/" + t);
  }

  lemma HttpsPatternMissesGitScheme(h: HostType, t: string)
    requires h != Unknown && forall j :: 0 <= j < |t| ==> t[j] != ':'
    ensures MatchRemote("git://" + Domain(h) + "/" + t, HttpsPrefix(h)).None?
  {
    var url := "git://" + Domain(h) + "/" + t;
    var r := "//" + Domain(h) + "/" + t;
    assert url == "git:" + r;
    HeadCharacters(h);
    assert ':' !in r;
    MissingCharacter(r, HttpsPrefix(h), ':');
    ContainsAfterPrefix("git:", r, HttpsPrefix(h));
    MatchedTextOccurs(url, HttpsPrefix(h));
  }

  lemma DropThenTrim(x: string)
    requires |x| > 0 && !IsWhitespace(x[0]) && !IsWhitespace(x[|x| - 1])
    ensures Trim(DropGitSuffix(x + ".git")) == x
  {
    var url := x + ".git";
    assert url[..|url| - 4] == x;
    TrimmedIsFixed(x);
  }

  lemma GitSchemeRewritten(rest: string)
    ensures RewriteGitScheme("git://" + rest) == "https://" + rest
  {
    assert ("git://" + rest)[6..] == rest;
  }

  /** The rewrite touches nothing but a leading `git://`: it changes a URL
      exactly when the URL starts with that scheme. */
  lemma OtherSchemesUntouched(s: string)
    ensures !("git://" <= s) ==> RewriteGitScheme(s) == s
    ensures RewriteGitScheme(s) != s <==> "git://" <= s
  {
    if "git://" <= s {
      assert RewriteGitScheme(s)[0] == 'h' != s[0];
    }
  }

  /** The fallback turns `git://<rest>.git` into `https://<rest>` when
      `rest` does not end in white space. */
  lemma GitSchemeCleanup(rest: string)
    requires |rest| > 0 && !IsWhitespace(rest[|rest| - 1])
    ensures Cleanup("git://" + rest + ".git") == "https://" + rest
  {
    DropThenTrim("git://" + rest);
    GitSchemeRewritten(rest);
  }

  /** Every remote form of one repository normalises to the same URL, and
      that URL is a fixed point of normalisation. */
  lemma RemoteFormsAgree(h: HostType, path: string)
    requires h != Unknown && PlainPath(path, h) && !EndsWith(path, ".git")
    ensures NormalizeGitUrl(SshPrefix(h) + path + ".git") == HttpsPrefix(h) + path
    ensures NormalizeGitUrl(SshPrefix(h) + path) == HttpsPrefix(h) + path
    ensures NormalizeGitUrl(HttpsPrefix(h) + path + ".git") == HttpsPrefix(h) + path
    ensures NormalizeGitUrl("git://" + Domain(h) + "/" + path + ".git") == HttpsPrefix(h) + path
    ensures NormalizeGitUrl(HttpsPrefix(h) + path) == HttpsPrefix(h) + path
  {
    SshRemoteIsCanonical(h, path, ".git");
    SshRemoteIsCanonical(h, path, "");
    HttpsRemoteIsCanonical(h, path, ".git");
    HttpsRemoteIsCanonical(h, path, "");
    assert HttpsPrefix(h) + path + "" == HttpsPrefix(h) + path;
    assert SshPrefix(h) + path + "" == SshPrefix(h) + path;
    GitProtocolRemoteIsCanonical(h, path);
  }

  /** The precondition on the path is needed: a path that names a domain
      ranked above the remote's own provider takes over detection. For
      `git@gitlab.com:user/github.com-mirror.git` the URL is detected as
      GitHub, neither GitHub pattern matches, and the fallback only drops
      the ".git". */
  lemma HigherDomainInPathWins(path: string)
    requires |path| > 0 && Contains(path, "github.com") && !Contains(path, "vscode.dev/")
    requires forall j :: 0 <= j < |path| ==> !IsWhitespace(path[j]) && path[j] != '@' && path[j] != ':'
    ensures DetectHostType(SshPrefix(GitLab) + path + ".git") == GitHub
    ensures NormalizeGitUrl(SshPrefix(GitLab) + path + ".git") == SshPrefix(GitLab) + path
  {
    AppendAssoc(SshPrefix(GitLab), path, ".git");
    HigherDomainSteps(path);
    NormalizeViaCleanup(SshPrefix(GitLab) + (path + ".git"), GitHub);
    SshFormCleanup(path);
  }

  lemma HigherDomainSteps(path: string)
    requires |path| > 0 && Contains(path, "github.com") && !Contains(path, "vscode.dev/")
    requires forall j :: 0 <= j < |path| ==> path[j] != '@' && path[j] != ':'
    ensures var url := SshPrefix(GitLab) + (path + ".git");
            && StripEditorProxy(url) == url && DetectHostType(url) == GitHub
            && MatchRemote(url, SshPrefix(GitHub)).None? && MatchRemote(url, HttpsPrefix(GitHub)).None?
  {
    var t := path + ".git";
    ContainsBeforeGitSuffix(path, "vscode.dev/");
    assert 'v' !in SshPrefix(GitLab);
    NothingToStrip(SshPrefix(GitLab), t);
    ContainsInConcat(path, ".git", "github.com");
    ContainsInConcat(SshPrefix(GitLab), t, "github.com");
    assert forall j :: 0 <= j < |t| ==> t[j] != '@' && t[j] != ':' by {
      assert forall j :: |path| <= j < |t| ==> t[j] == ".git"[j - |path|];
    }
    GitLabRemoteMissesGitHubPatterns(t);
  }

  /** The fallback on `git@gitlab.com:<path>.git` only drops the ".git". */
  lemma SshFormCleanup(path: string)
    requires |path| > 0 && !IsWhitespace(path[|path| - 1])
    ensures Cleanup(SshPrefix(GitLab) + (path + ".git")) == SshPrefix(GitLab) + path
  {
    var x := SshPrefix(GitLab);
    var y := x + path;
    AppendAssoc(x, path, ".git");
    assert y[0] == x[0] == 'g';
    assert y[|y| - 1] == path[|path| - 1];
    assert y[3] == x[3] == '@';
    CleanupWithoutScheme(y);
  }

  /** The fallback on `<y>.git`, where `y` is trimmed already and does not
      start with "git://", only drops the ".git". */
  lemma CleanupWithoutScheme(y: string)
    requires |y| > 3 && !IsWhitespace(y[0]) && !IsWhitespace(y[|y| - 1]) && y[3] != ':'
    ensures Cleanup(y + ".git") == y
  {
    DropThenTrim(y);
    assert !("git://" <= y) by {
      if |y| >= 6 {
        assert y[..6][3] != "git://"[3];
      }
    }
  }

  /** After `git@gitlab.com:`, a tail without '@' and ':' holds neither
      GitHub pattern head: each head's '@' or ':' would have to line up
      with the only one in the URL, where the domains differ. */
  lemma GitLabRemoteMissesGitHubPatterns(t: string)
    requires forall j :: 0 <= j < |t| ==> t[j] != '@' && t[j] != ':'
    ensures MatchRemote(SshPrefix(GitLab) + t, SshPrefix(GitHub)).None?
    ensures MatchRemote(SshPrefix(GitLab) + t, HttpsPrefix(GitHub)).None?
  {
    var s := SshPrefix(GitLab) + t;
    PinnedHead(s, t, SshPrefix(GitHub), 3, '@', 3, 7);
    PinnedHead(s, t, HttpsPrefix(GitHub), 5, ':', 14, 0);
    MatchedTextOccurs(s, SshPrefix(GitHub));
    MatchedTextOccurs(s, HttpsPrefix(GitHub));
  }

  /** `k` holds character `c` at `q`; in `s = git@gitlab.com: + t` the only
      `c` is at `p`; so `k` could only occur at `p - q`, where its
      character at `m` differs from the URL's. */
  lemma PinnedHead(s: string, t: string, k: string, q: nat, c: char, p: nat, m: nat)
    requires s == SshPrefix(GitLab) + t && forall j :: 0 <= j < |t| ==> t[j] != c
    requires q < |k| && k[q] == c && p < |SshPrefix(GitLab)| && q <= p
    requires forall j :: 0 <= j < |SshPrefix(GitLab)| && j != p ==> SshPrefix(GitLab)[j] != c
    requires m < |k| && p - q + m < |SshPrefix(GitLab)| && SshPrefix(GitLab)[p - q + m] != k[m]
    ensures !Contains(s, k)
  {
    var x := SshPrefix(GitLab);
    if Contains(s, k) {
      var i := IndexOf(s, k).value;
      CharOfOccurrence(k, s, i, q);
      CharOfOccurrence(k, s, i, m);
    }
  }

  // ---------------------------------------------------------------------
  // Worked examples

  /** Only the first "vscode.dev/" is removed. */
  lemma ProxyStrippedOnce(url: string)
    requires url == "vscode.dev/vscode.dev/x"
    ensures StripEditorProxy(url) == "vscode.dev/x"
  {
    assert OccursAt("vscode.dev/", url, 0);
    FirstOccurrence(url, "vscode.dev/", 0);
  }

  /** Removing the proxy can join a provider name: `gitvscode.dev/lab`
      names no provider, but what is left of it, `gitlab`, is GitLab, and
      so is its normalisation. */
  lemma ProxyStripJoinsKeyword(url: string)
    requires url == "gitvscode.dev/lab"
    ensures DetectHostType(url) == Unknown
    ensures StripEditorProxy(url) == "gitlab"
    ensures NormalizeGitUrl(url) == "gitlab"
    ensures DetectHostType(NormalizeGitUrl(url)) == GitLab
  {
    ProxyUrlNamesNoProvider(url);
    ProxyUrlStripped(url);
    BareGitLabNameIsClean("gitlab");
    UnmatchedGitLabCleaned(url, "gitlab");
  }

  /** A URL that strips to a GitLab URL matching neither GitLab pattern
      normalises to its clean-up. */
  lemma UnmatchedGitLabCleaned(url: string, u: string)
    requires StripEditorProxy(url) == u && DetectHostType(u) == GitLab
    requires MatchRemote(u, SshPrefix(GitLab)).None? && MatchRemote(u, HttpsPrefix(GitLab)).None?
    ensures NormalizeGitUrl(url) == Cleanup(u)
  {
  }

  lemma ProxyUrlStripped(url: string)
    requires url == "gitvscode.dev/lab"
    ensures StripEditorProxy(url) == "gitlab"
  {
    assert OccursAt("vscode.dev/", url, 3);
    FirstOccurrence(url, "vscode.dev/", 3);
    assert url[..3] + url[14..] == "gitlab";
  }

  lemma ProxyUrlNamesNoProvider(url: string)
    requires url == "gitvscode.dev/lab"
    ensures DetectHostType(url) == Unknown
  {
    NoGitLabInProxyUrl(url);
    MissingCharacter(url, "github.com", 'h');
    MissingCharacter(url, "gitlab.com", 'm');
    MissingCharacter(url, "bitbucket.org", 'k');
    MissingCharacter(url, "bitbucket", 'k');
  }

  /** `gitlab` is GitLab, too short for either GitLab pattern, and left
      as it is by the clean-up. */
  lemma BareGitLabNameIsClean(u: string)
    requires u == "gitlab"
    ensures DetectHostType(u) == GitLab
    ensures MatchRemote(u, SshPrefix(GitLab)).None? && MatchRemote(u, HttpsPrefix(GitLab)).None?
    ensures Cleanup(u) == u
  {
    BareGitLabNameDetected(u);
    TooShortToMatch(u, SshPrefix(GitLab));
    TooShortToMatch(u, HttpsPrefix(GitLab));
    assert !EndsWith(u, ".git");
    assert IsTrimmed(u);
    TrimmedIsFixed(u);
  }

  lemma BareGitLabNameDetected(u: string)
    requires u == "gitlab"
    ensures DetectHostType(u) == GitLab
  {
    assert OccursAt("gitlab", u, 0);
    OccurrenceIsFound(u, "gitlab", 0);
    MissingCharacter(u, "github.com", 'h');
    MissingCharacter(u, "gitlab.com", '.');
    MissingCharacter(u, "bitbucket.org", 'k');
  }

  /** A pattern whose head is longer than the URL cannot match it. */
  lemma TooShortToMatch(u: string, prefix: string)
    requires |u| < |prefix|
    ensures MatchRemote(u, prefix).None?
  {
  }

  /** The only 'g' of `gitvscode.dev/lab` is its first character, where
      `gitlab` does not start. */
  lemma NoGitLabInProxyUrl(url: string)
    requires url == "gitvscode.dev/lab"
    ensures !Contains(url, "gitlab")
  {
    forall i: nat | OccursAt("gitlab", url, i)
      ensures false
    {
      CharOfOccurrence("gitlab", url, i, 0);
      CharOfOccurrence("gitlab", url, i, 3);
    }
  }

  /** An editor-proxy URL `https://vscode.dev/github/<path>` loses the
      proxy, and with it nothing that names GitHub's exact domain: it comes
      back as `https://github/<path>`, not as a github.com URL. */
  lemma EditorProxyDropsDomain(path: string)
    requires PlainPath(path, GitHub) && DetectHostType(path) == Unknown && '.' !in path
    ensures NormalizeGitUrl("https://vscode.dev/github/" + path) == "https://github/" + path
  {
    ProxyRemovedFromEditorUrl(path);
    ProxylessUrlIsClean(path);
    UnrecognisedCleanUrlUnchanged("https://vscode.dev/github/" + path);
  }

  lemma ProxylessUrlIsClean(path: string)
    requires PlainPath(path, GitHub) && DetectHostType(path) == Unknown && '.' !in path
    ensures var u := "https://github/" + path;
            DetectHostType(u) == Unknown && !EndsWith(u, ".git") && IsTrimmed(u) && !("git://" <= u)
  {
    var u := "https://github/" + path;
    ProxylessUrlUnknown(path);
    assert '.' !in u;
    assert !EndsWith(u, ".git") by {
      assert u[|u| - 4] != '.';
    }
  }

  lemma ProxylessUrlUnknown(path: string)
    requires PlainPath(path, GitHub) && DetectHostType(path) == Unknown && '.' !in path
    ensures DetectHostType("https://github/" + path) == Unknown
  {
    UnknownIffNoProviderName(path);
    NameAbsentAfterHead(path, "gitlab", 'l');
    NameAbsentAfterHead(path, "bitbucket", 'k');
    DotlessHead(path);
    UnknownWithoutDotOrName("https://github/" + path);
  }

  lemma DotlessHead(path: string)
    requires '.' !in path
    ensures '.' !in "https://github/" + path
  {
  }

  /** Every exact domain holds a '.', so a URL without one is Unknown once
      it also lacks the bare names. */
  lemma UnknownWithoutDotOrName(u: string)
    requires '.' !in u && !Contains(u, "gitlab") && !Contains(u, "bitbucket")
    ensures DetectHostType(u) == Unknown
  {
    MissingCharacter(u, "github.com", '.');
    MissingCharacter(u, "gitlab.com", '.');
    MissingCharacter(u, "bitbucket.org", '.');
  }

  lemma NameAbsentAfterHead(path: string, k: string, c: char)
    requires !Contains(path, k) && '/' !in k && c in k && c !in "https://github/"
    ensures !Contains("https://github/" + path, k)
  {
    ContainsAcrossSeparator("https://github/", path, k);
    MissingCharacter("https://github/", k, c);
  }

  lemma ProxyRemovedFromEditorUrl(path: string)
    ensures StripEditorProxy("https://vscode.dev/github/" + path) == "https://github/" + path
  {
    var url := "https://vscode.dev/github/" + path;
    assert OccursAt("vscode.dev/", url, 8);
    FirstOccurrence(url, "vscode.dev/", 8);
    var u := StripEditorProxy(url);
    RemovedAt(url, u, 8, "vscode.dev/");
    EditorUrlParts(path);
  }

  /** Undoing an insertion: `r` is `s` without the `k` inserted at `i`. */
  lemma RemovedAt(s: string, r: string, i: nat, k: string)
    requires i <= |r| && s == r[..i] + k + r[i..]
    ensures r == s[..i] + s[i + |k|..]
  {
    assert s[..i] == r[..i];
    assert s[i + |k|..] == r[i..];
  }

  lemma EditorUrlParts(path: string)
    ensures ("https://vscode.dev/github/" + path)[..8] + ("https://vscode.dev/github/" + path)[19..]
         == "https://github/" + path
  {
    var url := "https://vscode.dev/github/" + path;
    assert url[..8] == "https://";
    assert url[19..] == "github/" + path;
  }

  /** ".git" is removed before trimming, so a ".git" followed by white
      space survives the fallback (only the white space goes). */
  lemma GitSuffixBeforeTrim(x: string, c: char)
    requires DetectHostType(x) == Unknown && !Contains(x, "vscode.dev/")
    requires |x| > 0 && !IsWhitespace(x[0]) && IsWhitespace(c)
    requires !("git://" <= x + ".git")
    ensures NormalizeGitUrl(x + ".git" + [c]) == x + ".git"
  {
    var s := x + ".git" + [c];
    PaddedUrlUnrecognised(x, c);
    assert DropGitSuffix(s) == s by {
      assert s[|s| - 1] != 't';
    }
    TrimWithOneTrailingSpace(x + ".git", c);
  }

  lemma PaddedUrlUnrecognised(x: string, c: char)
    requires DetectHostType(x) == Unknown && !Contains(x, "vscode.dev/") && IsWhitespace(c)
    ensures StripEditorProxy(x + ".git" + [c]) == x + ".git" + [c]
    ensures DetectHostType(x + ".git" + [c]) == Unknown
  {
    KeepsAbsence(x, c, "vscode.dev/");
    PaddingKeepsDomainsAbsent(x, c);
    PaddingKeepsNamesAbsent(x, c);
  }

  lemma PaddingKeepsDomainsAbsent(x: string, c: char)
    requires IsWhitespace(c)
    ensures !Contains(x, "github.com") ==> !Contains(x + ".git" + [c], "github.com")
    ensures !Contains(x, "gitlab.com") ==> !Contains(x + ".git" + [c], "gitlab.com")
    ensures !Contains(x, "bitbucket.org") ==> !Contains(x + ".git" + [c], "bitbucket.org")
  {
    KeepsKeywordAbsence(x, c, "github.com");
    KeepsKeywordAbsence(x, c, "gitlab.com");
    KeepsKeywordAbsence(x, c, "bitbucket.org");
  }

  lemma PaddingKeepsNamesAbsent(x: string, c: char)
    requires IsWhitespace(c)
    ensures !Contains(x, "gitlab") ==> !Contains(x + ".git" + [c], "gitlab")
    ensures !Contains(x, "bitbucket") ==> !Contains(x + ".git" + [c], "bitbucket")
  {
    KeepsKeywordAbsence(x, c, "gitlab");
    KeepsKeywordAbsence(x, c, "bitbucket");
  }

  lemma KeepsKeywordAbsence(x: string, c: char, k: string)
    requires IsProviderKeyword(k) && IsWhitespace(c)
    ensures !Contains(x, k) ==> !Contains(x + ".git" + [c], k)
  {
    KeywordShape(k);
    assert !('a' <= c <= 'z' || c == '.');
    KeepsAbsence(x, c, k);
  }

  lemma KeepsAbsence(x: string, c: char, k: string)
    requires |k| > 4 && k[|k| - 1] != '.' && IsWhitespace(c) && c !in k
    requires forall j :: 0 <= j < |k| - 1 ==> !(k[j] == '.' && k[j + 1] == 'g')
    ensures !Contains(x, k) ==> !Contains(x + ".git" + [c], k)
  {
    ContainsAcrossSeparator(x + ".git", [c], k);
    ContainsBeforeGitSuffix(x, k);
    assert !Contains([c], k);
  }

  lemma TrimWithOneTrailingSpace(y: string, c: char)
    requires |y| > 0 && !IsWhitespace(y[0]) && !IsWhitespace(y[|y| - 1]) && IsWhitespace(c)
    ensures Trim(y + [c]) == y
  {
    var s := y + [c];
    var t := TrimStart(s);
    assert t == s by {
      assert |t| == |s|;
    }
    var r := TrimEnd(s);
    assert |r| == |y| by {
      assert s[|y| - 1] == y[|y| - 1];
    }
    assert r == s[..|y|] == y;
  }
}
