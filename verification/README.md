# GitPoint link core in Dafny

GitPoint is a VS Code extension that turns the file (and line range) open in
the editor into a web link on the repository's hosting provider: a permalink
copied to the clipboard, or a browse, history or blame page opened in the
browser. This project models the part of the extension that decides what
those links are:

- **Host detection** (`HostDetection`). This is `detectHostType`: ordered,
  case-sensitive substring tests for `github.com`, `gitlab.com`,
  `bitbucket.org`, `gitlab` and `bitbucket`.
- **URL normalisation** (`UrlNormalizer`). This is `normalizeGitUrl`.
  - It drops the first `vscode.dev/`.
  - For a recognised provider it tries the SSH pattern
    `git@<domain>:(.+?)(?:\.git)?$` and then the HTTPS pattern
    `https://<domain>/(.+?)(?:\.git)?$`, and rebuilds
    `https://<domain>/<capture>`.
  - Otherwise it falls back to a cleanup: drop `.git`, trim, rewrite `git://`.
  - The patterns are modelled as JavaScript evaluates them:
    - the leftmost match wins;
    - the lazy group stops at the first length after which nothing or
      exactly `.git` remains;
    - `.` does not match line terminators.
- **Repository context** (`GitContext`).
  - `getGitInfo` assembles its record from the three git queries.
  - The line and selection commands turn the editor selection into a line
    range.
  - The handlers choose between the current branch and the default branch
    with a substring test on the `git branch -r` listing.
- **Permalinks** (`Permalinks`).
  - `generatePermalinkUrl` holds the per-provider templates.
  - `generatePermalink` holds the decision steps that lead to a link.
- **Commands** (`Commands`). The URLs that `openInBrowser`,
  `viewFileHistory` and `blameFile` open.

JavaScript string behaviour the code relies on lives in `JsStrings`:
- `includes`, modelled by a first-occurrence search;
- `replace` with a string pattern, which replaces the first occurrence only;
- `trim` and the `\s` class, with ECMAScript's white-space and
  line-terminator set;
- the decimal rendering of line numbers in template strings.

A regular expression's `$` anchor (as in `/\.git$/`) is modelled by the
predicate `EndsWith`.

The central results:

- **`HostTypeSurvivesNormalization`**: the provider detected on a normalised
  URL is the one detected on the URL it came from, after that URL's first
  `vscode.dev/` is removed. The removal matters: `gitvscode.dev/lab`
  is Unknown, but its normalisation `gitlab` is GitLab
  (`ProxyStripJoinsKeyword`).
- **`RemoteFormsAgree`**: the SSH form (with or without `.git`), the HTTPS form
  with `.git`, the `git://` form and the canonical form of one owner/repository
  path all normalise to the same canonical URL, and the canonical URL is a
  fixed point. This holds for every provider and every *plain* path
  (`PlainPath(path, h)`) that does not end in `.git`. A plain path:
  - is non-empty;
  - holds no white space, `@` or `:`;
  - does not contain `vscode.dev/`;
  - names no exact domain that the detector ranks above the provider's own.
    For GitLab the ranked-above domain is `github.com`; for Bitbucket it is
    `github.com` or `gitlab.com`.

  Bare provider names are allowed (`git@gitlab.com:gitlab-org/gitlab.git` is
  covered).
- **`HigherDomainInPathWins`**: the last condition is necessary. On a GitLab
  remote whose path contains `github.com` (`git@gitlab.com:user/github.com-mirror.git`),
  the URL is detected as GitHub, neither GitHub pattern matches, and the
  normaliser returns `git@gitlab.com:user/github.com-mirror` (only the
  `.git` dropped).
- **`PermalinkLayout`**: the four provider templates are a single layout,
  `<remote>/<view>/<hash>/<path>#<anchor>`. **`LineAnchorInjective`** adds
  that the anchor determines the line range.
- **`GeneratePermalink`** and **`OpenInBrowser`**: the decision steps. They
  pick the same ref, give no link exactly when a query fails, and agree on
  GitHub and unknown hosts (**`PermalinkExtendsBrowseUrl`**).

The model follows the code as written. Points worth knowing:

- **The repository's test expects something else for the editor proxy.**
  The test at src/__tests__/extension.test.ts:28-32 expects
  `https://vscode.dev/github/user/repo` to give
  `https://github.com/user/repo`. The code gives `https://github/user/repo`:
  removing `vscode.dev/` leaves a URL with no provider domain, which passes
  through the fallback unchanged. The model proves the code's result
  (`EditorProxyDropsDomain`).
- **The command URLs are GitHub-style for every provider.** The browse,
  history and blame URLs use `/blob/`, `/commits/` and `/blame/` whatever
  the host type (src/commands.ts:45, 76, 103; `CommandsIgnoreHostType`).
- **History and blame name the current branch**, not a resolved commit
  (src/commands.ts:76, 103; `HistoryAndBlameNameCurrentBranch`).
- **What the capture may hold.** `MatchRemote` and `LazyCapture` model the
  pattern for every input: the captured path may hold `/`, `.` and
  spaces, and only line terminators stop the lazy group. The
  canonical-form lemmas above are narrower: they speak only of plain paths.

## Model

| member | source | states |
|---|---|---|
| JsStrings.IndexOfFrom | src/extension.ts:189 | the first position at or after `from` where the key occurs, or None exactly when it occurs nowhere there (the search behind `includes`) |
| JsStrings.ReplaceFirst | src/extension.ts:47 | without an occurrence the string is unchanged; otherwise exactly the first occurrence is replaced: the replacement stands at that index, and putting the pattern back there gives the input |
| JsStrings.TrimStart | src/extension.ts:95 | the result is a suffix of the input, everything dropped is white space, and the result does not start with white space |
| JsStrings.TrimEnd | src/extension.ts:95 | the result is a prefix of the input, everything dropped is white space, and the result does not end with white space |
| JsStrings.Trim | src/extension.ts:110 | the result has no white space at either end; it is TrimEnd of TrimStart, so exactly the surrounding white space is removed (see the two rows above) |
| JsStrings.TrimIdempotent | src/extension.ts:132-133 | trimming a trimmed string changes nothing |
| JsStrings.NatToString | src/extension.ts:148 | a line number renders as a non-empty run of decimal digits with no leading zero |
| JsStrings.DecimalRoundTrip | src/extension.ts:148 | reading the rendered digits back gives the number |
| JsStrings.NatToStringInjective | src/extension.ts:148 | different line numbers render differently |
| HostDetection.DetectHostType | src/extension.ts:33-43 | specified by the next three lemmas: first matching rule in priority order, Unknown exactly when no keyword occurs |
| HostDetection.DetectIsFirstMatchingRule | src/extension.ts:33-43 | the detected provider is the provider of the first rule, in priority order, whose keyword occurs in the URL |
| HostDetection.DetectUnknownIffNoRule | src/extension.ts:33-43 | Unknown exactly when no rule's keyword occurs |
| HostDetection.UnknownIffNoProviderName | src/extension.ts:34-42 | Unknown exactly when the URL mentions none of `github.com`, `gitlab`, `bitbucket` |
| HostDetection.MatchingIsCaseSensitive | src/extension.ts:34 | `https://GitHub.com/<path>` is Unknown when the path holds no `g` or `k` |
| HostDetection.GitHubOutranksSelfHostedName | src/extension.ts:34-39 | `git@github.com:gitlab/gitlab.git` is GitHub, the exact domain outranking the bare name |
| UrlNormalizer.MatchStartFrom | src/extension.ts:50-61 | the leftmost position where the pattern's literal head occurs with a capturable remainder after it; None exactly when there is none |
| UrlNormalizer.LazyCapture | src/extension.ts:50-61 | the capture is non-empty, the remainder is the capture with or without `.git`, and no shorter capture would do (laziness) |
| UrlNormalizer.MatchRemote | src/extension.ts:67-68 | no match exactly when no occurrence of the head has a capturable remainder; otherwise the capture is the lazy one taken after the leftmost such occurrence (the remainder is the capture, or the capture plus `.git`, and no shorter capture would do), free of line terminators, and the URL ends with head + capture (optionally + `.git`) |
| UrlNormalizer.StripEditorProxy | src/extension.ts:47 | specified by ReplaceFirst's contract with pattern `vscode.dev/` and an empty replacement; ProxyStrippedOnce shows only the first occurrence goes |
| UrlNormalizer.DropGitSuffix | src/extension.ts:94 | a URL ending in `.git` loses exactly that suffix (appending `.git` gives the input back); any other URL is unchanged |
| UrlNormalizer.GitSchemeRewritten | src/extension.ts:96 | a leading `git://` becomes `https://`, with the rest kept |
| UrlNormalizer.OtherSchemesUntouched | src/extension.ts:96 | a URL not starting with `git://` is unchanged, and the rewrite changes a URL exactly when it starts with `git://` |
| UrlNormalizer.Cleanup | src/extension.ts:93-96 | specified by CleanupKeepsKeyword, CleanupKeepsHost, GitSchemeCleanup and GitSuffixBeforeTrim |
| UrlNormalizer.GitSchemeCleanup | src/extension.ts:93-96 | the fallback turns `git://<rest>.git` into `https://<rest>` when `rest` does not end in white space |
| UrlNormalizer.NormalizeGitUrl | src/extension.ts:45-97 | specified by HostTypeSurvivesNormalization, SelfHostedReachesCleanup, RemoteFormsAgree, HigherDomainInPathWins and the lemmas below |
| UrlNormalizer.MatchKeepsHost | src/extension.ts:65-90 | rebuilding `https://<domain>/<capture>` from a match keeps the detected provider |
| UrlNormalizer.DropGitSuffixKeepsKeyword | src/extension.ts:94 | dropping `.git` neither creates nor removes a provider keyword |
| UrlNormalizer.RewriteGitSchemeKeepsKeyword | src/extension.ts:96 | rewriting `git://` neither creates nor removes a provider keyword |
| UrlNormalizer.CleanupKeepsKeyword | src/extension.ts:93-96 | the whole cleanup neither creates nor removes a provider keyword |
| UrlNormalizer.CleanupKeepsHost | src/extension.ts:93-96 | the cleanup keeps the detected provider |
| UrlNormalizer.HostTypeSurvivesNormalization | src/extension.ts:45-97 | the provider detected on the normalised URL equals the provider detected on the input after its first `vscode.dev/` is removed |
| UrlNormalizer.SelfHostedReachesCleanup | src/extension.ts:63-96 | a URL with none of the three exact domains (self-hosted or unrecognised) is only cleaned up |
| UrlNormalizer.UnrecognisedCleanUrlUnchanged | src/extension.ts:93-96 | an Unknown URL without `.git`, surrounding white space or `git://` comes back as it was after proxy stripping |
| UrlNormalizer.SshRemoteIsCanonical | src/extension.ts:65-77 | for a plain path (non-empty; no white space, `@`, `:` or `vscode.dev/`; no domain ranked above the provider's), `git@<domain>:<path>[.git]` normalises to `https://<domain>/<path>` |
| UrlNormalizer.HttpsRemoteIsCanonical | src/extension.ts:79-90 | for a plain path, `https://<domain>/<path>[.git]` normalises to `https://<domain>/<path>` |
| UrlNormalizer.GitProtocolRemoteIsCanonical | src/extension.ts:93-96 | for a plain path, `git://<domain>/<path>.git` matches neither pattern and the cleanup turns it into `https://<domain>/<path>` |
| UrlNormalizer.RemoteFormsAgree | src/extension.ts:45-97 | for a plain path not ending in `.git`, the SSH, SSH-with-.git, HTTPS-with-.git, git-protocol and canonical forms all normalise to the same canonical URL |
| UrlNormalizer.HigherDomainInPathWins | src/extension.ts:34-36 | a GitLab SSH remote whose path contains `github.com` (and no white space, `@`, `:` or `vscode.dev/`) is detected as GitHub and normalises to itself minus `.git`, not to a canonical URL |
| UrlNormalizer.ProxyStrippedOnce | src/extension.ts:47 | only the first `vscode.dev/` is removed |
| UrlNormalizer.ProxyStripJoinsKeyword | src/extension.ts:33-47 | `gitvscode.dev/lab` is Unknown, but removing its `vscode.dev/` leaves `gitlab`, which is GitLab and normalises to itself |
| UrlNormalizer.EditorProxyDropsDomain | src/extension.ts:47 | `https://vscode.dev/github/<path>` normalises to `https://github/<path>` for a dot-free plain path naming no provider |
| UrlNormalizer.GitSuffixBeforeTrim | src/extension.ts:94-95 | `.git` is removed before trimming, so `<url>.git` followed by white space keeps its `.git` |
| GitContext.GetGitInfo | src/extension.ts:99-140 | a record exactly when all three queries succeed; its URL is the normalised trimmed remote, its provider is detected on that URL (and equally on the proxy-stripped remote), and its branches are the trimmed outputs |
| GitContext.GetGitInfoBranchesStable | src/extension.ts:132-133 | assembling again from the record's own branch fields gives the same record |
| GitContext.LineCommandRange | src/extension.ts:217-218 | a one-line range on the cursor's line, 1-based |
| GitContext.SelectionCommandRange | src/extension.ts:225-228 | nothing exactly for an empty selection; otherwise an ordered 1-based range whose ends are the two ends' lines |
| GitContext.SelectionRangeSymmetric | src/extension.ts:226-227 | swapping the selection's ends gives the same range |
| GitContext.OneLineSelection | src/extension.ts:217-228 | a non-empty selection on the cursor's line gives the line command's range |
| GitContext.HasRemoteBranch | src/extension.ts:189 | specified by LongerRemoteNameCounts and EmptyListingUsesDefault: a substring test for `origin/<current>` |
| GitContext.BranchToUse | src/extension.ts:189-192 | the current branch when `origin/<current>` occurs in the listing, the default branch otherwise |
| GitContext.ResolvedRef | src/extension.ts:193-194 | the ref passed to `git rev-parse` is `origin/` followed by the chosen branch |
| GitContext.LongerRemoteNameCounts | src/extension.ts:189 | any listing holding `origin/<current>` as a substring, even inside a longer branch name, selects the current branch |
| GitContext.EmptyListingUsesDefault | src/extension.ts:189-192 | an empty listing selects the default branch |
| GitContext.ListingIrrelevantOnDefaultBranch | src/extension.ts:192 | when the current branch is the default one, the listing does not change the ref |
| Permalinks.GeneratePermalinkUrl | src/extension.ts:142-165 | specified by PermalinkLayout, LineAnchorInjective and the examples below |
| Permalinks.PermalinkLayout | src/extension.ts:142-165 | every provider's link is `<remote>/<view>/<hash>/<path>#<anchor>` with the provider's view segment and line anchor |
| Permalinks.RangeSuffixIffDistinct | src/extension.ts:148-159 | the anchor carries a second line number exactly when start and end differ |
| Permalinks.LineAnchorInjective | src/extension.ts:148-159 | two ranges with the same anchor for a provider are the same range |
| Permalinks.UnknownHostUsesGitHubForm | src/extension.ts:161-163 | an unknown host gets exactly GitHub's link |
| Permalinks.PermalinkIgnoresBranches | src/extension.ts:142-165 | the link does not depend on the record's branch fields |
| Permalinks.ReversedRangeRendered | src/extension.ts:148-159 | a range with end before start is rendered as given, not rejected |
| Permalinks.GitHubRangeExample | src/extension.ts:152 | lines 10 to 20 on GitHub give `#L10-L20` after `/blob/` |
| Permalinks.GitHubLineExample | src/extension.ts:148-152 | line 10 alone on GitHub gives `#L10` |
| Permalinks.GitLabRangeExample | src/extension.ts:155 | lines 10 to 20 on GitLab give `/-/blob/` and `#L10-20` |
| Permalinks.BitbucketRangeExample | src/extension.ts:159 | lines 10 to 20 on Bitbucket give `/src/` and `#lines-10:20` |
| Permalinks.GeneratePermalink | src/extension.ts:181-199 | a link exactly when the record, the branch listing and the rev-parse of the chosen ref all succeed; then it is the layout above with the trimmed hash |
| Commands.BrowseUrl | src/commands.ts:45 | specified by BrowseUrlLayout |
| Commands.HistoryUrl | src/commands.ts:76 | specified by HistoryUrlLayout |
| Commands.BlameUrl | src/commands.ts:103 | specified by BlameUrlLayout |
| Commands.BrowseUrlLayout | src/commands.ts:45 | the browse URL is the resource URL with view `blob` at the commit |
| Commands.HistoryUrlLayout | src/commands.ts:76 | the history URL is the resource URL with view `commits` at the current branch |
| Commands.BlameUrlLayout | src/commands.ts:103 | the blame URL is the resource URL with view `blame` at the current branch |
| Commands.OpenInBrowser | src/commands.ts:19-47 | a URL exactly when the record, the listing and the rev-parse of the chosen ref succeed; then the `blob` resource URL at the trimmed hash |
| Commands.ViewFileHistory | src/commands.ts:65-78 | a URL exactly when the record exists; then the `commits` resource URL at the current branch |
| Commands.BlameFile | src/commands.ts:92-105 | a URL exactly when the record exists; then the `blame` resource URL at the current branch |
| Commands.NoUrlWithoutGitInfo | src/commands.ts:19-24 | without a record none of the three commands yields a URL |
| Commands.CommandsIgnoreHostType | src/commands.ts:45-103 | none of the three command URLs depends on the provider |
| Commands.HistoryAndBlameNameCurrentBranch | src/commands.ts:76-103 | records that differ in the current branch give different history and blame URLs |
| Commands.PermalinkExtendsBrowseUrl | src/commands.ts:28-45 | on GitHub and unknown hosts the permalink exists exactly when the browse URL does, and is that URL plus `#` and the line anchor |

## Left out

- Editor plumbing: the active editor, workspace folders, clipboard, `openExternal`, information and error messages, console logging and command registration. The relative path from `asRelativePath` is an opaque string parameter.
- Process execution and `async`/`await`. Each git query's standard output is an `Option<string>` input, None for a failed command. `git rev-parse <ref>` is a function parameter, so the model states which ref it is asked for.
- The shell pipeline `git remote show origin | grep "HEAD branch" | cut -d: -f2` is not parsed. Its output is an input, trimmed as the code trims it.
- The notification text built after a permalink is copied (src/extension.ts:202-204).
- JavaScript numbers: line numbers are natural numbers. The editor never reports negative or fractional lines.
- UTF-16: strings are sequences of Dafny characters, not UTF-16 code units. A character outside the Basic Multilingual Plane is one element here and two in JavaScript.
- The literal remotes of the repository's tests (such as `git@github.com:user/repo.git`) are covered by the general lemmas `RemoteFormsAgree` and `EditorProxyDropsDomain`, not proved one by one.
- Regular expressions in general: only the regular expressions of `normalizeGitUrl` are modelled, each by a hand-written function (the SSH and HTTPS patterns by `MatchRemote`, `/\.git$/` by `DropGitSuffix`, `/^\s+|\s+$/g` by `Trim`, `/^git:\/\//` by `RewriteGitScheme`).
- The exceptions `getGitInfo` and the handlers catch are modelled as the failed (None) outcome of the query that raised them.
