/** Permalink construction (`generatePermalinkUrl` and the decision steps
    of `generatePermalink` in src/extension.ts). */
module Permalinks {
  import opened Wrappers
  import opened JsStrings
  import opened HostDetection
  import opened GitContext

  /** `<remote>/<view>/<ref>/<path>`: the shape every link of the
      extension has before its fragment. */
  function ResourceUrl(remote: string, view: string, ref: string, path: string): string {
    remote + "/" + view + "/" + ref + "/" + path
  }

  /** The path segment naming a file at a commit, per provider. */
  function ViewSegment(h: HostType): string {
    match h
    case GitLab => "-/blob"
    case Bitbucket => "src"
    case _ => "blob"
  }

  /** What the fragment starts with, per provider. */
  function AnchorHead(h: HostType): string {
    if h == Bitbucket then "lines-" else "L"
  }

  /** What separates the two line numbers of a range, per provider. */
  function RangeSeparator(h: HostType): string {
    match h
    case GitLab => "-"
    case Bitbucket => ":"
    case _ => "-L"
  }

  /** The fragment: the head, the start line, and for a proper range the
      separator and the end line. */
  function LineAnchor(h: HostType, range: LineRange): string {
    AnchorHead(h) + NatToString(range.start) + RangeSuffix(h, range)
  }

  /** The part of the fragment after the start line. */
  function RangeSuffix(h: HostType, range: LineRange): string {
    if range.start == range.end then "" else RangeSeparator(h) + NatToString(range.end)
  }

  /** `generatePermalinkUrl`: a switch over the host type with one template
      string per provider, GitHub's also serving unknown hosts. */
  function GeneratePermalinkUrl(gitInfo: GitInfo, commitHash: string, relativePath: string, range: LineRange): string {
    var lineRange :=
      if range.start == range.end then "L" + NatToString(range.start)
      else "L" + NatToString(range.start) + "-L" + NatToString(range.end);
    match gitInfo.hostType
    case GitHub =>
      gitInfo.remoteUrl + "/blob/" + commitHash + "/" + relativePath + "#" + lineRange
    case GitLab =>
      gitInfo.remoteUrl + "/-/blob/" + commitHash + "/" + relativePath + "#L" + NatToString(range.start)
        + (if range.end != range.start then "-" + NatToString(range.end) else "")
    case Bitbucket =>
      gitInfo.remoteUrl + "/src/" + commitHash + "/" + relativePath + "#lines-" + NatToString(range.start)
        + (if range.end != range.start then ":" + NatToString(range.end) else "")
    case Unknown =>
      gitInfo.remoteUrl + "/blob/" + commitHash + "/" + relativePath + "#" + lineRange
  }

  /** The per-provider templates are one layout: the resource URL with the
      provider's view segment, then '#' and the provider's line anchor. */
  lemma PermalinkLayout(gitInfo: GitInfo, commitHash: string, relativePath: string, range: LineRange)
    ensures GeneratePermalinkUrl(gitInfo, commitHash, relativePath, range)
         == ResourceUrl(gitInfo.remoteUrl, ViewSegment(gitInfo.hostType), commitHash, relativePath)
            + "#" + LineAnchor(gitInfo.hostType, range)
  {
    match gitInfo.hostType
    case GitHub => FragmentLayout(gitInfo, commitHash, relativePath, range);
    case Unknown => FragmentLayout(gitInfo, commitHash, relativePath, range);
    case GitLab => AnchorLayout(gitInfo, commitHash, relativePath, range);
    case Bitbucket => AnchorLayout(gitInfo, commitHash, relativePath, range);
  }

  /** GitHub and unknown hosts: the anchor is built first, then appended. */
  lemma FragmentLayout(gitInfo: GitInfo, commitHash: string, relativePath: string, range: LineRange)
    requires gitInfo.hostType == GitHub || gitInfo.hostType == Unknown
    ensures GeneratePermalinkUrl(gitInfo, commitHash, relativePath, range)
         == ResourceUrl(gitInfo.remoteUrl, ViewSegment(gitInfo.hostType), commitHash, relativePath)
            + "#" + LineAnchor(gitInfo.hostType, range)
  {
    var h := gitInfo.hostType;
    assert LineAnchor(h, range) == AnchorHead(h) + NatToString(range.start) + RangeSuffix(h, range);
    assert "/blob/" == "/" + ViewSegment(h) + "/";
    SplitFragment(gitInfo.remoteUrl, ViewSegment(h), commitHash, relativePath, "#", LineAnchor(h, range));
  }

  /** GitLab and Bitbucket: the anchor head is part of the literal. */
  lemma AnchorLayout(gitInfo: GitInfo, commitHash: string, relativePath: string, range: LineRange)
    requires gitInfo.hostType == GitLab || gitInfo.hostType == Bitbucket
    ensures GeneratePermalinkUrl(gitInfo, commitHash, relativePath, range)
         == ResourceUrl(gitInfo.remoteUrl, ViewSegment(gitInfo.hostType), commitHash, relativePath)
            + "#" + LineAnchor(gitInfo.hostType, range)
  {
    var h := gitInfo.hostType;
    var start := NatToString(range.start);
    var tail := RangeSuffix(h, range);
    assert "/" + ViewSegment(h) + "/" == (if h == GitLab then "/-/blob/" else "/src/");
    assert "#" + AnchorHead(h) == (if h == GitLab then "#L" else "#lines-");
    SplitAnchor(gitInfo.remoteUrl, ViewSegment(h), commitHash, relativePath, AnchorHead(h), start, tail);
  }

  lemma SplitFragment(remote: string, view: string, hash: string, path: string, mark: string, fragment: string)
    ensures remote + ("/" + view + "/") + hash + "/" + path + mark + fragment
         == ResourceUrl(remote, view, hash, path) + mark + fragment
  {
  }

  lemma SplitAnchor(remote: string, view: string, hash: string, path: string, head: string, start: string, tail: string)
    ensures remote + ("/" + view + "/") + hash + "/" + path + ("#" + head) + start + tail
         == ResourceUrl(remote, view, hash, path) + "#" + (head + start + tail)
  {
  }

  lemma TemplateIsResourceUrl(remote: string, sep: string, view: string, ref: string, path: string)
    requires sep == "/" + view + "/"
    ensures remote + sep + ref + "/" + path == ResourceUrl(remote, view, ref, path)
  {
  }

  /** A resource URL names its ref: with the rest fixed, different refs
      give different URLs. */
  lemma ResourceUrlDeterminesRef(remote: string, view: string, ref1: string, ref2: string, path: string)
    requires ResourceUrl(remote, view, ref1, path) == ResourceUrl(remote, view, ref2, path)
    ensures ref1 == ref2
  {
    var head := remote + "/" + view + "/";
    var u1 := head + ref1 + ("/" + path);
    var u2 := head + ref2 + ("/" + path);
    assert ResourceUrl(remote, view, ref1, path) == u1;
    assert ResourceUrl(remote, view, ref2, path) == u2;
    assert u1[|head|..|head| + |ref1|] == ref1;
    assert u2[|head|..|head| + |ref2|] == ref2;
  }

  /** The range suffix appears exactly when the two lines differ. */
  lemma RangeSuffixIffDistinct(h: HostType, range: LineRange)
    ensures LineAnchor(h, range) == AnchorHead(h) + NatToString(range.start) <==> range.start == range.end
  {
    assert |RangeSeparator(h)| > 0;
  }

  /** The fragment tells the range apart: two ranges with the same anchor
      for a provider are the same range. */
  lemma LineAnchorInjective(h: HostType, r1: LineRange, r2: LineRange)
    requires LineAnchor(h, r1) == LineAnchor(h, r2)
    ensures r1 == r2
  {
    var s1, s2 := NatToString(r1.start), NatToString(r2.start);
    var t1, t2 := RangeSuffix(h, r1), RangeSuffix(h, r2);
    AppendAssoc(AnchorHead(h), s1, t1);
    AppendAssoc(AnchorHead(h), s2, t2);
    CancelPrefix(AnchorHead(h), s1 + t1, s2 + t2);
    SuffixStartsWithSeparator(h, r1);
    SuffixStartsWithSeparator(h, r2);
    DigitRunSplit(s1, t1, s2, t2);
    NatToStringInjective(r1.start, r2.start);
    RangeSuffixInjective(h, r1, r2);
  }

  lemma CancelPrefix(a: string, x: string, y: string)
    requires a + x == a + y
    ensures x == y
  {
    assert x == (a + x)[|a|..];
    assert y == (a + y)[|a|..];
  }

  lemma SuffixStartsWithSeparator(h: HostType, range: LineRange)
    ensures RangeSuffix(h, range) == [] || !IsDigit(RangeSuffix(h, range)[0])
  {
  }

  /** With the start line fixed, the suffix tells the end line. */
  lemma RangeSuffixInjective(h: HostType, r1: LineRange, r2: LineRange)
    requires r1.start == r2.start && RangeSuffix(h, r1) == RangeSuffix(h, r2)
    ensures r1.end == r2.end
  {
    var sep := RangeSeparator(h);
    if r1.start != r1.end && r2.start != r2.end {
      CancelPrefix(sep, NatToString(r1.end), NatToString(r2.end));
      NatToStringInjective(r1.end, r2.end);
    } else {
      assert |sep| > 0;
    }
  }

  /** Unknown hosts get exactly GitHub's link. */
  lemma UnknownHostUsesGitHubForm(gitInfo: GitInfo, commitHash: string, relativePath: string, range: LineRange)
    requires gitInfo.hostType == Unknown
    ensures GeneratePermalinkUrl(gitInfo, commitHash, relativePath, range)
         == GeneratePermalinkUrl(gitInfo.(hostType := GitHub), commitHash, relativePath, range)
  {
  }

  /** The link reads neither branch field of the record. */
  lemma PermalinkIgnoresBranches(gitInfo: GitInfo, current: string, default: string, commitHash: string,
                                 relativePath: string, range: LineRange)
    ensures GeneratePermalinkUrl(gitInfo.(currentBranch := current, defaultBranch := default), commitHash, relativePath, range)
         == GeneratePermalinkUrl(gitInfo, commitHash, relativePath, range)
  {
  }

  /** A reversed range is not rejected: it is rendered as given. */
  lemma ReversedRangeRendered(h: HostType, start: nat, end: nat)
    requires end < start
    ensures LineAnchor(h, LineRange(start, end)) == AnchorHead(h) + NatToString(start) + RangeSeparator(h) + NatToString(end)
  {
  }

  /** The GitHub link for lines 10 to 20. */
  lemma GitHubRangeExample(info: GitInfo, hash: string, path: string)
    requires info == GitInfo("r", "main", "main", GitHub)
    requires hash == "h" && path == "p"
    ensures GeneratePermalinkUrl(info, hash, path, LineRange(10, 20))
         == "r/blob/h/p#L10-L20"
  {
    Renders10And20();
  }

  /** The GitHub link for line 10 alone. */
  lemma GitHubLineExample(info: GitInfo, hash: string, path: string)
    requires info == GitInfo("r", "main", "main", GitHub)
    requires hash == "h" && path == "p"
    ensures GeneratePermalinkUrl(info, hash, path, LineRange(10, 10))
         == "r/blob/h/p#L10"
  {
    Renders10And20();
  }

  /** The GitLab link for lines 10 to 20. */
  lemma GitLabRangeExample(info: GitInfo, hash: string, path: string)
    requires info == GitInfo("r", "main", "main", GitLab)
    requires hash == "h" && path == "p"
    ensures GeneratePermalinkUrl(info, hash, path, LineRange(10, 20))
         == "r/-/blob/h/p#L10-20"
  {
    Renders10And20();
  }

  /** The Bitbucket link for lines 10 to 20. */
  lemma BitbucketRangeExample(info: GitInfo, hash: string, path: string)
    requires info == GitInfo("r", "main", "main", Bitbucket)
    requires hash == "h" && path == "p"
    ensures GeneratePermalinkUrl(info, hash, path, LineRange(10, 20))
         == "r/src/h/p#lines-10:20"
  {
    Renders10And20();
  }

  lemma Renders10And20()
    ensures NatToString(10) == "10" && NatToString(20) == "20"
  {
  }

  // ---------------------------------------------------------------------
  // generatePermalink

  /** The decision steps of `generatePermalink`: no record, a failed
      `git branch -r` or a failed `git rev-parse` yields no link; otherwise
      the link for the resolved branch's trimmed commit hash. `revParse`
      stands for running `git rev-parse <ref>`. */
  function GeneratePermalink(gitInfo: Option<GitInfo>, remoteBranches: Option<string>,
                             revParse: string -> Option<string>, relativePath: string, range: LineRange): (r: Option<string>)
    ensures r.Some? <==> gitInfo.Some? && remoteBranches.Some?
                         && revParse(ResolvedRef(gitInfo.value, remoteBranches.value)).Some?
    ensures r.Some? ==>
              var hash := Trim(revParse(ResolvedRef(gitInfo.value, remoteBranches.value)).value);
              r.value == ResourceUrl(gitInfo.value.remoteUrl, ViewSegment(gitInfo.value.hostType), hash, relativePath)
                         + "#" + LineAnchor(gitInfo.value.hostType, range)
  {
    match gitInfo
    case None => None
    case Some(info) =>
      match remoteBranches
      case None => None
      case Some(listing) =>
        match revParse("origin/" + BranchToUse(info, listing))
        case None => None
        case Some(commitHash) =>
          PermalinkLayout(info, Trim(commitHash), relativePath, range);
          Some(GeneratePermalinkUrl(info, Trim(commitHash), relativePath, range))
  }
}
