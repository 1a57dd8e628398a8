/** The URLs opened by the three editor commands `openInBrowser`,
    `viewFileHistory` and `blameFile` (src/commands.ts). */
module Commands {
  import opened Wrappers
  import opened JsStrings
  import opened HostDetection
  import opened GitContext
  import opened Permalinks

  /** The URL `openInBrowser` opens: the file at a commit (the caller
      passes the trimmed `git rev-parse` output). */
  function BrowseUrl(gitInfo: GitInfo, commitHash: string, relativePath: string): string {
    gitInfo.remoteUrl + "/blob/" + commitHash + "/" + relativePath
  }

  /** The URL `viewFileHistory` opens: the file's commits on the current branch. */
  function HistoryUrl(gitInfo: GitInfo, relativePath: string): string {
    gitInfo.remoteUrl + "/commits/" + gitInfo.currentBranch + "/" + relativePath
  }

  /** The URL `blameFile` opens: the file's blame on the current branch. */
  function BlameUrl(gitInfo: GitInfo, relativePath: string): string {
    gitInfo.remoteUrl + "/blame/" + gitInfo.currentBranch + "/" + relativePath
  }

  /** All three are GitHub-style resource URLs, whatever the provider. */
  lemma BrowseUrlLayout(gitInfo: GitInfo, commitHash: string, relativePath: string)
    ensures BrowseUrl(gitInfo, commitHash, relativePath) == ResourceUrl(gitInfo.remoteUrl, "blob", commitHash, relativePath)
  {
    TemplateIsResourceUrl(gitInfo.remoteUrl, "/blob/", "blob", commitHash, relativePath);
  }

  lemma HistoryUrlLayout(gitInfo: GitInfo, relativePath: string)
    ensures HistoryUrl(gitInfo, relativePath) == ResourceUrl(gitInfo.remoteUrl, "commits", gitInfo.currentBranch, relativePath)
  {
    TemplateIsResourceUrl(gitInfo.remoteUrl, "/commits/", "commits", gitInfo.currentBranch, relativePath);
  }

  lemma BlameUrlLayout(gitInfo: GitInfo, relativePath: string)
    ensures BlameUrl(gitInfo, relativePath) == ResourceUrl(gitInfo.remoteUrl, "blame", gitInfo.currentBranch, relativePath)
  {
    TemplateIsResourceUrl(gitInfo.remoteUrl, "/blame/", "blame", gitInfo.currentBranch, relativePath);
  }

  /** `openInBrowser` past the workspace lookup: no record, a failed
      `git branch -r` or a failed `git rev-parse` opens nothing. */
  function OpenInBrowser(gitInfo: Option<GitInfo>, remoteBranches: Option<string>,
                         revParse: string -> Option<string>, relativePath: string): (r: Option<string>)
    ensures r.Some? <==> gitInfo.Some? && remoteBranches.Some?
                         && revParse(ResolvedRef(gitInfo.value, remoteBranches.value)).Some?
    ensures r.Some? ==>
              r.value == ResourceUrl(gitInfo.value.remoteUrl, "blob",
                                     Trim(revParse(ResolvedRef(gitInfo.value, remoteBranches.value)).value), relativePath)
  {
    match gitInfo
    case None => None
    case Some(info) =>
      match remoteBranches
      case None => None
      case Some(listing) =>
        match revParse("origin/" + BranchToUse(info, listing))
        case None => None
        case Some(commitHash) =>
          BrowseUrlLayout(info, Trim(commitHash), relativePath);
          Some(BrowseUrl(info, Trim(commitHash), relativePath))
  }

  /** `viewFileHistory` past the workspace lookup. */
  function ViewFileHistory(gitInfo: Option<GitInfo>, relativePath: string): (r: Option<string>)
    ensures r.Some? <==> gitInfo.Some?
    ensures r.Some? ==> r.value == ResourceUrl(gitInfo.value.remoteUrl, "commits", gitInfo.value.currentBranch, relativePath)
  {
    match gitInfo
    case None => None
    case Some(info) =>
      HistoryUrlLayout(info, relativePath);
      Some(HistoryUrl(info, relativePath))
  }

  /** `blameFile` past the workspace lookup. */
  function BlameFile(gitInfo: Option<GitInfo>, relativePath: string): (r: Option<string>)
    ensures r.Some? <==> gitInfo.Some?
    ensures r.Some? ==> r.value == ResourceUrl(gitInfo.value.remoteUrl, "blame", gitInfo.value.currentBranch, relativePath)
  {
    match gitInfo
    case None => None
    case Some(info) =>
      BlameUrlLayout(info, relativePath);
      Some(BlameUrl(info, relativePath))
  }

  /** Without repository information no command produces a URL. */
  lemma NoUrlWithoutGitInfo(remoteBranches: Option<string>, revParse: string -> Option<string>, relativePath: string)
    ensures OpenInBrowser(None, remoteBranches, revParse, relativePath).None?
    ensures ViewFileHistory(None, relativePath).None?
    ensures BlameFile(None, relativePath).None?
  {
  }

  /** None of the command URLs depends on the provider. */
  lemma CommandsIgnoreHostType(gitInfo: GitInfo, h: HostType, remoteBranches: Option<string>,
                               revParse: string -> Option<string>, relativePath: string)
    ensures OpenInBrowser(Some(gitInfo.(hostType := h)), remoteBranches, revParse, relativePath)
         == OpenInBrowser(Some(gitInfo), remoteBranches, revParse, relativePath)
    ensures ViewFileHistory(Some(gitInfo.(hostType := h)), relativePath) == ViewFileHistory(Some(gitInfo), relativePath)
    ensures BlameFile(Some(gitInfo.(hostType := h)), relativePath) == BlameFile(Some(gitInfo), relativePath)
  {
    var other := gitInfo.(hostType := h);
    assert forall listing :: ResolvedRef(other, listing) == ResolvedRef(gitInfo, listing);
  }

  /** History and blame URLs name the current branch itself, not a commit:
      records that differ in the current branch give different URLs. */
  lemma HistoryAndBlameNameCurrentBranch(gitInfo: GitInfo, branch: string, relativePath: string)
    requires branch != gitInfo.currentBranch
    ensures ViewFileHistory(Some(gitInfo.(currentBranch := branch)), relativePath) != ViewFileHistory(Some(gitInfo), relativePath)
    ensures BlameFile(Some(gitInfo.(currentBranch := branch)), relativePath) != BlameFile(Some(gitInfo), relativePath)
  {
    var other := gitInfo.(currentBranch := branch);
    if ViewFileHistory(Some(other), relativePath) == ViewFileHistory(Some(gitInfo), relativePath) {
      ResourceUrlDeterminesRef(gitInfo.remoteUrl, "commits", branch, gitInfo.currentBranch, relativePath);
    }
    if BlameFile(Some(other), relativePath) == BlameFile(Some(gitInfo), relativePath) {
      ResourceUrlDeterminesRef(gitInfo.remoteUrl, "blame", branch, gitInfo.currentBranch, relativePath);
    }
  }

  /** For GitHub and unknown hosts a permalink is the browse URL of the same
      file at the same commit plus the line anchor: the two handlers agree
      on the branch, the ref and the hash, and succeed together. */
  lemma PermalinkExtendsBrowseUrl(gitInfo: GitInfo, remoteBranches: Option<string>,
                                  revParse: string -> Option<string>, relativePath: string, range: LineRange)
    requires gitInfo.hostType == GitHub || gitInfo.hostType == Unknown
    ensures GeneratePermalink(Some(gitInfo), remoteBranches, revParse, relativePath, range).Some?
        <==> OpenInBrowser(Some(gitInfo), remoteBranches, revParse, relativePath).Some?
    ensures OpenInBrowser(Some(gitInfo), remoteBranches, revParse, relativePath).Some? ==>
              (GeneratePermalink(Some(gitInfo), remoteBranches, revParse, relativePath, range).value
               == OpenInBrowser(Some(gitInfo), remoteBranches, revParse, relativePath).value
                  + "#" + LineAnchor(gitInfo.hostType, range))
  {
  }
}
