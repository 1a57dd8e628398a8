/** The repository facts the handlers work from: the `GitInfo` record
    assembled by `getGitInfo`, the line range a command asks for, and the
    branch whose commit a link points at (src/extension.ts and
    src/commands.ts). */
module GitContext {
  import opened Wrappers
  import opened JsStrings
  import opened HostDetection
  import opened UrlNormalizer

  datatype GitInfo = GitInfo(remoteUrl: string, currentBranch: string, defaultBranch: string, hostType: HostType)

  /** `getGitInfo`: the standard output of `git config --get
      remote.origin.url`, of `git rev-parse --abbrev-ref HEAD` and of the
      default-branch pipeline, each None when the query fails. Any failure
      yields no record at all. */
  function GetGitInfo(remoteOut: Option<string>, branchOut: Option<string>, defaultOut: Option<string>): (r: Option<GitInfo>)
    ensures r.Some? <==> remoteOut.Some? && branchOut.Some? && defaultOut.Some?
    ensures r.Some? ==> r.value.remoteUrl == NormalizeGitUrl(Trim(remoteOut.value))
    ensures r.Some? ==> r.value.hostType == DetectHostType(r.value.remoteUrl)
    ensures r.Some? ==> r.value.hostType == DetectHostType(StripEditorProxy(Trim(remoteOut.value)))
    ensures r.Some? ==> IsTrimmed(r.value.currentBranch) && IsTrimmed(r.value.defaultBranch)
    ensures r.Some? ==> r.value.currentBranch == Trim(branchOut.value) && r.value.defaultBranch == Trim(defaultOut.value)
  {
    match (remoteOut, branchOut, defaultOut)
    case (Some(remote), Some(current), Some(default)) =>
      var normalizedUrl := NormalizeGitUrl(Trim(remote));
      HostTypeSurvivesNormalization(Trim(remote));
      Some(GitInfo(normalizedUrl, Trim(current), Trim(default), DetectHostType(normalizedUrl)))
    case _ => None
  }

  /** Re-running the branch queries on their own trimmed answers changes
      nothing: the record is stable under re-assembly from its own fields. */
  lemma GetGitInfoBranchesStable(remoteOut: string, branchOut: string, defaultOut: string)
    ensures var r := GetGitInfo(Some(remoteOut), Some(branchOut), Some(defaultOut)).value;
            GetGitInfo(Some(remoteOut), Some(r.currentBranch), Some(r.defaultBranch)) == Some(r)
  {
    TrimIdempotent(branchOut);
    TrimIdempotent(defaultOut);
  }

  // ---------------------------------------------------------------------
  // Line ranges

  /** 1-based, inclusive; nothing requires `start <= end`. */
  datatype LineRange = LineRange(start: nat, end: nat)

  /** 0-based editor coordinates. */
  datatype Position = Position(line: nat, character: nat)

  /** An editor selection with its cursor (`active`) end. */
  datatype Selection = Selection(start: Position, end: Position, active: Position)

  /** `selection.isEmpty`: both ends at the same position. */
  predicate IsEmpty(sel: Selection) {
    sel.start == sel.end
  }

  function Min(a: nat, b: nat): nat { if a <= b then a else b }

  function Max(a: nat, b: nat): nat { if a <= b then b else a }

  /** The line command: the single 1-based line of the cursor. */
  function LineCommandRange(sel: Selection): (r: LineRange)
    ensures r.start == r.end && r.start >= 1
    ensures r.start - 1 == sel.active.line
  {
    var line := sel.active.line + 1;
    LineRange(line, line)
  }

  /** The selection command: nothing for an empty selection, otherwise the
      1-based lines of both ends, the smaller first. */
  function SelectionCommandRange(sel: Selection): (r: Option<LineRange>)
    ensures r.None? <==> IsEmpty(sel)
    ensures r.Some? ==> 1 <= r.value.start <= r.value.end
    ensures r.Some? ==> {r.value.start, r.value.end} == {sel.start.line + 1, sel.end.line + 1}
  {
    if IsEmpty(sel) then None
    else
      var startLine := Min(sel.start.line + 1, sel.end.line + 1);
      var endLine := Max(sel.start.line + 1, sel.end.line + 1);
      Some(LineRange(startLine, endLine))
  }

  /** The order of the selection's ends does not matter. */
  lemma SelectionRangeSymmetric(sel: Selection)
    ensures SelectionCommandRange(sel) == SelectionCommandRange(Selection(sel.end, sel.start, sel.active))
  {
  }

  /** A non-empty selection within one line gives a one-line range, the
      same range the line command gives when the cursor is on that line. */
  lemma OneLineSelection(sel: Selection)
    requires !IsEmpty(sel) && sel.start.line == sel.end.line == sel.active.line
    ensures SelectionCommandRange(sel) == Some(LineCommandRange(sel))
  {
  }

  // ---------------------------------------------------------------------
  // Which branch a link resolves

  /** `remoteBranches.includes('origin/' + currentBranch)`: a substring
      test on the `git branch -r` listing. */
  predicate HasRemoteBranch(info: GitInfo, remoteBranches: string) {
    Contains(remoteBranches, "origin/" + info.currentBranch)
  }

  function BranchToUse(info: GitInfo, remoteBranches: string): (b: string)
    ensures b == info.currentBranch || b == info.defaultBranch
    ensures b == info.currentBranch <== HasRemoteBranch(info, remoteBranches)
    ensures b == info.defaultBranch <== !HasRemoteBranch(info, remoteBranches)
  {
    if HasRemoteBranch(info, remoteBranches) then info.currentBranch else info.defaultBranch
  }

  /** The ref handed to `git rev-parse`. */
  function ResolvedRef(info: GitInfo, remoteBranches: string): (ref: string)
    ensures "origin/" <= ref
    ensures ref[7..] == BranchToUse(info, remoteBranches)
  {
    "origin/" + BranchToUse(info, remoteBranches)
  }

  /** Because the test is a substring test, any remote branch whose name
      merely starts with the current branch's name (`origin/main-old` for
      `main`) makes the current branch count as pushed. */
  lemma LongerRemoteNameCounts(info: GitInfo, before: string, extra: string, after: string)
    ensures BranchToUse(info, before + "origin/" + info.currentBranch + extra + after) == info.currentBranch
  {
    var k := "origin/" + info.currentBranch;
    var listing := before + "origin/" + info.currentBranch + extra + after;
    assert listing == before + (k + extra + after);
    assert OccursAt(k, listing, |before|) by {
      assert listing[|before|..|before| + |k|] == k;
    }
    OccurrenceIsFound(listing, k, |before|);
  }

  /** With an empty listing the default branch is used. */
  lemma EmptyListingUsesDefault(info: GitInfo)
    ensures BranchToUse(info, "") == info.defaultBranch
  {
    var k := "origin/" + info.currentBranch;
    assert !OccursAt(k, "", 0);
    assert IndexOfFrom("", k, 0).None?;
  }

  /** When the current branch is the default one, the listing is irrelevant. */
  lemma ListingIrrelevantOnDefaultBranch(info: GitInfo, l1: string, l2: string)
    requires info.currentBranch == info.defaultBranch
    ensures ResolvedRef(info, l1) == ResolvedRef(info, l2)
  {
  }
}
