/** Classification of a remote URL by hosting provider
    (`detectHostType` in src/extension.ts). */
module HostDetection {
  import opened JsStrings

  datatype HostType = GitHub | GitLab | Bitbucket | Unknown

  /** Case-sensitive substring tests in a fixed order: the exact domains
      first, then the bare names that self-hosted instances carry. */
  function DetectHostType(url: string): HostType {
    if Contains(url, "github.com") then GitHub
    else if Contains(url, "gitlab.com") then GitLab
    else if Contains(url, "bitbucket.org") then Bitbucket
    else if Contains(url, "gitlab") then GitLab
    else if Contains(url, "bitbucket") then Bitbucket
    else Unknown
  }

  /** The same rules as a table, highest priority first. */
  const Rules: seq<(string, HostType)> := [
    ("github.com", GitHub),
    ("gitlab.com", GitLab),
    ("bitbucket.org", Bitbucket),
    ("gitlab", GitLab),
    ("bitbucket", Bitbucket)
  ]

  /** The keywords the detector looks for. */
  predicate IsProviderKeyword(k: string) {
    k == "github.com" || k == "gitlab.com" || k == "bitbucket.org" || k == "gitlab" || k == "bitbucket"
  }

  /** The detector answers with the provider of the first rule whose
      keyword occurs. */
  lemma DetectIsFirstMatchingRule(url: string, i: nat)
    requires i < |Rules| && Contains(url, Rules[i].0)
    requires forall j :: 0 <= j < i ==> !Contains(url, Rules[j].0)
    ensures DetectHostType(url) == Rules[i].1
  {
    assert Rules[0].0 == "github.com" && Rules[1].0 == "gitlab.com" && Rules[2].0 == "bitbucket.org";
    assert Rules[3].0 == "gitlab";
  }

  /** A URL is Unknown exactly when no rule's keyword occurs in it. */
  lemma DetectUnknownIffNoRule(url: string)
    ensures DetectHostType(url) == Unknown <==> forall j :: 0 <= j < |Rules| ==> !Contains(url, Rules[j].0)
  {
    assert Rules[0].0 == "github.com" && Rules[1].0 == "gitlab.com" && Rules[2].0 == "bitbucket.org";
    assert Rules[3].0 == "gitlab" && Rules[4].0 == "bitbucket";
  }

  /** Since "gitlab.com" contains "gitlab" and "bitbucket.org" contains
      "bitbucket", a URL is Unknown exactly when it mentions none of
      "github.com", "gitlab" and "bitbucket". */
  lemma UnknownIffNoProviderName(url: string)
    ensures DetectHostType(url) == Unknown <==>
              !Contains(url, "github.com") && !Contains(url, "gitlab") && !Contains(url, "bitbucket")
  {
    OccurrenceIsFound("gitlab.com", "gitlab", 0);
    OccurrenceIsFound("bitbucket.org", "bitbucket", 0);
    ContainsTransitive(url, "gitlab.com", "gitlab");
    ContainsTransitive(url, "bitbucket.org", "bitbucket");
  }

  /** What every keyword looks like: lower-case letters and dots, starting
      with a letter that "https://" lacks, ending in a letter, with no dot
      followed by 'g'. These facts are what normalisation relies on. */
  lemma KeywordShape(k: string)
    requires IsProviderKeyword(k)
    ensures |k| > 4 && k[|k| - 1] != '.' && k[0] !in "https://" && k[0] != '/'
    ensures forall j :: 0 <= j < |k| - 1 ==> !(k[j] == '.' && k[j + 1] == 'g')
    ensures forall j :: 0 <= j < |k| ==> 'a' <= k[j] <= 'z' || k[j] == '.'
  {
  }

  /** Matching is case-sensitive: a capitalised domain is not recognised. */
  lemma MatchingIsCaseSensitive(path: string)
    requires 'g' !in path && 'k' !in path
    ensures DetectHostType("https://GitHub.com/" + path) == Unknown
  {
    var url := "https://GitHub.com/" + path;
    assert 'g' !in "https://GitHub.com/" && 'k' !in "https://GitHub.com/";
    assert 'g' !in url && 'k' !in url;
    UnknownWithoutGAndK(url);
  }

  /** Every keyword holds a lower-case 'g' or a 'k'. */
  lemma UnknownWithoutGAndK(url: string)
    requires 'g' !in url && 'k' !in url
    ensures DetectHostType(url) == Unknown
  {
    MissingCharacter(url, "github.com", 'g');
    MissingCharacter(url, "gitlab.com", 'g');
    MissingCharacter(url, "bitbucket.org", 'k');
    MissingCharacter(url, "gitlab", 'g');
    MissingCharacter(url, "bitbucket", 'k');
  }

  /** The exact GitHub domain outranks a bare self-hosted name. */
  lemma GitHubOutranksSelfHostedName(url: string)
    requires url == "git@github.com:gitlab/gitlab.git"
    ensures DetectHostType(url) == GitHub
  {
    assert OccursAt("github.com", url, 4);
    OccurrenceIsFound(url, "github.com", 4);
  }
}
