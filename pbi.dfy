/**
 * The `pbis` table: work items inside a feature, the self-referential
 * `blocked_by_id` link with its derived reverse view `blocking`, and the
 * pull-request URL of a PBI.
 */
module PbiModel {
  import opened Wrappers
  import opened Base
  import opened Enums
  import opened Text
  import opened ProjectModel

  /**
   * One row of `pbis`. `kind` has no default; `blockedById` names at most
   * one PBI that blocks this one, in any feature, and nothing rules out
   * a cycle of such links.
   */
  datatype Pbi = Pbi(
    meta: Meta,
    featureId: Id,
    title: string,
    description: string,
    kind: PbiType,
    status: PbiStatus := PbiStatus.PbiPending,
    assignedAgent: Option<string> := None,
    branchName: Option<string> := None,
    prNumber: Option<int> := None,
    prStatus: Option<PrStatus> := None,
    blockedById: Option<Id> := None,
    order: int := 0)

  /** A row built from the required columns alone gets the column defaults. */
  function NewPbiRow(meta: Meta, featureId: Id, title: string, description: string, kind: PbiType): (p: Pbi)
    ensures p.meta == meta && p.featureId == featureId
    ensures p.title == title && p.description == description && p.kind == kind
    ensures p.status == PbiStatus.PbiPending && p.order == 0
    ensures p.assignedAgent == None && p.branchName == None
    ensures p.prNumber == None && p.prStatus == None && p.blockedById == None
  {
    Pbi(meta, featureId, title, description, kind)
  }

  // ------------------------------------------------------------- pull requests

  /** `pr_number` is truthy in Python: present and not zero. */
  predicate HasPrNumber(p: Pbi) {
    p.prNumber.Some? && p.prNumber.value != 0
  }

  /**
   * `PBI.get_pr_url`: nothing unless the PBI has a nonzero PR number and
   * the repository URL is a nonempty string; otherwise the URL without
   * its trailing slashes, then `/pull/`, then the number.
   */
  function PbiPrUrl(p: Pbi, githubRepoUrl: Option<string>): (r: Option<string>)
    ensures r.None? <==> !HasPrNumber(p) || !IsSetString(githubRepoUrl)
    ensures r.Some? ==>
      var base := RStrip(githubRepoUrl.value, '/');
      && (base == [] || base[|base| - 1] != '/')
      && RStrip(base, '/') == base
      && r.value == base + "/pull/" + IntToString(p.prNumber.value)
  {
    if !HasPrNumber(p) || !IsSetString(githubRepoUrl) then None
    else
      var base := RStrip(githubRepoUrl.value, '/');
      RStripIdempotent(githubRepoUrl.value, '/');
      Some(base + "/pull/" + IntToString(p.prNumber.value))
  }

  /** With a repository URL and a nonzero number, the PBI and its project build the same URL. */
  lemma PrUrlsAgree(project: Project, p: Pbi)
    requires IsSetString(project.githubRepoUrl) && HasPrNumber(p)
    ensures PbiPrUrl(p, project.githubRepoUrl) == ProjectPrUrl(project, p.prNumber.value)
  {
  }

  /** PR number 0 is where the two differ: the project still builds a URL, the PBI does not. */
  lemma PrUrlsDisagreeAtZero(project: Project, p: Pbi)
    requires IsSetString(project.githubRepoUrl) && p.prNumber == Some(0)
    ensures PbiPrUrl(p, project.githubRepoUrl) == None
    ensures ProjectPrUrl(project, 0).Some?
  {
  }

  /** The documented example: a trailing slash is dropped before `/pull/42`. */
  lemma PrUrlExample(p: Pbi)
    requires p.prNumber == Some(42)
    ensures PbiPrUrl(p, Some("https://github.com/org/repo/")) == Some("https://github.com/org/repo/pull/42")
  {
    var url := "https://github.com/org/repo/";
    assert url[..|url| - 1] == "https://github.com/org/repo";
    assert RStrip(url, '/') == "https://github.com/org/repo";
    assert NatToString(42) == NatToString(4) + [DigitChar(2)];
    assert IntToString(42) == "42";
    assert "https://github.com/org/repo" + "/pull/" + "42" == "https://github.com/org/repo/pull/42";
  }

  // ------------------------------------------------------------------ blocking

  /** The reverse view `blocking`: every PBI whose `blocked_by_id` is `x`. */
  function Blocking(pbis: map<Id, Pbi>, x: Id): (r: set<Id>)
    ensures forall a :: a in r <==> a in pbis && pbis[a].blockedById == Some(x)
  {
    set a | a in pbis && pbis[a].blockedById == Some(x)
  }

  /** Each PBI has one predecessor at most, so it appears in at most one `blocking` view. */
  lemma BlockingViewsAreDisjoint(pbis: map<Id, Pbi>, x: Id, y: Id)
    requires x != y
    ensures Blocking(pbis, x) !! Blocking(pbis, y)
  {
  }

  /** The table after pointing `a`'s `blocked_by_id` at `b` (or clearing it). */
  function SetBlockedBy(pbis: map<Id, Pbi>, a: Id, b: Option<Id>): (r: map<Id, Pbi>)
    requires a in pbis
    ensures r.Keys == pbis.Keys
    ensures r[a].blockedById == b
    ensures r[a] == pbis[a].(blockedById := b)
    ensures forall k :: k in pbis && k != a ==> r[k] == pbis[k]
  {
    pbis[a := pbis[a].(blockedById := b)]
  }

  /**
   * Setting the link moves `a` into the view of its new blocker and out of
   * every other view; the views of all other PBIs are untouched.
   */
  lemma SetBlockedByMovesBetweenViews(pbis: map<Id, Pbi>, a: Id, b: Option<Id>, x: Id)
    requires a in pbis
    ensures b == Some(x) ==> Blocking(SetBlockedBy(pbis, a, b), x) == Blocking(pbis, x) + {a}
    ensures b != Some(x) ==> Blocking(SetBlockedBy(pbis, a, b), x) == Blocking(pbis, x) - {a}
  {
    var r := SetBlockedBy(pbis, a, b);
    if b == Some(x) {
      assert Blocking(r, x) == Blocking(pbis, x) + {a};
    } else {
      assert Blocking(r, x) == Blocking(pbis, x) - {a};
    }
  }

  /**
   * The views depend only on the links, so an assignment that also
   * refreshes the timestamps moves `a` between the views in the same way.
   */
  lemma RelinkMovesBetweenViews(pbis: map<Id, Pbi>, a: Id, b: Option<Id>, m: Meta)
    requires a in pbis
    ensures var r := pbis[a := pbis[a].(blockedById := b, meta := m)];
      forall x: Id :: Blocking(r, x) == (if b == Some(x) then Blocking(pbis, x) + {a} else Blocking(pbis, x) - {a})
  {
    var r := pbis[a := pbis[a].(blockedById := b, meta := m)];
    forall x: Id ensures Blocking(r, x) == (if b == Some(x) then Blocking(pbis, x) + {a} else Blocking(pbis, x) - {a}) {
      SetBlockedByMovesBetweenViews(pbis, a, b, x);
      assert Blocking(r, x) == Blocking(SetBlockedBy(pbis, a, b), x);
    }
  }

  /** Nothing checks for cycles: a PBI may block itself, and two PBIs may block each other. */
  lemma CyclesAreAccepted(pbis: map<Id, Pbi>, a: Id, b: Id)
    requires a in pbis && b in pbis && a != b
    ensures a in Blocking(SetBlockedBy(pbis, a, Some(a)), a)
    ensures var r := SetBlockedBy(SetBlockedBy(pbis, a, Some(b)), b, Some(a));
      a in Blocking(r, b) && b in Blocking(r, a)
  {
  }
}
