/** The `projects` table and the pull-request URL a project builds. */
module ProjectModel {
  import opened Wrappers
  import opened Base
  import opened Enums
  import opened Text

  /** One row of `projects`; the repository columns are nullable. */
  datatype Project = Project(
    meta: Meta,
    name: string,
    epic: string,
    kind: ProjectType := ProjectType.NewProject,
    status: ProjectStatus := ProjectStatus.Draft,
    githubRepoUrl: Option<string> := None,
    githubRepoName: Option<string> := None)

  /** A row built from the required columns alone gets the column defaults. */
  function NewProjectRow(meta: Meta, name: string, epic: string): (p: Project)
    ensures p.meta == meta && p.name == name && p.epic == epic
    ensures p.kind == ProjectType.NewProject && p.status == ProjectStatus.Draft
    ensures p.githubRepoUrl == None && p.githubRepoName == None
  {
    Project(meta, name, epic)
  }

  /** Python's truthiness of an optional string: absent and empty are both false. */
  predicate IsSetString(s: Option<string>) {
    s.Some? && s.value != ""
  }

  /**
   * `Project.get_pr_url`: nothing without a repository URL; otherwise the
   * URL without its trailing slashes, then `/pull/`, then the number.
   * The number itself is not checked, so 0 and negative numbers give a URL.
   */
  function ProjectPrUrl(p: Project, prNumber: int): (r: Option<string>)
    ensures r.None? <==> !IsSetString(p.githubRepoUrl)
    ensures r.Some? ==>
      var base := RStrip(p.githubRepoUrl.value, '/');
      && base <= p.githubRepoUrl.value
      && (base == [] || base[|base| - 1] != '/')
      && r.value == base + "/pull/" + IntToString(prNumber)
  {
    if !IsSetString(p.githubRepoUrl) then None
    else Some(RStrip(p.githubRepoUrl.value, '/') + "/pull/" + IntToString(prNumber))
  }
}
