/**
 * The internal-projects list (pages/InternalProjectsPage.tsx): the search,
 * category and status filters over the fetched projects and the headline
 * counts.
 */
module InternalProjectsPage {
  import opened Wrappers
  import opened Text
  import opened Lists

  /** A row of `internal_projects` (the joined members are left out here). */
  datatype Project = Project(
    id: string, title: string, description: Option<string>,
    category: Option<string>, status: Option<string>)

  /** The search box: a case-insensitive substring of the title or of the description. */
  predicate MatchesSearch(p: Project, term: string) {
    Contains(Lower(p.title), Lower(term))
    || (p.description.Some? && Contains(Lower(p.description.value), Lower(term)))
  }

  /** 'Todos' passes every category; any other choice only that exact category. */
  predicate MatchesCategory(p: Project, category: string) {
    category == "Todos" || p.category == Some(category)
  }

  /** 'all' passes every status; any other choice only that exact status. */
  predicate MatchesStatus(p: Project, status: string) {
    status == "all" || p.status == Some(status)
  }

  predicate Shown(p: Project, term: string, category: string, status: string) {
    MatchesSearch(p, term) && MatchesCategory(p, category) && MatchesStatus(p, status)
  }

  function ShownTest(term: string, category: string, status: string): (test: Project -> bool)
    ensures forall p :: test(p) == Shown(p, term, category, status)
  {
    (p: Project) => Shown(p, term, category, status)
  }

  /** `filteredProjects`: the projects passing all three tests, in fetch order. */
  function FilteredProjects(projects: seq<Project>, term: string, category: string, status: string): (r: seq<Project>)
    ensures forall i :: 0 <= i < |r| ==>
      (r[i] in projects && MatchesSearch(r[i], term) && MatchesCategory(r[i], category) && MatchesStatus(r[i], status))
    ensures forall i :: 0 <= i < |projects| && Shown(projects[i], term, category, status) ==> projects[i] in r
  {
    FilterKeeps(projects, ShownTest(term, category, status));
    FilterComplete(projects, ShownTest(term, category, status));
    Filter(projects, ShownTest(term, category, status))
  }

  /** The filtered list keeps the fetch order. */
  lemma FilteredKeepsOrder(projects: seq<Project>, term: string, category: string, status: string)
    ensures SubseqOf(FilteredProjects(projects, term, category, status), projects)
  {
    FilterSubseq(projects, ShownTest(term, category, status));
  }

  /** With the default filters (no search, 'Todos', 'all') every project is shown. */
  lemma DefaultFiltersShowAll(projects: seq<Project>)
    ensures FilteredProjects(projects, "", "Todos", "all") == projects
  {
    forall x | x in projects ensures Shown(x, "", "Todos", "all") {
      ContainsEmpty(Lower(x.title));
    }
    FilterAll(projects, ShownTest("", "Todos", "all"));
  }

  /** Case does not matter to the search. */
  lemma SearchIgnoresCase(p: Project, term: string)
    ensures MatchesSearch(p, term) == MatchesSearch(p, Lower(term))
  {
    LowerIdempotent(term);
  }

  /** The headline numbers above the list. */
  datatype ProjectCounts = ProjectCounts(active: nat, total: nat, delayed: nat, shown: nat)

  function HasStatus(status: string): Project -> bool {
    (p: Project) => p.status == Some(status)
  }

  /**
   * Active ('in_progress') and delayed projects are counted over every
   * project, whatever the filters; the shown count is the filtered length.
   */
  function Counts(projects: seq<Project>, term: string, category: string, status: string): (c: ProjectCounts)
    ensures c.active == Count(projects, HasStatus("in_progress"))
    ensures c.delayed == Count(projects, HasStatus("delayed"))
    ensures c.active + c.delayed <= c.total && c.shown <= c.total
    ensures c.total == |projects|
    ensures c.shown == |FilteredProjects(projects, term, category, status)|
  {
    ActiveAndDelayedDisjoint(projects);
    ProjectCounts(
      Count(projects, HasStatus("in_progress")), |projects|,
      Count(projects, HasStatus("delayed")),
      |FilteredProjects(projects, term, category, status)|)
  }

  /** No project is both active and delayed, so the two counts together never exceed the total. */
  lemma ActiveAndDelayedDisjoint(projects: seq<Project>)
    ensures Count(projects, HasStatus("in_progress")) + Count(projects, HasStatus("delayed")) <= |projects|
  {
    CountDisjoint(projects, HasStatus("in_progress"), HasStatus("delayed"));
  }

  /** Filtering by 'in_progress', with no other filter, shows exactly the active count. */
  lemma ActiveFilterShowsActive(projects: seq<Project>)
    ensures |FilteredProjects(projects, "", "Todos", "in_progress")| == Count(projects, HasStatus("in_progress"))
  {
    forall i | 0 <= i < |projects| ensures Shown(projects[i], "", "Todos", "in_progress") == HasStatus("in_progress")(projects[i]) {
      ContainsEmpty(Lower(projects[i].title));
    }
    FilterCongruent(projects, ShownTest("", "Todos", "in_progress"), HasStatus("in_progress"));
  }
}
