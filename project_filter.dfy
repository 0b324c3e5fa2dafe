/** `ProjectFilter`: a row of technology buttons; choosing one marks it active
    and hands the matching projects to the page through `onFilter`. */
module ProjectFilter {
  import opened Seqs

  datatype Project = Project(
    slug: string,
    title: string,
    description: string,
    image: string,
    technologies: seq<string>,
    liveUrl: string)

  /** The tag that bypasses filtering. */
  const AllTag: string := "All"

  /** The filter buttons, in display order (`allTechs`). */
  const AllTechs: seq<string> := [
    "All", "React", "TypeScript", "Next.js", "Tailwind", "Node.js", "MongoDB",
    "Express", "Redux", "Styled Components", "Firebase", "Tilda", "JavaScript",
    "CSS3", "HTML5"]

  /** `p => p.technologies.includes(tech)` */
  function UsesTech(tech: string): Project -> bool
  {
    (p: Project) => tech in p.technologies
  }

  /** The list `handleFilter(tech)` passes to `onFilter`. */
  function Selection(projects: seq<Project>, tech: string): (r: seq<Project>)
    ensures |r| <= |projects|
    ensures forall p :: p in r ==> p in projects
  {
    if tech == AllTag then projects else Filter(projects, UsesTech(tech))
  }

  /** 'All' passes the list unchanged; any other tag passes exactly the
      projects that use it, each as often as it occurs, in their original
      order. */
  lemma SelectionSpec(projects: seq<Project>, tech: string)
    ensures tech == AllTag ==> Selection(projects, tech) == projects
    ensures tech != AllTag ==>
      forall p :: p in Selection(projects, tech) <==> p in projects && tech in p.technologies
    ensures tech != AllTag ==> forall p ::
      multiset(Selection(projects, tech))[p] == if tech in p.technologies then multiset(projects)[p] else 0
    ensures IsSubsequence(Selection(projects, tech), projects)
  {
    if tech != AllTag {
      forall p
        ensures p in Selection(projects, tech) <==> p in projects && tech in p.technologies
        ensures multiset(Selection(projects, tech))[p] == if tech in p.technologies then multiset(projects)[p] else 0
      {
        FilterMembership(projects, UsesTech(tech), p);
        FilterMultiset(projects, UsesTech(tech), p);
      }
      FilterIsSubsequence(projects, UsesTech(tech));
    } else {
      FilterKeepsAll(projects, _ => true);
      FilterIsSubsequence(projects, _ => true);
    }
  }

  /** Choosing the same tag again on the filtered list changes nothing. */
  lemma SelectionIdempotent(projects: seq<Project>, tech: string)
    ensures Selection(Selection(projects, tech), tech) == Selection(projects, tech)
  {
    if tech != AllTag {
      FilterIdempotent(projects, UsesTech(tech));
    }
  }

  /** The button row starts with 'All' and has no repeated key, so at most
      one button matches `active`. */
  lemma AllTechsTable()
    ensures AllTechs[0] == AllTag
    ensures Distinct(AllTechs)
  {
  }

  /** The component's state: the projects it was given and the active tag. */
  class ProjectFilterView {
    const projects: seq<Project>
    var active: string

    constructor (projects: seq<Project>)
      ensures this.projects == projects && active == AllTag
    {
      this.projects := projects;
      active := AllTag;
    }

    /** `handleFilter(tech)`: returns what is passed to `onFilter`. */
    method HandleFilter(tech: string) returns (emitted: seq<Project>)
      modifies this
      ensures active == tech
      ensures emitted == Selection(projects, tech)
    {
      active := tech;
      if tech == AllTag {
        emitted := projects;
      } else {
        emitted := Filter(projects, UsesTech(tech));
      }
    }
  }
}
