/** The project record the grid, the navigation and the modal share, and the
    JavaScript truthiness tests the components apply to its optional fields. */
module Projects {

  import opened Wrappers

  /** The fixed enumeration of category tags a project may carry. */
  datatype Category = Director | Producer | Narrative | Commercial

  /** The string literal each category is written as in the catalog and in URLs. */
  function CategoryName(c: Category): string {
    match c
    case Director => "director"
    case Producer => "producer"
    case Narrative => "narrative"
    case Commercial => "commercial"
  }

  /** All categories, in the order the navigation shows their filter buttons. */
  const AllCategories: seq<Category> := [Director, Producer, Narrative, Commercial]

  /** A catalog entry. Only the fields some rule reads are kept: the title,
      role and subtitle are carried for the modal's text, the thumbnail is
      left out. `role` holds the catalog's `type` field (the role label shown
      under the title). */
  datatype Project = Project(
    id: string,
    title: string,
    role: string,
    subtitle: string,
    categories: Option<seq<Category>>,
    vimeoId: Option<string>,
    vimeoHash: Option<string>)

  /** A `string | null | undefined` value is truthy iff it is present and non-empty. */
  predicate Truthy(s: Option<string>) {
    s.Some? && s.value != ""
  }

  /** `project.vimeoId` is truthy: the project has a playable video. */
  predicate HasVideo(p: Project) {
    Truthy(p.vimeoId)
  }

  function VideoId(p: Project): (id: string)
    requires HasVideo(p)
    ensures id != ""
  {
    p.vimeoId.value
  }

  /** The category written `tag`, if any. */
  function CategoryOfName(tag: string): (r: Option<Category>)
    ensures r.Some? ==> CategoryName(r.value) == tag
  {
    if tag == "director" then Some(Director)
    else if tag == "producer" then Some(Producer)
    else if tag == "narrative" then Some(Narrative)
    else if tag == "commercial" then Some(Commercial)
    else None
  }

  /** `project.categories?.includes(tag)`: the categories are present and one of
      them is written `tag`. */
  predicate InCategory(p: Project, tag: string)
    ensures p.categories.None? ==> !InCategory(p, tag)
    ensures InCategory(p, tag) ==> exists c :: c in p.categories.value && CategoryName(c) == tag
  {
    p.categories.Some? && CategoryOfName(tag).Some? && CategoryOfName(tag).value in p.categories.value
  }

  /** `includes` compares names: a project is in category `tag` iff one of its
      categories is written `tag`. */
  lemma InCategoryIsIncludes(p: Project, tag: string)
    ensures InCategory(p, tag) <==>
            p.categories.Some? && exists c :: c in p.categories.value && CategoryName(c) == tag
  {
  }

  /** Every category is found again from its name; no other string names one. */
  lemma CategoryOfNameInverse(c: Category, tag: string)
    ensures CategoryOfName(CategoryName(c)) == Some(c)
    ensures CategoryOfName(tag).Some? <==> tag in {"director", "producer", "narrative", "commercial"}
  {
  }
}
