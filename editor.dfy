/** The résumé editor. Every edit builds the next `ResumeData` from the
    current one and publishes it through `onChange`. The editor itself keeps
    which accordion section is open and whether a text-service request is in
    flight. The text service is a function parameter. */
module Editor {
  import opened Optional
  import opened Resume
  import Strings

  // ---------------------------------------------------------------------
  // Personal info: `updateField('personalInfo', field, value)`.
  // ---------------------------------------------------------------------

  datatype PersonalField =
    FullName | Email | Phone | Linkedin | Github | PortfolioUrl | Location | Summary

  function PersonalValue(p: PersonalInfo, f: PersonalField): string
  {
    match f
    case FullName => p.fullName
    case Email => p.email
    case Phone => p.phone
    case Linkedin => p.linkedin
    case Github => p.github
    case PortfolioUrl => p.portfolioUrl
    case Location => p.location
    case Summary => p.summary
  }

  /** Two personal-info records with the same value in every field are equal,
      so the frame conditions below pin down the whole record. */
  lemma PersonalValuesDetermine(p: PersonalInfo, q: PersonalInfo)
    requires forall f :: PersonalValue(p, f) == PersonalValue(q, f)
    ensures p == q
  {
    assert PersonalValue(p, FullName) == PersonalValue(q, FullName);
    assert PersonalValue(p, Email) == PersonalValue(q, Email);
    assert PersonalValue(p, Phone) == PersonalValue(q, Phone);
    assert PersonalValue(p, Linkedin) == PersonalValue(q, Linkedin);
    assert PersonalValue(p, Github) == PersonalValue(q, Github);
    assert PersonalValue(p, PortfolioUrl) == PersonalValue(q, PortfolioUrl);
    assert PersonalValue(p, Location) == PersonalValue(q, Location);
    assert PersonalValue(p, Summary) == PersonalValue(q, Summary);
  }

  /** `{...data, personalInfo: {...data.personalInfo, [field]: value}}`: the
      named field takes the value; every other field and section is kept. */
  function UpdateField(d: ResumeData, f: PersonalField, v: string): (r: ResumeData)
    ensures PersonalValue(r.personalInfo, f) == v
    ensures forall g :: g != f ==> PersonalValue(r.personalInfo, g) == PersonalValue(d.personalInfo, g)
    ensures r.experience == d.experience && r.projects == d.projects
    ensures r.education == d.education
    ensures r.skills == d.skills && r.certifications == d.certifications
  {
    var p := d.personalInfo;
    var p' := match f
      case FullName => p.(fullName := v)
      case Email => p.(email := v)
      case Phone => p.(phone := v)
      case Linkedin => p.(linkedin := v)
      case Github => p.(github := v)
      case PortfolioUrl => p.(portfolioUrl := v)
      case Location => p.(location := v)
      case Summary => p.(summary := v);
    d.(personalInfo := p')
  }

  /** Writing back the value a field already has changes nothing. */
  lemma UpdateFieldSameValue(d: ResumeData, f: PersonalField)
    ensures UpdateField(d, f, PersonalValue(d.personalInfo, f)) == d
  {
    var r := UpdateField(d, f, PersonalValue(d.personalInfo, f));
    PersonalValuesDetermine(r.personalInfo, d.personalInfo);
  }

  // ---------------------------------------------------------------------
  // The three item lists: delete, edit one field of one item, append.
  // ---------------------------------------------------------------------

  datatype ListSection = ExperienceList | ProjectList | EducationList

  /** `splice(i, 1)` on a copy: the item at `i` goes, later items move down
      one place; an index past the end removes nothing. */
  function RemoveAt<T>(s: seq<T>, i: nat): (r: seq<T>)
    ensures i < |s| ==> |r| == |s| - 1
    ensures forall j :: 0 <= j < i && j < |r| && j < |s| ==> r[j] == s[j]
    ensures i < |s| ==> forall j :: i <= j < |r| ==> r[j] == s[j + 1]
    ensures i < |s| ==> multiset(r) + multiset{s[i]} == multiset(s)
    ensures i >= |s| ==> r == s
  {
    if i < |s| then
      assert s == s[..i] + [s[i]] + s[i + 1..];
      s[..i] + s[i + 1..]
    else s
  }

  /** Deleting the item an append just added gives the list back. */
  lemma RemoveAppended<T>(s: seq<T>, x: T)
    ensures RemoveAt(s + [x], |s|) == s
  {
  }

  /** The delete button of item `i` of a list. */
  function DeleteItem(d: ResumeData, section: ListSection, i: nat): (r: ResumeData)
    ensures r.experience == if section == ExperienceList then RemoveAt(d.experience, i) else d.experience
    ensures r.projects == if section == ProjectList then RemoveAt(d.projects, i) else d.projects
    ensures r.education == if section == EducationList then RemoveAt(d.education, i) else d.education
    ensures r.personalInfo == d.personalInfo
    ensures r.skills == d.skills && r.certifications == d.certifications
  {
    match section
    case ExperienceList => d.(experience := RemoveAt(d.experience, i))
    case ProjectList => d.(projects := RemoveAt(d.projects, i))
    case EducationList => d.(education := RemoveAt(d.education, i))
  }

  /** The entries `addItem` appends: the new id, every text field empty and,
      for an experience, not current. */
  function BlankExperience(id: string): (e: ExperienceItem)
    ensures e.id == id && !e.current
    ensures e.company == e.role == e.location == e.startDate == e.endDate == e.description == ""
  {
    ExperienceItem(id, "", "", "", "", "", false, "")
  }

  function BlankProject(id: string): (p: ProjectItem)
    ensures p.id == id
    ensures p.name == p.techStack == p.link == p.startDate == p.endDate == p.description == ""
  {
    ProjectItem(id, "", "", "", "", "", "")
  }

  function BlankEducation(id: string): (e: EducationItem)
    ensures e.id == id && e.institution == e.degree == e.year == ""
  {
    EducationItem(id, "", "", "")
  }

  function SectionLength(d: ResumeData, section: ListSection): nat
  {
    match section
    case ExperienceList => |d.experience|
    case ProjectList => |d.projects|
    case EducationList => |d.education|
  }

  /** The "Add" button: one item with every text field empty (and, for
      experience, `current` false) goes after the existing ones, which are
      kept; `id` stands for `Date.now().toString()`. */
  function AddItem(d: ResumeData, section: ListSection, id: string): (r: ResumeData)
    ensures SectionLength(r, section) == SectionLength(d, section) + 1
    ensures section == ExperienceList ==>
      r.experience[..|d.experience|] == d.experience
      && var e := r.experience[|d.experience|];
         e.id == id && !e.current && e.company == e.role == e.location == e.startDate == e.endDate == e.description == ""
    ensures section == ProjectList ==>
      r.projects[..|d.projects|] == d.projects
      && var p := r.projects[|d.projects|];
         p.id == id && p.name == p.techStack == p.link == p.startDate == p.endDate == p.description == ""
    ensures section == EducationList ==>
      r.education[..|d.education|] == d.education
      && var e := r.education[|d.education|];
         e.id == id && e.institution == e.degree == e.year == ""
    ensures section != ExperienceList ==> r.experience == d.experience
    ensures section != ProjectList ==> r.projects == d.projects
    ensures section != EducationList ==> r.education == d.education
    ensures r.personalInfo == d.personalInfo
    ensures r.skills == d.skills && r.certifications == d.certifications
  {
    match section
    case ExperienceList => d.(experience := d.experience + [BlankExperience(id)])
    case ProjectList => d.(projects := d.projects + [BlankProject(id)])
    case EducationList => d.(education := d.education + [BlankEducation(id)])
  }

  /** Deleting the last item right after adding it restores the résumé. */
  lemma DeleteUndoesAdd(d: ResumeData, section: ListSection, id: string)
    ensures DeleteItem(AddItem(d, section, id), section, SectionLength(d, section)) == d
  {
    match section
    case ExperienceList => RemoveAppended(d.experience, BlankExperience(id));
    case ProjectList => RemoveAppended(d.projects, BlankProject(id));
    case EducationList => RemoveAppended(d.education, BlankEducation(id));
  }

  datatype ExperienceField = Company | Role | StartDate | EndDate | Description

  function ExperienceText(e: ExperienceItem, f: ExperienceField): string
  {
    match f
    case Company => e.company
    case Role => e.role
    case StartDate => e.startDate
    case EndDate => e.endDate
    case Description => e.description
  }

  /** An input of an experience card: a text field, or the "Current" box. */
  datatype ExperienceEdit = SetText(field: ExperienceField, value: string) | SetCurrent(current: bool)

  /** `newExp[index].<field> = value`: that field changes and nothing else. */
  function ApplyExperienceEdit(e: ExperienceItem, edit: ExperienceEdit): (r: ExperienceItem)
    ensures r.id == e.id && r.location == e.location
    ensures edit.SetText? ==> ExperienceText(r, edit.field) == edit.value && r.current == e.current
    ensures edit.SetText? ==> forall g :: g != edit.field ==> ExperienceText(r, g) == ExperienceText(e, g)
    ensures edit.SetCurrent? ==> r == e.(current := edit.current)
  {
    match edit
    case SetCurrent(b) => e.(current := b)
    case SetText(f, v) =>
      match f
      case Company => e.(company := v)
      case Role => e.(role := v)
      case StartDate => e.(startDate := v)
      case EndDate => e.(endDate := v)
      case Description => e.(description := v)
  }

  datatype ProjectField = Name | TechStack | ProjectStart | ProjectEnd | Link | ProjectDescription

  function ProjectText(p: ProjectItem, f: ProjectField): string
  {
    match f
    case Name => p.name
    case TechStack => p.techStack
    case ProjectStart => p.startDate
    case ProjectEnd => p.endDate
    case Link => p.link
    case ProjectDescription => p.description
  }

  function ApplyProjectEdit(p: ProjectItem, f: ProjectField, v: string): (r: ProjectItem)
    ensures r.id == p.id && ProjectText(r, f) == v
    ensures forall g :: g != f ==> ProjectText(r, g) == ProjectText(p, g)
  {
    match f
    case Name => p.(name := v)
    case TechStack => p.(techStack := v)
    case ProjectStart => p.(startDate := v)
    case ProjectEnd => p.(endDate := v)
    case Link => p.(link := v)
    case ProjectDescription => p.(description := v)
  }

  datatype EducationField = Institution | Degree | Year

  function EducationText(e: EducationItem, f: EducationField): string
  {
    match f
    case Institution => e.institution
    case Degree => e.degree
    case Year => e.year
  }

  function ApplyEducationEdit(e: EducationItem, f: EducationField, v: string): (r: EducationItem)
    ensures r.id == e.id && EducationText(r, f) == v
    ensures forall g :: g != f ==> EducationText(r, g) == EducationText(e, g)
  {
    match f
    case Institution => e.(institution := v)
    case Degree => e.(degree := v)
    case Year => e.(year := v)
  }

  /** Replace item `i` of a list, keeping the length and every other item. */
  function UpdateAt<T>(s: seq<T>, i: nat, x: T): (r: seq<T>)
    requires i < |s|
    ensures |r| == |s| && r[i] == x
    ensures forall j :: 0 <= j < |s| && j != i ==> r[j] == s[j]
  {
    s[i := x]
  }

  /** An input of experience card `i`. */
  function EditExperience(d: ResumeData, i: nat, edit: ExperienceEdit): (r: ResumeData)
    requires i < |d.experience|
    ensures r.experience == UpdateAt(d.experience, i, ApplyExperienceEdit(d.experience[i], edit))
    ensures r.personalInfo == d.personalInfo && r.projects == d.projects
    ensures r.education == d.education
    ensures r.skills == d.skills && r.certifications == d.certifications
  {
    d.(experience := UpdateAt(d.experience, i, ApplyExperienceEdit(d.experience[i], edit)))
  }

  /** An input of project card `i`. */
  function EditProject(d: ResumeData, i: nat, f: ProjectField, v: string): (r: ResumeData)
    requires i < |d.projects|
    ensures r.projects == UpdateAt(d.projects, i, ApplyProjectEdit(d.projects[i], f, v))
    ensures r.personalInfo == d.personalInfo && r.experience == d.experience
    ensures r.education == d.education
    ensures r.skills == d.skills && r.certifications == d.certifications
  {
    d.(projects := UpdateAt(d.projects, i, ApplyProjectEdit(d.projects[i], f, v)))
  }

  /** An input of education card `i`. */
  function EditEducation(d: ResumeData, i: nat, f: EducationField, v: string): (r: ResumeData)
    requires i < |d.education|
    ensures r.education == UpdateAt(d.education, i, ApplyEducationEdit(d.education[i], f, v))
    ensures r.personalInfo == d.personalInfo && r.experience == d.experience
    ensures r.projects == d.projects
    ensures r.skills == d.skills && r.certifications == d.certifications
  {
    d.(education := UpdateAt(d.education, i, ApplyEducationEdit(d.education[i], f, v)))
  }

  // ---------------------------------------------------------------------
  // The text service: rewriting and the career-gap bridge.
  // ---------------------------------------------------------------------

  datatype TextKind = SummaryText | BulletText

  /** "AI Optimize" on the summary: the summary becomes the service's answer. */
  function OptimizeSummary(d: ResumeData, rewrite: (string, TextKind) -> string): (r: ResumeData)
    ensures r.personalInfo.summary == rewrite(d.personalInfo.summary, SummaryText)
    ensures r == UpdateField(d, Summary, r.personalInfo.summary)
  {
    UpdateField(d, Summary, rewrite(d.personalInfo.summary, SummaryText))
  }

  /** "Improve" on experience card `i`: its description becomes the answer. */
  function OptimizeBullet(d: ResumeData, i: nat, rewrite: (string, TextKind) -> string): (r: ResumeData)
    requires i < |d.experience|
    ensures |r.experience| == |d.experience|
    ensures r.experience[i].description == rewrite(d.experience[i].description, BulletText)
    ensures r == EditExperience(d, i, SetText(Description, r.experience[i].description))
  {
    EditExperience(d, i, SetText(Description, rewrite(d.experience[i].description, BulletText)))
  }

  /** One line per project: `name (techStack): description`. */
  function ProjectSummary(p: ProjectItem): (s: string)
    ensures |s| >= |p.name| + |p.techStack| + |p.description| + 5
  {
    p.name + " (" + p.techStack + "): " + p.description
  }

  /** The project lines joined with newlines; empty exactly when there are
      no projects, since every line holds at least ` (): `. */
  function ProjectSummaries(ps: seq<ProjectItem>): (s: string)
    ensures s == "" <==> ps == []
  {
    var lines := seq(|ps|, i requires 0 <= i < |ps| => ProjectSummary(ps[i]));
    assert ps != [] ==> lines[0] <= Strings.Join(lines, "\n") && |lines[0]| > 0;
    Strings.Join(lines, "\n")
  }

  /** The entry the gap bridge prepends. */
  function BridgeEntry(id: string, bullets: string): (e: ExperienceItem)
    ensures e.id == id && e.description == bullets
    ensures e.current && e.startDate == "2024-06" && e.endDate == "Present"
    ensures e.company == "Independent Engineering Initiative"
    ensures e.role == "Freelance Full Stack Engineer" && e.location == "Remote"
  {
    ExperienceItem(id, "Independent Engineering Initiative", "Freelance Full Stack Engineer",
                   "Remote", "2024-06", "Present", true, bullets)
  }

  /** `handleGapBridge`: with no projects it aborts (None) and the résumé is
      left as it is; otherwise the service turns the project lines into
      bullets and one freelance entry carrying them goes in front of the
      experience list, which follows unchanged. */
  function GapBridge(d: ResumeData, id: string, bridge: string -> string): (r: Option<ResumeData>)
    ensures r.None? <==> d.projects == []
    ensures r.Some? ==>
      && |r.value.experience| == |d.experience| + 1
      && r.value.experience[1..] == d.experience
      && var e := r.value.experience[0];
         && e.id == id && e.current && e.startDate == "2024-06" && e.endDate == "Present"
         && e.company == "Independent Engineering Initiative"
         && e.role == "Freelance Full Stack Engineer" && e.location == "Remote"
         && e.description == bridge(ProjectSummaries(d.projects))
    ensures r.Some? ==>
      && r.value.personalInfo == d.personalInfo && r.value.projects == d.projects
      && r.value.education == d.education
      && r.value.skills == d.skills && r.value.certifications == d.certifications
  {
    var summaries := ProjectSummaries(d.projects);
    if summaries == "" then None
    else Some(d.(experience := [BridgeEntry(id, bridge(summaries))] + d.experience))
  }

  // ---------------------------------------------------------------------
  // Skills and certifications: one line per entry in a textarea.
  // ---------------------------------------------------------------------

  /** `xs.join('\n')`, the textarea's value. */
  function LinesText(xs: seq<string>): (text: string)
    ensures xs == [] ==> text == ""
    ensures |xs| == 1 ==> text == xs[0]
    ensures |xs| >= 1 ==> xs[0] <= text
    ensures |xs| >= 2 ==> xs[0] + "\n" <= text
  {
    assert |xs| >= 2 ==> Strings.Join(xs, "\n") == xs[0] + "\n" + Strings.Join(xs[1..], "\n");
    Strings.Join(xs, "\n")
  }

  /** `value.split('\n')`, what typing into the textarea stores. */
  function TextLines(text: string): (xs: seq<string>)
    ensures |xs| >= 1 && forall i :: 0 <= i < |xs| ==> '\n' !in xs[i]
  {
    Strings.Split(text, '\n')
  }

  /** Whatever is typed is shown back unchanged. */
  lemma TextShownBack(text: string)
    ensures LinesText(TextLines(text)) == text
  {
    Strings.JoinSplit(text, '\n');
  }

  /** A non-empty list of single-line entries survives a trip through the
      textarea; the empty list comes back as one empty entry. */
  lemma ListSurvivesTextarea(xs: seq<string>)
    requires |xs| >= 1 && forall i :: 0 <= i < |xs| ==> '\n' !in xs[i]
    ensures TextLines(LinesText(xs)) == xs
  {
    Strings.SplitJoin(xs, '\n');
  }

  // ---------------------------------------------------------------------
  // The accordion.
  // ---------------------------------------------------------------------

  datatype SectionId = Personal | Experience | Projects | Skills | Education | Certifications

  /** A header click: the open section closes, any other opens. */
  function Toggle(active: Option<SectionId>, id: SectionId): (r: Option<SectionId>)
    ensures r == Some(id) <==> active != Some(id)
    ensures r.Some? ==> r.value == id
  {
    if active == Some(id) then None else Some(id)
  }

  // ---------------------------------------------------------------------
  // The editor component.
  // ---------------------------------------------------------------------

  class Editor {
    /** The résumé as last published through `onChange`. */
    var data: ResumeData
    var activeSection: Option<SectionId>
    var loading: bool
    /** Requests made to the text service. */
    ghost var requests: nat

    constructor (d: ResumeData)
      ensures data == d && activeSection == Some(Personal) && !loading && requests == 0
    {
      data := d;
      activeSection := Some(Personal);
      loading := false;
      requests := 0;
    }

    method ClickHeader(id: SectionId)
      modifies this
      ensures activeSection == Toggle(old(activeSection), id)
      ensures data == old(data) && loading == old(loading) && requests == old(requests)
    {
      activeSection := Toggle(activeSection, id);
    }

    method TypePersonal(f: PersonalField, v: string)
      modifies this
      ensures data == UpdateField(old(data), f, v)
      ensures activeSection == old(activeSection) && loading == old(loading) && requests == old(requests)
    {
      data := UpdateField(data, f, v);
    }

    method ClickDelete(section: ListSection, i: nat)
      modifies this
      ensures data == DeleteItem(old(data), section, i)
      ensures activeSection == old(activeSection) && loading == old(loading) && requests == old(requests)
    {
      data := DeleteItem(data, section, i);
    }

    method ClickAdd(section: ListSection, id: string)
      modifies this
      ensures data == AddItem(old(data), section, id)
      ensures activeSection == old(activeSection) && loading == old(loading) && requests == old(requests)
    {
      data := AddItem(data, section, id);
    }

    /** The end-date input is disabled while "Current" is ticked. */
    method TypeExperience(i: nat, edit: ExperienceEdit)
      requires i < |data.experience|
      requires edit.SetText? && edit.field == EndDate ==> !data.experience[i].current
      modifies this
      ensures data == EditExperience(old(data), i, edit)
      ensures activeSection == old(activeSection) && loading == old(loading) && requests == old(requests)
    {
      data := EditExperience(data, i, edit);
    }

    method TypeProject(i: nat, f: ProjectField, v: string)
      requires i < |data.projects|
      modifies this
      ensures data == EditProject(old(data), i, f, v)
      ensures activeSection == old(activeSection) && loading == old(loading) && requests == old(requests)
    {
      data := EditProject(data, i, f, v);
    }

    method TypeEducation(i: nat, f: EducationField, v: string)
      requires i < |data.education|
      modifies this
      ensures data == EditEducation(old(data), i, f, v)
      ensures activeSection == old(activeSection) && loading == old(loading) && requests == old(requests)
    {
      data := EditEducation(data, i, f, v);
    }

    method TypeSkills(text: string)
      modifies this
      ensures data == old(data).(skills := TextLines(text))
      ensures activeSection == old(activeSection) && loading == old(loading) && requests == old(requests)
    {
      data := data.(skills := TextLines(text));
    }

    method TypeCertifications(text: string)
      modifies this
      ensures data == old(data).(certifications := TextLines(text))
      ensures activeSection == old(activeSection) && loading == old(loading) && requests == old(requests)
    {
      data := data.(certifications := TextLines(text));
    }

    /** The buttons that call the service are disabled while `loading`. */
    method ClickOptimizeSummary(rewrite: (string, TextKind) -> string)
      requires !loading
      modifies this
      ensures data == OptimizeSummary(old(data), rewrite)
      ensures !loading && requests == old(requests) + 1 && activeSection == old(activeSection)
    {
      loading := true;
      requests := requests + 1;
      data := OptimizeSummary(data, rewrite);
      loading := false;
    }

    method ClickImprove(i: nat, rewrite: (string, TextKind) -> string)
      requires !loading && i < |data.experience|
      modifies this
      ensures data == OptimizeBullet(old(data), i, rewrite)
      ensures !loading && requests == old(requests) + 1 && activeSection == old(activeSection)
    {
      loading := true;
      requests := requests + 1;
      data := OptimizeBullet(data, i, rewrite);
      loading := false;
    }

    /** `alerted` is the "Add some projects first" notice: then no request is
        made and the résumé is kept. */
    method ClickGapBridge(id: string, bridge: string -> string) returns (alerted: bool)
      requires !loading
      modifies this
      ensures alerted <==> old(data).projects == []
      ensures alerted ==> data == old(data) && requests == old(requests)
      ensures !alerted ==> GapBridge(old(data), id, bridge) == Some(data) && requests == old(requests) + 1
      ensures !loading && activeSection == old(activeSection)
    {
      loading := true;
      var summaries := ProjectSummaries(data.projects);
      if summaries == "" {
        alerted := true;
        loading := false;
        return;
      }
      alerted := false;
      requests := requests + 1;
      var bullets := bridge(summaries);
      data := data.(experience := [BridgeEntry(id, bullets)] + data.experience);
      loading := false;
    }
  }
}
