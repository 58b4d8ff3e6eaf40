/** The résumé aggregate that the editor replaces wholesale and both views
    render: one value, with an ordered list per section. */
module Resume {

  datatype PersonalInfo = PersonalInfo(
    fullName: string,
    email: string,
    phone: string,
    linkedin: string,
    github: string,
    portfolioUrl: string,
    location: string,
    /** Free text; may carry `**bold**` markup. */
    summary: string)

  datatype ExperienceItem = ExperienceItem(
    /** Identity of the list item in the UI only. */
    id: string,
    company: string,
    role: string,
    location: string,
    startDate: string,
    endDate: string,
    current: bool,
    /** One bullet (or `**heading**`) per line. */
    description: string)

  datatype ProjectItem = ProjectItem(
    id: string,
    name: string,
    /** Comma-separated. */
    techStack: string,
    link: string,
    startDate: string,
    endDate: string,
    description: string)

  datatype EducationItem = EducationItem(
    id: string,
    institution: string,
    degree: string,
    year: string)

  datatype ResumeData = ResumeData(
    personalInfo: PersonalInfo,
    experience: seq<ExperienceItem>,
    projects: seq<ProjectItem>,
    education: seq<EducationItem>,
    skills: seq<string>,
    certifications: seq<string>)
}
