/**
 * The single-document store: one resume, the chosen template and one complete
 * style record. Each reducer is a method on the store.
 */
module ResumeSlice {
  import opened ResumeTypes
  import opened SectionList
  import opened StyleSettings

  /**
   * The resume the store starts with: four sections and a skills list.
   * Long texts are written as short concatenated pieces.
   */
  function DefaultResume(): (r: Resume)
    ensures r.name == "Ravi Patel" && r.title == "Frontend Developer" && r.contact.Some?
    ensures Ids(r.sections) == ["summary", "experience", "education", "projects"]
    ensures UniqueIds(r.sections) && r.skills == Some(["Java", "Node.js", "Website Development"])
  {
    Resume(
      "Ravi Patel",
      "Frontend Developer",
      Some(Contact(Some("ravi.patel@email.com"), Some("+1 (555) 123-4567"),
                   Some("San Francisco, CA"), Some("linkedin.com/in/ravipatel"))),
      [
        Section("summary", "Professional Summary",
          "Passionate frontend "
          + "developer with 3+ years "
          + "of experience building "
          + "responsive web "
          + "applications using "
          + "React, Next.js, and "
          + "TypeScript. Proven track "
          + "record of delivering "
          + "high-quality, "
          + "user-focused solutions "
          + "in fast-paced "
          + "environments."),
        Section("experience", "Experience",
          "Frontend Developer "
          + "Intern at Unschool "
          + "Technologies (Jan 2023 - "
          + "Present). Built "
          + "responsive web "
          + "applications using "
          + "React.js and Next.js. "
          + "Collaborated with design "
          + "team to implement "
          + "pixel-perfect UI "
          + "components. Optimized "
          + "application performance, "
          + "reducing load times by "
          + "40%."),
        Section("education", "Education",
          "B.Tech in Computer "
          + "Science from Indian "
          + "Institute of Technology "
          + "(2020 - 2024). CGPA: "
          + "8.5/10"),
        Section("projects", "Projects",
          "Resume Builder App - "
          + "Next.js, TypeScript, "
          + "Tailwind CSS. "
          + "Interactive resume "
          + "builder with multiple "
          + "templates and PDF export "
          + "functionality. Customer "
          + "Analytics Dashboard - "
          + "React, Chart.js, "
          + "PostgreSQL. Data "
          + "visualization dashboard "
          + "for tracking customer "
          + "metrics and KPIs.")
      ],
      Some(["Java", "Node.js", "Website Development"]))
  }

  class ResumeStore {
    var resume: Resume
    var currentTemplate: string
    var styles: Styles

    /** The style record always sets every key. */
    ghost predicate Valid()
      reads this
    {
      styles.Keys == AllKeys
    }

    /** `initialState`: `DefaultResume()`, the classic template and the default styles. */
    constructor ()
      ensures Valid() && Complete(styles)
      ensures resume == DefaultResume() && currentTemplate == "classic" && styles == DefaultStyles()
    {
      resume := DefaultResume();
      currentTemplate := "classic";
      styles := DefaultStyles();
    }

    /** `updateResume`: replaces the whole resume. */
    method UpdateResume(r: Resume)
      requires Valid()
      modifies this
      ensures Valid()
      ensures resume == r && currentTemplate == old(currentTemplate) && styles == old(styles)
    {
      resume := r;
    }

    /** `deleteSection`: every section with the id leaves the list; an absent id changes nothing. */
    method DeleteSection(id: string)
      requires Valid()
      modifies this
      ensures Valid()
      ensures resume == old(resume).(sections := Without(old(resume).sections, id))
      ensures !Has(old(resume).sections, id) ==> resume == old(resume)
      ensures currentTemplate == old(currentTemplate) && styles == old(styles)
    {
      resume := resume.(sections := Without(resume.sections, id));
    }

    /** `duplicateSection`: splices a copy named `<id>-<now>` in after the section; absent id: no-op. */
    method DuplicateSection(id: string, now: nat)
      requires Valid()
      modifies this
      ensures Valid()
      ensures resume == old(resume).(sections := Duplicated(old(resume).sections, id, now))
      ensures currentTemplate == old(currentTemplate) && styles == old(styles)
    {
      var index := IndexOf(resume.sections, id);
      if index >= 0 {
        var section := resume.sections[index];
        var newSection := section.(id := CopyId(section.id, now));
        var sections := resume.sections[..index + 1] + [newSection] + resume.sections[index + 1..];
        resume := resume.(sections := sections);
      }
    }

    /** `setSkills`: replaces the skills list wholesale. */
    method SetSkills(skills: seq<string>)
      requires Valid()
      modifies this
      ensures Valid()
      ensures resume == old(resume).(skills := Some(skills))
      ensures currentTemplate == old(currentTemplate) && styles == old(styles)
    {
      resume := resume.(skills := Some(skills));
    }

    /** `updateContact`: writes one field, only when the resume has a contact record. */
    method UpdateContact(field: ContactField, value: string)
      requires Valid()
      modifies this
      ensures Valid()
      ensures resume == if old(resume).contact.Some?
        then old(resume).(contact := Some(WithContact(old(resume).contact.value, field, value)))
        else old(resume)
      ensures currentTemplate == old(currentTemplate) && styles == old(styles)
    {
      if resume.contact.Some? {
        resume := resume.(contact := Some(WithContact(resume.contact.value, field, value)));
      }
    }

    /** `updateSection`: sets one field of the first section with the id; absent id: no-op. */
    method UpdateSection(id: string, field: SectionField, value: string)
      requires Valid()
      modifies this
      ensures Valid()
      ensures resume == old(resume).(sections := WithSectionField(old(resume).sections, id, field, value))
      ensures currentTemplate == old(currentTemplate) && styles == old(styles)
    {
      var index := IndexOf(resume.sections, id);
      if index >= 0 {
        var section := resume.sections[index];
        resume := resume.(sections := resume.sections[index := WithField(section, field, value)]);
      }
    }

    /** `setTemplate`: only the template changes. */
    method SetTemplate(template: string)
      requires Valid()
      modifies this
      ensures Valid()
      ensures currentTemplate == template && resume == old(resume) && styles == old(styles)
    {
      currentTemplate := template;
    }

    /** `updateStyles`: merges a partial record; keys it does not name keep their value. */
    method UpdateStyles(patch: Styles)
      requires Valid()
      modifies this
      ensures Valid()
      ensures styles == Merge(old(styles), patch)
      ensures resume == old(resume) && currentTemplate == old(currentTemplate)
    {
      MergeKeepsAllKeys(styles, patch);
      styles := Merge(styles, patch);
    }

    /** `updateSingleStyle`: sets exactly one key to any value, with no kind or range check. */
    method UpdateSingleStyle(key: StyleKey, value: StyleValue)
      requires Valid()
      modifies this
      ensures Valid()
      ensures styles == SetStyle(old(styles), key, value)
      ensures resume == old(resume) && currentTemplate == old(currentTemplate)
    {
      SetStyleKeepsAllKeys(styles, key, value);
      styles := SetStyle(styles, key, value);
    }

    /** `resetStyles`: the styles become the defaults; resume and template are untouched. */
    method ResetStyles()
      requires Valid()
      modifies this
      ensures Valid() && Complete(styles)
      ensures styles == DefaultStyles()
      ensures resume == old(resume) && currentTemplate == old(currentTemplate)
    {
      styles := DefaultStyles();
    }
  }
}
