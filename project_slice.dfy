/**
 * The multi-project store: every saved resume by id, the order in which the
 * project list shows them (newest first) and the project being edited.
 * Each reducer is a method on the store; the clock reading is the `now` parameter.
 */
module ProjectSlice {
  import opened ResumeTypes
  import opened SectionList
  import opened StyleSettings

  /**
   * The resume a new project starts from: five sections, the last one holding the
   * skills as text, and no skills list. Long texts are written as short concatenated pieces.
   */
  function DefaultResume(): (r: Resume)
    ensures r.name == "Ravi Patel" && r.title == "Frontend Developer" && r.contact.Some?
    ensures Ids(r.sections) == ["summary", "experience", "education", "projects", "skills"]
    ensures UniqueIds(r.sections) && r.skills.None?
  {
    Resume(
      "Ravi Patel",
      "Frontend Developer",
      Some(Contact(Some("ravi.patel@email.com"), Some("+1 (555) 123-4567"),
                   Some("San Francisco, CA"), Some("linkedin.com/in/ravipatel"))),
      [
        Section("summary", "Professional Summary",
          "Passionate frontend "
          + "developer with 3+ years "
          + "of experience building "
          + "responsive web "
          + "applications using "
          + "React, Next.js, and "
          + "TypeScript. Proven track "
          + "record of delivering "
          + "high-quality, "
          + "user-focused solutions "
          + "in fast-paced "
          + "environments."),
        Section("experience", "Experience",
          "Frontend Developer "
          + "Intern at Unschool "
          + "Technologies (Jan 2023 - "
          + "Present). Built "
          + "responsive web "
          + "applications using "
          + "React.js and Next.js. "
          + "Collaborated with design "
          + "team to implement "
          + "pixel-perfect UI "
          + "components. Optimized "
          + "application performance, "
          + "reducing load times by "
          + "40%."),
        Section("education", "Education",
          "B.Tech in Computer "
          + "Science from Indian "
          + "Institute of Technology "
          + "(2020 - 2024). CGPA: "
          + "8.5/10"),
        Section("projects", "Projects",
          "Resume Builder App - "
          + "Next.js, TypeScript, "
          + "Tailwind CSS. "
          + "Interactive resume "
          + "builder with multiple "
          + "templates and PDF export "
          + "functionality. Customer "
          + "Analytics Dashboard - "
          + "React, Chart.js, "
          + "PostgreSQL. Data "
          + "visualization dashboard "
          + "for tracking customer "
          + "metrics and KPIs."),
        Section("skills", "skills", "Next.js, TypeScript, Tailwind CSS, Website Development")
      ],
      None)
  }

  /** `project-${Date.now()}`. */
  function ProjectId(now: nat): (r: string)
    ensures |r| > 8 && r[..8] == "project-"
  {
    "project-" + DecimalString(now)
  }

  /** Projects created at different clock readings get different ids. */
  lemma ProjectIdInjective(a: nat, b: nat)
    requires ProjectId(a) == ProjectId(b)
    ensures a == b
  {
    assert DecimalString(a) == ProjectId(a)[8..] == ProjectId(b)[8..] == DecimalString(b);
    DecimalStringInjective(a, b);
  }

  /** `name || "Untitled Resume"`: a missing or empty name falls back to the placeholder. */
  function ProjectName(name: Option<string>): (r: string)
    ensures r != ""
    ensures name.Some? && name.value != "" ==> r == name.value
    ensures name.None? || name.value == "" ==> r == "Untitled Resume"
  {
    if name.Some? && name.value != "" then name.value else "Untitled Resume"
  }

  /** `state.projectOrder[0] || null`: an empty list, or an empty first id, gives no current project. */
  function FirstOrNone(order: seq<string>): (r: Option<string>)
    ensures r.Some? <==> |order| > 0 && order[0] != ""
    ensures r.Some? ==> r.value == order[0]
  {
    if |order| > 0 && order[0] != "" then Some(order[0]) else None
  }

  /** The project with its section list replaced and its modification time bumped. */
  function WithSections(p: Project, sections: seq<Section>, now: int): Project {
    p.(resume := p.resume.(sections := sections), updatedAt := now)
  }

  class ProjectStore {
    var projects: map<string, Project>
    var projectOrder: seq<string>
    var currentProjectId: Option<string>

    /**
     * The list shows exactly the stored projects, each project is stored under its
     * own id, and the current project, if any, exists.
     */
    ghost predicate Valid()
      reads this
    {
      && (forall id :: id in projectOrder <==> id in projects)
      && (forall id :: id in projects ==> projects[id].id == id)
      && (currentProjectId.Some? ==> currentProjectId.value in projects)
    }

    /** No project appears twice in the list. */
    ghost predicate DistinctOrder()
      reads this
    {
      Distinct(projectOrder)
    }

    /** `initialState`: no projects and none current. */
    constructor ()
      ensures Valid() && DistinctOrder()
      ensures projects == map[] && projectOrder == [] && currentProjectId == None
    {
      projects := map[];
      projectOrder := [];
      currentProjectId := None;
    }

    /**
     * `createProject`: stores a new project under `project-<now>` with `DefaultResume()`
     * and default styles, puts it at the head of the list and makes it current.
     */
    method CreateProject(template: string, name: Option<string>, now: nat)
      requires Valid()
      modifies this
      ensures Valid()
      ensures var pid := ProjectId(now);
        && projects == old(projects)[pid := Project(pid, ProjectName(name), template, DefaultResume(), DefaultStyles(), now, now)]
        && projectOrder == [pid] + old(projectOrder)
        && currentProjectId == Some(pid)
      ensures projects[ProjectId(now)].createdAt == projects[ProjectId(now)].updatedAt
      ensures old(DistinctOrder()) && ProjectId(now) !in old(projects) ==> DistinctOrder()
    {
      var projectId := ProjectId(now);
      var newProject := Project(projectId, ProjectName(name), template, DefaultResume(), DefaultStyles(), now, now);
      projects := projects[projectId := newProject];
      projectOrder := [projectId] + projectOrder;
      currentProjectId := Some(projectId);
    }

    /** `setCurrentProject`: switches only to a project that exists. */
    method SetCurrentProject(projectId: string)
      requires Valid()
      modifies this
      ensures Valid()
      ensures projects == old(projects) && projectOrder == old(projectOrder)
      ensures currentProjectId == if projectId in projects then Some(projectId) else old(currentProjectId)
    {
      if projectId in projects {
        currentProjectId := Some(projectId);
      }
    }

    /** `updateProjectName`: renames an existing project and bumps its modification time. */
    method UpdateProjectName(projectId: string, name: string, now: int)
      requires Valid()
      modifies this
      ensures Valid()
      ensures projectOrder == old(projectOrder) && currentProjectId == old(currentProjectId)
      ensures projects == if projectId in old(projects)
        then old(projects)[projectId := old(projects)[projectId].(name := name, updatedAt := now)]
        else old(projects)
    {
      if projectId in projects {
        var project := projects[projectId];
        projects := projects[projectId := project.(name := name, updatedAt := now)];
      }
    }

    /** `updateProjectResume`: replaces the whole resume of an existing project. */
    method UpdateProjectResume(projectId: string, resume: Resume, now: int)
      requires Valid()
      modifies this
      ensures Valid()
      ensures projectOrder == old(projectOrder) && currentProjectId == old(currentProjectId)
      ensures projects == if projectId in old(projects)
        then old(projects)[projectId := old(projects)[projectId].(resume := resume, updatedAt := now)]
        else old(projects)
    {
      if projectId in projects {
        var project := projects[projectId];
        projects := projects[projectId := project.(resume := resume, updatedAt := now)];
      }
    }

    /** `updateProjectTemplate`: switches the template of an existing project. */
    method UpdateProjectTemplate(projectId: string, template: string, now: int)
      requires Valid()
      modifies this
      ensures Valid()
      ensures projectOrder == old(projectOrder) && currentProjectId == old(currentProjectId)
      ensures projects == if projectId in old(projects)
        then old(projects)[projectId := old(projects)[projectId].(template := template, updatedAt := now)]
        else old(projects)
    {
      if projectId in projects {
        var project := projects[projectId];
        projects := projects[projectId := project.(template := template, updatedAt := now)];
      }
    }

    /** `updateProjectStyles`: merges a partial style record into the project's styles. */
    method UpdateProjectStyles(projectId: string, styles: Styles, now: int)
      requires Valid()
      modifies this
      ensures Valid()
      ensures projectOrder == old(projectOrder) && currentProjectId == old(currentProjectId)
      ensures projects == if projectId in old(projects)
        then old(projects)[projectId := old(projects)[projectId].(styles := Merge(old(projects)[projectId].styles, styles), updatedAt := now)]
        else old(projects)
    {
      if projectId in projects {
        var project := projects[projectId];
        projects := projects[projectId := project.(styles := project.styles + styles, updatedAt := now)];
      }
    }

    /**
     * `deleteProject`: the id leaves both the map and the list; if it was current, the
     * new head of the list becomes current, or none when the list is empty.
     */
    method DeleteProject(projectId: string)
      requires Valid()
      modifies this
      ensures Valid()
      ensures projects == old(projects) - {projectId}
      ensures projectId !in projectOrder
      ensures projectOrder == FilterOut(old(projectOrder), projectId)
      ensures forall id :: id in projectOrder <==> id in old(projectOrder) && id != projectId
      ensures currentProjectId == if old(currentProjectId) == Some(projectId)
        then FirstOrNone(projectOrder) else old(currentProjectId)
      ensures old(DistinctOrder()) ==> DistinctOrder()
      ensures old(DistinctOrder()) && |old(projectOrder)| > 0 && projectId == old(projectOrder)[0]
        ==> projectOrder == old(projectOrder)[1..]
    {
      if DistinctOrder() {
        FilterOutDistinct(projectOrder, projectId);
        if |projectOrder| > 0 && projectId == projectOrder[0] {
          FilterOutHead(projectOrder);
        }
      }
      projects := projects - {projectId};
      projectOrder := FilterOut(projectOrder, projectId);
      if currentProjectId == Some(projectId) {
        currentProjectId := FirstOrNone(projectOrder);
      }
    }

    /**
     * `deleteSection`: every section with the id leaves the project's list; the
     * modification time is bumped whenever the project exists, even if nothing was removed.
     */
    method DeleteSection(projectId: string, sectionId: string, now: int)
      requires Valid()
      modifies this
      ensures Valid()
      ensures projectOrder == old(projectOrder) && currentProjectId == old(currentProjectId)
      ensures projects == if projectId in old(projects)
        then old(projects)[projectId := WithSections(old(projects)[projectId], Without(old(projects)[projectId].resume.sections, sectionId), now)]
        else old(projects)
    {
      if projectId in projects {
        var project := projects[projectId];
        var sections := Without(project.resume.sections, sectionId);
        projects := projects[projectId := WithSections(project, sections, now)];
      }
    }

    /**
     * `duplicateSection`: a copy named `<id>-<now>` is spliced in after the section;
     * when the project or the section is missing nothing changes, not even the time.
     */
    method DuplicateSection(projectId: string, sectionId: string, now: nat)
      requires Valid()
      modifies this
      ensures Valid()
      ensures projectOrder == old(projectOrder) && currentProjectId == old(currentProjectId)
      ensures projects == if projectId in old(projects) && Has(old(projects)[projectId].resume.sections, sectionId)
        then old(projects)[projectId := WithSections(old(projects)[projectId], Duplicated(old(projects)[projectId].resume.sections, sectionId, now), now)]
        else old(projects)
    {
      if projectId in projects {
        var project := projects[projectId];
        var sections := project.resume.sections;
        var index := IndexOf(sections, sectionId);
        if index >= 0 {
          var section := sections[index];
          var newSection := section.(id := CopyId(section.id, now));
          sections := sections[..index + 1] + [newSection] + sections[index + 1..];
          projects := projects[projectId := WithSections(project, sections, now)];
        }
      }
    }

    /** `updateContact`: writes one contact field, only when the project has a contact record. */
    method UpdateContact(projectId: string, field: ContactField, value: string, now: int)
      requires Valid()
      modifies this
      ensures Valid()
      ensures projectOrder == old(projectOrder) && currentProjectId == old(currentProjectId)
      ensures projects == if projectId in old(projects) && old(projects)[projectId].resume.contact.Some?
        then var p := old(projects)[projectId];
          old(projects)[projectId := p.(resume := p.resume.(contact := Some(WithContact(p.resume.contact.value, field, value))), updatedAt := now)]
        else old(projects)
    {
      if projectId in projects && projects[projectId].resume.contact.Some? {
        var project := projects[projectId];
        var contact := WithContact(project.resume.contact.value, field, value);
        projects := projects[projectId := project.(resume := project.resume.(contact := Some(contact)), updatedAt := now)];
      }
    }

    /** `updateSection`: sets one field of the first section with the id; time bumped only if found. */
    method UpdateSection(projectId: string, id: string, field: SectionField, value: string, now: int)
      requires Valid()
      modifies this
      ensures Valid()
      ensures projectOrder == old(projectOrder) && currentProjectId == old(currentProjectId)
      ensures projects == if projectId in old(projects) && Has(old(projects)[projectId].resume.sections, id)
        then old(projects)[projectId := WithSections(old(projects)[projectId], WithSectionField(old(projects)[projectId].resume.sections, id, field, value), now)]
        else old(projects)
    {
      if projectId in projects {
        var project := projects[projectId];
        var sections := project.resume.sections;
        var index := IndexOf(sections, id);
        if index >= 0 {
          sections := sections[index := WithField(sections[index], field, value)];
          projects := projects[projectId := WithSections(project, sections, now)];
        }
      }
    }

    /** `updateSingleStyle`: stores any value under one key, without a kind or range check. */
    method UpdateSingleStyle(projectId: string, key: StyleKey, value: StyleValue, now: int)
      requires Valid()
      modifies this
      ensures Valid()
      ensures projectOrder == old(projectOrder) && currentProjectId == old(currentProjectId)
      ensures projects == if projectId in old(projects)
        then old(projects)[projectId := old(projects)[projectId].(styles := SetStyle(old(projects)[projectId].styles, key, value), updatedAt := now)]
        else old(projects)
    {
      if projectId in projects {
        var project := projects[projectId];
        projects := projects[projectId := project.(styles := project.styles[key := value], updatedAt := now)];
      }
    }

    /** `resetStyles`: the project's styles become the defaults; its resume is untouched. */
    method ResetStyles(projectId: string, now: int)
      requires Valid()
      modifies this
      ensures Valid()
      ensures projectOrder == old(projectOrder) && currentProjectId == old(currentProjectId)
      ensures projects == if projectId in old(projects)
        then old(projects)[projectId := old(projects)[projectId].(styles := DefaultStyles(), updatedAt := now)]
        else old(projects)
      ensures projectId in projects ==> Complete(projects[projectId].styles)
    {
      if projectId in projects {
        var project := projects[projectId];
        projects := projects[projectId := project.(styles := DefaultStyles(), updatedAt := now)];
      }
    }

    /**
     * `moveSectionUp`: swaps the section with its predecessor through a temporary;
     * at the first position or for a missing id nothing changes, not even the time.
     */
    method MoveSectionUp(projectId: string, sectionId: string, now: int)
      requires Valid()
      modifies this
      ensures Valid()
      ensures projectOrder == old(projectOrder) && currentProjectId == old(currentProjectId)
      ensures projects == if projectId in old(projects) && IndexOf(old(projects)[projectId].resume.sections, sectionId) > 0
        then old(projects)[projectId := WithSections(old(projects)[projectId], MovedUp(old(projects)[projectId].resume.sections, sectionId), now)]
        else old(projects)
    {
      if projectId in projects {
        var project := projects[projectId];
        var sections := project.resume.sections;
        var index := IndexOf(sections, sectionId);
        if index > 0 {
          var temp := sections[index];
          sections := sections[index := sections[index - 1]];
          sections := sections[index - 1 := temp];
          projects := projects[projectId := WithSections(project, sections, now)];
        }
      }
    }

    /**
     * `moveSectionDown`, with the guard the source evidently intends (`0 <= index`):
     * swaps the section with its successor; at the last position or for a missing id
     * nothing changes, not even the time.
     */
    method MoveSectionDown(projectId: string, sectionId: string, now: int)
      requires Valid()
      modifies this
      ensures Valid()
      ensures projectOrder == old(projectOrder) && currentProjectId == old(currentProjectId)
      ensures projects == if projectId in old(projects) && 0 <= IndexOf(old(projects)[projectId].resume.sections, sectionId) < |old(projects)[projectId].resume.sections| - 1
        then old(projects)[projectId := WithSections(old(projects)[projectId], MovedDown(old(projects)[projectId].resume.sections, sectionId), now)]
        else old(projects)
    {
      if projectId in projects {
        var project := projects[projectId];
        var sections := project.resume.sections;
        var index := IndexOf(sections, sectionId);
        if 0 <= index < |sections| - 1 {
          var temp := sections[index];
          sections := sections[index := sections[index + 1]];
          sections := sections[index + 1 := temp];
          projects := projects[projectId := WithSections(project, sections, now)];
        }
      }
    }
  }

  /** `order.filter(id => id !== target)`. */
  function FilterOut(order: seq<string>, target: string): (r: seq<string>)
    ensures forall id :: id in r <==> id in order && id != target
    ensures target !in order ==> r == order
    ensures |r| <= |order|
  {
    if order == [] then []
    else (if order[0] == target then [] else [order[0]]) + FilterOut(order[1..], target)
  }

  /** Filtering works id by id, so the remaining ids keep their relative order. */
  lemma {:induction false} FilterOutAppend(a: seq<string>, b: seq<string>, target: string)
    ensures FilterOut(a + b, target) == FilterOut(a, target) + FilterOut(b, target)
  {
    if a == [] {
      assert a + b == b;
    } else {
      assert (a + b)[1..] == a[1..] + b;
      FilterOutAppend(a[1..], b, target);
    }
  }

  /** Deleting the head of a list without repeats leaves exactly the rest, so its successor becomes the head. */
  lemma FilterOutHead(order: seq<string>)
    requires Distinct(order) && |order| > 0
    ensures FilterOut(order, order[0]) == order[1..]
  {
    assert order == [order[0]] + order[1..];
    FilterOutAppend([order[0]], order[1..], order[0]);
    assert order[0] !in order[1..];
  }

  /** No id occurs twice. */
  predicate Distinct(order: seq<string>) {
    forall i, j :: 0 <= i < j < |order| ==> order[i] != order[j]
  }

  /** Filtering a list without repeats leaves a list without repeats. */
  lemma {:induction false} FilterOutDistinct(order: seq<string>, target: string)
    requires Distinct(order)
    ensures Distinct(FilterOut(order, target))
  {
    if order != [] {
      var rest := FilterOut(order[1..], target);
      FilterOutDistinct(order[1..], target);
      assert order[0] !in order[1..];
      assert order[0] !in rest;
      var r := FilterOut(order, target);
      if order[0] != target {
        assert r == [order[0]] + rest;
        forall i, j | 0 <= i < j < |r| ensures r[i] != r[j] {
          assert r[j] == rest[j - 1];
          if i == 0 {
            assert r[i] == order[0];
            assert rest[j - 1] in rest;
          } else {
            assert r[i] == rest[i - 1];
          }
        }
      } else {
        assert r == rest;
      }
    }
  }
}
