# Resume builder state core, in Dafny

A Dafny model of the core of a resume builder written in TypeScript. The core has four parts:

- **The project store** (`src/store/projectSlice.ts`). It keeps many saved resumes ("projects"), a most-recent-first list of their ids and the current project. Its reducers create, select, rename and delete projects, and edit a project's sections, contact details and styles.
- **The single-resume store** (`src/store/resumeSlice.ts`). It holds one resume, the chosen template name and one style record, with the same kinds of edits.
- **Page breaks in the classic and modern templates.** Each template estimates where the preview breaks into pages. It walks the measured section heights against a page of 1056 units less the header.
- **Edit handlers in the classic and modern templates.** They rebuild the resume with one name, title, contact or section field replaced.

How the model is organised:

- The documents are values: `Resume`, `Section`, `Contact` and `Project` are datatypes, and a style record is a map from the fifteen style keys to values.
- Each store is a class whose fields its reducer methods reassign. Each method states the store's complete new state in terms of specification functions.
- Those functions carry the properties:
  - a filter removes exactly the sections with the id;
  - a duplicate is spliced in right after its original and is undone by deleting it;
  - a move only permutes the list, and up undoes down;
  - a merge keeps every style key;
  - page breaks obey the break rule, and each page fits or holds a single oversized section.
- The two page-break loops are proved equal to one recursive specification, `Pagination.Scan`.

Modules, one per file:

- `ResumeTypes` (`types.dfy`): documents, style keys and values, and decimal printing of clock readings.
- `SectionList` (`section_list.dfy`): the section-list edits the two stores share.
- `StyleSettings` (`styles.dfy`): default styles, merge, single-key writes.
- `Pagination` (`pagination.dfy`): the page-break specification and its lemmas.
- `ClassicTemplate`, `ModernTemplate` (`classic_template.dfy`, `modern_template.dfy`): the two `calculatePageBreaks` loops.
- `TemplateEdits` (`template_edits.dfy`): the edit handlers of the two templates. They build the same resume in both files, so they are modelled once.
- `ProjectSlice` (`project_slice.dfy`): the project store.
- `ResumeSlice` (`resume_slice.dfy`): the single-resume store.

Reading the clock (`Date.now()`) is an input: the `now` parameter. Measured element heights are an input: a `Layout`.

## Model

| member | source | states |
|---|---|---|
| ResumeTypes.WithField | src/store/projectSlice.ts:187 | setting a section field changes that field only; the id is kept |
| ResumeTypes.WithContact | src/store/projectSlice.ts:177 | setting a contact field makes it present with the value; every other contact field is unchanged |
| ResumeTypes.DecimalString | src/store/projectSlice.ts:83 | a clock reading prints as a non-empty string of decimal digits |
| ResumeTypes.DecimalStringInjective | src/store/projectSlice.ts:83 | two readings that print the same are equal |
| SectionList.IndexOf | src/store/projectSlice.ts:165-167 | `findIndex`: -1 exactly when no section has the id, otherwise the first position holding it |
| SectionList.Without | src/store/projectSlice.ts:150-152 | the filtered list keeps exactly the sections with another id; it is unchanged when the id is absent and strictly shorter when present |
| SectionList.WithoutAppend | src/store/resumeSlice.ts:100-102 | filtering distributes over concatenation, so order is kept |
| SectionList.CopyId | src/store/projectSlice.ts:164 | a duplicate's id is the original id, a dash and the clock reading |
| SectionList.CopyIdInjective | src/store/projectSlice.ts:164 | copies of one section made at different readings get different ids |
| SectionList.Duplicated | src/store/projectSlice.ts:160-168 | absent id: unchanged; otherwise one longer, with a renamed copy of the first match directly after it and everything else shifted in order (same multiset plus the copy) |
| SectionList.DeleteUndoesDuplicate | src/store/resumeSlice.ts:99-115 | deleting the fresh copy right after duplicating gives back the original list |
| SectionList.WithSectionField | src/store/projectSlice.ts:185-188 | only the chosen field of the first match changes; ids and length are kept; absent id: unchanged |
| SectionList.IndexOfSameIds | src/store/resumeSlice.ts:125 | lists with the same ids position by position find an id at the same place |
| SectionList.ReadBackSectionField | src/store/resumeSlice.ts:124-129 | after `updateSection`, looking the section up again yields the value written |
| SectionList.MovedUp | src/store/projectSlice.ts:212-216 | index > 0: the section and its predecessor trade places and nothing else moves; otherwise unchanged; always a permutation of the sections and of their ids |
| SectionList.MovedDown | src/store/projectSlice.ts:225-229 | 0 <= index < length-1: the section and its successor trade places; otherwise, including a missing id, unchanged; always a permutation |
| SectionList.MoveUpThenDown | src/store/projectSlice.ts:209-233 | when the section is not first, moving it up and then down restores the list |
| SectionList.MoveDownThenUp | src/store/projectSlice.ts:209-233 | with unique ids, moving a section down and then up restores the list |
| SectionList.WithoutKeepsUnique | src/store/projectSlice.ts:147-155 | deleting keeps section ids unique |
| SectionList.WithoutRemovesOne | src/store/resumeSlice.ts:99-103 | with unique ids, deleting a present section shortens the list by exactly one |
| SectionList.DuplicatedKeepsUnique | src/store/projectSlice.ts:157-172 | duplicating keeps section ids unique when the copy's id is not already taken |
| SectionList.WithSectionFieldKeepsUnique | src/store/projectSlice.ts:182-191 | editing a title or content keeps section ids unique |
| SectionList.MovesKeepUnique | src/store/projectSlice.ts:209-233 | moving a section up or down keeps section ids unique |
| SectionList.ApplyMovesKeepsUnique | src/store/projectSlice.ts:209-233 | any run of moves keeps section ids unique |
| SectionList.IndexOfAt | src/store/projectSlice.ts:212 | an id first occurring at k is found at k |
| SectionList.ApplyMoves | src/store/projectSlice.ts:209-233 | any sequence of up and down moves keeps the same sections, each as often as before |
| SectionList.MoveDownAsWritten | src/store/projectSlice.ts:225-229 | the guard as written: agrees with the corrected move when the id is present; a missing id in a non-empty list puts `undefined` in slot 0 and leaves every other slot as it was |
| SectionList.MoveDownAsWrittenLosesSection | src/store/projectSlice.ts:226 | one section and an unknown id: the as-written move loses the section, the corrected one changes nothing |
| StyleSettings.DefaultValue | src/store/projectSlice.ts:5-21 | each key's default has the key's kind; every colour is black |
| StyleSettings.DefaultStyles | src/store/resumeSlice.ts:24-40 | the defaults set all fifteen keys with values of the right kind; all colours black; name and headers bold; sizes ordered name > header > title > body > contact |
| StyleSettings.Merge | src/store/projectSlice.ts:134 | patch keys take the patch's value, every other base key keeps its value, no other key appears |
| StyleSettings.SetStyle | src/store/resumeSlice.ts:137 | exactly one key is written, with any value |
| StyleSettings.AllKeysCover | src/store/resumeSlice.ts:6-22 | every style key is one of the fifteen |
| StyleSettings.MergeKeepsAllKeys | src/store/resumeSlice.ts:133-135 | merging any patch into a full record keeps exactly the fifteen keys |
| StyleSettings.SetStyleKeepsAllKeys | src/store/resumeSlice.ts:136-138 | writing one key of a full record keeps exactly the fifteen keys |
| StyleSettings.MergeIdempotent | src/store/resumeSlice.ts:134 | applying the same patch twice equals applying it once |
| StyleSettings.MergeKeepsComplete | src/store/projectSlice.ts:131-137 | a well-typed patch keeps a complete record complete |
| Pagination.Budget | src/components/Templates/ClassicTemplate.tsx:111-113 | the page budget is 1056 less the header height; a missing header counts as 0 |
| Pagination.Scan | src/components/Templates/ClassicTemplate.tsx:116-128 | the breaks after n sections are strictly increasing indices below n |
| Pagination.PrefixScan | src/components/Templates/ModernTemplate.tsx:97-105 | breaks found in a prefix are the first breaks of the whole; later ones lie past the prefix |
| Pagination.ScanInvariant | src/components/Templates/ModernTemplate.tsx:95-105 | the running total is the height of the current page, which fits unless it holds one section |
| Pagination.BreakRule | src/components/Templates/ClassicTemplate.tsx:122-127 | section i is a break exactly when the page so far plus its height exceeds the budget; the running total then restarts at its height, otherwise grows by it |
| Pagination.FirstBreak | src/components/Templates/ClassicTemplate.tsx:116-123 | section 0 is a break exactly when it is taller than the budget on its own |
| Pagination.FitsNoBreaks | src/components/Templates/ModernTemplate.tsx:95-105 | while all sections so far fit, there is no break and the total is their sum |
| Pagination.NoBreaksWhenAllFit | src/components/Templates/ModernTemplate.tsx:95-106 | all sections fitting, or no sections, means no breaks |
| Pagination.PagesFit | src/components/Templates/ClassicTemplate.tsx:116-130 | every page the breaks delimit fits in the budget or holds a single section |
| ClassicTemplate.CalculatePageBreaks | src/components/Templates/ClassicTemplate.tsx:108-131 | no preview: no update; otherwise the loop's breaks equal the specification's, increasing and in range |
| ModernTemplate.CalculatePageBreaks | src/components/Templates/ModernTemplate.tsx:89-107 | the same breaks as the specification; none when everything fits on one page |
| TemplateEdits.WithText | src/components/Templates/ClassicTemplate.tsx:67-76 | exactly one of name and title becomes the value; the rest of the resume is unchanged |
| TemplateEdits.WithContactField | src/components/Templates/ClassicTemplate.tsx:78-90 | the result always has a contact with the field set; other fields come from the old contact, or are absent when there was none |
| TemplateEdits.MapSectionField | src/components/Templates/ClassicTemplate.tsx:98-102 | every section with the id gets the field set; all others are unchanged; ids and length are kept |
| TemplateEdits.WithSectionChange | src/components/Templates/ClassicTemplate.tsx:92-105 | only the sections change, and their ids stay in place |
| TemplateEdits.SectionChangeMatchesStore | src/components/Templates/ModernTemplate.tsx:77-86 | with unique ids the handler's `map` gives the same list as the store's `updateSection` |
| TemplateEdits.SectionChangeDiffersOnRepeatedIds | src/components/Templates/ModernTemplate.tsx:80-84 | with a repeated id the handler rewrites both copies, the store only the first |
| TemplateEdits.SectionChangeReadBack | src/components/Templates/ModernTemplate.tsx:77-86 | after the handler, the store's lookup of the section yields the value written |
| ProjectSlice.DefaultResume | src/store/projectSlice.ts:23-64 | the sample for new projects: "Ravi Patel", "Frontend Developer", a contact record, five sections with distinct ids summary, experience, education, projects, skills, and no skills list |
| ProjectSlice.ProjectId | src/store/projectSlice.ts:83 | a project id is `project-` followed by the clock reading |
| ProjectSlice.ProjectIdInjective | src/store/projectSlice.ts:83 | projects created at different readings get different ids |
| ProjectSlice.ProjectName | src/store/projectSlice.ts:88 | a missing or empty name becomes "Untitled Resume"; a given name is kept |
| ProjectSlice.FirstOrNone | src/store/projectSlice.ts:143 | the head of the list exactly when the list is non-empty and its head is not the empty id; none otherwise |
| ProjectSlice.ProjectStore.constructor | src/store/projectSlice.ts:72-76 | no projects, an empty list, no current project; the list is repeat-free |
| ProjectSlice.ProjectStore.CreateProject | src/store/projectSlice.ts:82-99 | stores the new project (`DefaultResume()`, default styles, equal creation and modification times) under `project-<now>`, puts it at the head of the list and makes it current; the list stays repeat-free when the id is new |
| ProjectSlice.ProjectStore.SetCurrentProject | src/store/projectSlice.ts:101-105 | only an existing project becomes current; otherwise nothing changes |
| ProjectSlice.ProjectStore.UpdateProjectName | src/store/projectSlice.ts:107-113 | an existing project gets the name and the modification time; a missing one: no change |
| ProjectSlice.ProjectStore.UpdateProjectResume | src/store/projectSlice.ts:115-121 | an existing project gets the resume and the modification time; a missing one: no change |
| ProjectSlice.ProjectStore.UpdateProjectTemplate | src/store/projectSlice.ts:123-129 | an existing project gets the template and the modification time; a missing one: no change |
| ProjectSlice.ProjectStore.UpdateProjectStyles | src/store/projectSlice.ts:131-137 | an existing project's styles become the merge with the patch |
| ProjectSlice.ProjectStore.DeleteProject | src/store/projectSlice.ts:139-145 | the id leaves the map; the list becomes the old list filtered, in the same order; a deleted current project is replaced by the new head of the list, or none; the list stays repeat-free, and deleting its head promotes the next id |
| ProjectSlice.ProjectStore.DeleteSection | src/store/projectSlice.ts:147-155 | the project's sections lose every section with the id; the time is bumped even when nothing was removed |
| ProjectSlice.ProjectStore.DuplicateSection | src/store/projectSlice.ts:157-172 | with project and section present the list becomes `Duplicated`; otherwise nothing changes, not even the time |
| ProjectSlice.ProjectStore.UpdateContact | src/store/projectSlice.ts:174-180 | the field is written only when the project exists and has a contact record |
| ProjectSlice.ProjectStore.UpdateSection | src/store/projectSlice.ts:182-191 | the first matching section gets the field; absent section: no change, not even the time |
| ProjectSlice.ProjectStore.UpdateSingleStyle | src/store/projectSlice.ts:193-199 | exactly one style key of the project is written |
| ProjectSlice.ProjectStore.ResetStyles | src/store/projectSlice.ts:201-207 | the project's styles become the complete defaults |
| ProjectSlice.ProjectStore.MoveSectionUp | src/store/projectSlice.ts:209-220 | a section not first in the list trades places with its predecessor; otherwise no change |
| ProjectSlice.ProjectStore.MoveSectionDown | src/store/projectSlice.ts:222-233 | with the corrected guard, a present section not last in the list trades places with its successor; otherwise no change |
| ProjectSlice.FilterOut | src/store/projectSlice.ts:141 | the filtered list holds exactly the other ids; an absent id changes nothing |
| ProjectSlice.FilterOutAppend | src/store/projectSlice.ts:141 | filtering distributes over concatenation, so the remaining ids keep their order |
| ProjectSlice.FilterOutHead | src/store/projectSlice.ts:141-143 | in a repeat-free list, filtering out the head leaves exactly the rest, whose first id then becomes current |
| ProjectSlice.FilterOutDistinct | src/store/projectSlice.ts:141 | filtering a repeat-free list leaves it repeat-free |
| ResumeSlice.DefaultResume | src/store/resumeSlice.ts:42-78 | the initial resume: "Ravi Patel", "Frontend Developer", a contact record, four sections with distinct ids summary, experience, education, projects, and the skills Java, Node.js, Website Development |
| ResumeSlice.ResumeStore.constructor | src/store/resumeSlice.ts:86-90 | `DefaultResume()`, the "classic" template and the complete default styles |
| ResumeSlice.ResumeStore.UpdateResume | src/store/resumeSlice.ts:96-98 | the resume is replaced; template and styles are unchanged |
| ResumeSlice.ResumeStore.DeleteSection | src/store/resumeSlice.ts:99-103 | sections with the id are removed; an absent id changes nothing |
| ResumeSlice.ResumeStore.DuplicateSection | src/store/resumeSlice.ts:104-115 | the sections become `Duplicated`, which leaves them unchanged when the id is absent |
| ResumeSlice.ResumeStore.SetSkills | src/store/resumeSlice.ts:116-118 | the skills list is replaced, nothing else |
| ResumeSlice.ResumeStore.UpdateContact | src/store/resumeSlice.ts:119-123 | the field is written only when a contact record exists |
| ResumeSlice.ResumeStore.UpdateSection | src/store/resumeSlice.ts:124-129 | the first matching section gets the field; absent id: no change |
| ResumeSlice.ResumeStore.SetTemplate | src/store/resumeSlice.ts:130-132 | only the template name changes |
| ResumeSlice.ResumeStore.UpdateStyles | src/store/resumeSlice.ts:133-135 | the styles become the merge with the patch, still with all fifteen keys |
| ResumeSlice.ResumeStore.UpdateSingleStyle | src/store/resumeSlice.ts:136-138 | exactly one key is written, and all fifteen keys are kept |
| ResumeSlice.ResumeStore.ResetStyles | src/store/resumeSlice.ts:139-141 | the styles become the complete defaults; resume and template are unchanged |

## Left out

- Measuring the rendered preview is not modelled. This covers element heights, the `.resume-header` lookup, the resize listener and the `MutationObserver`. Heights and the header height arrive as a `Layout`, and storing the breaks in component state is the method's result.
- Rendering (JSX, `EditableSection`), the PDF templates, the network API, authentication and the user store are not part of this model.
- The `currentProjectId` guard and the `dispatch` call around each template handler are left out. The handlers are modelled as the resume they build, which `updateProjectResume` then stores.
- The modern template reads `state.projects.currentProject`, a field the project store does not have. It also dispatches project-store actions with bare ids or bare resumes instead of `{ projectId, … }` payloads. Those calls are not modelled; only the resume each handler builds is.
- The modern template's missing field means it returns `null` at line 39 of `ModernTemplate.tsx`, before its effect is registered. As the source stands, its page-break loop never runs; `ModernTemplate.CalculatePageBreaks` models the loop as written.
- Section `content` is treated as plain text; markup inside it is not interpreted.
- ProjectSlice.ProjectStore.CreateProject: the source reads the clock twice, once for the id and once for the timestamps. The model uses one reading, so the id and `createdAt` always agree.
- ProjectSlice.ProjectStore.DuplicateSection: the copy's id and `updatedAt` come from two clock readings in the source and from one in the model.
- ProjectSlice.ProjectStore.CreateProject: it does not prove that a new id is always fresh, because that depends on the clock never repeating. The list stays repeat-free whenever the id is new. `ProjectSlice.ProjectIdInjective` shows that distinct readings give distinct ids.
- ProjectSlice.ProjectStore.UpdateContact: the source accepts any string as the field name and writes that key. The model allows only the four contact fields.
- StyleSettings.SetStyle: no range or kind check is made, as in the source. Clamping of sizes by the style controls is not part of this model.
- Numbers are modelled as unbounded integers, and floating point is not modelled. Clock readings and heights never approach JavaScript's safe-integer limit. Style sizes arrive from the style controls as `Number(...)` of the input text, so they can be fractional or `NaN`. `StyleValue.Num` holds an integer. The reducers only store sizes and never compute with them, so no stated property depends on this.

## Findings

| source | as written | input that shows it | evidently intended | confidence | as-written member | corrected member |
|---|---|---|---|---|---|---|
| src/store/projectSlice.ts:225-229 | the guard is only `index < sections.length - 1`, so `findIndex`'s -1 for a missing id passes it in any non-empty list; the swap then stores `sections[-1]`, which is `undefined`, into slot 0 | one section `summary`, `moveSectionDown` with section id `missing`: the list becomes `[undefined]` | a missing id changes nothing (guard `index >= 0 && index < length - 1`, as `moveSectionUp`'s `index > 0` does) | not executed | SectionList.MoveDownAsWrittenLosesSection | SectionList.MovedDown |
