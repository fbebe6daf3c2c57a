/**
 * The edit handlers of the classic and modern templates. Each rebuilds the resume
 * with one field replaced (spread syntax and `map`); the rebuilt resume is then
 * handed to the project store's `updateProjectResume`.
 */
module TemplateEdits {
  import opened ResumeTypes
  import opened SectionList

  /** The two scalar text fields of the resume header. */
  datatype TextField = NameText | TitleText

  /** `handleTextChange`: `{ ...resume, [type]: value }`. */
  function WithText(r: Resume, t: TextField, v: string): (r': Resume)
    ensures t == NameText ==> r'.name == v && r'.title == r.title
    ensures t == TitleText ==> r'.title == v && r'.name == r.name
    ensures r'.contact == r.contact && r'.sections == r.sections && r'.skills == r.skills
  {
    match t
    case NameText => r.(name := v)
    case TitleText => r.(title := v)
  }

  /**
   * `handleContactChange`: `{ ...resume, contact: { ...resume.contact, [field]: value } }`.
   * An absent contact spreads as an empty record, so the result always has a contact.
   */
  function WithContactField(r: Resume, f: ContactField, v: string): (r': Resume)
    ensures r'.contact.Some? && ContactOf(r'.contact.value, f) == Some(v)
    ensures forall g :: g != f ==>
      ContactOf(r'.contact.value, g) == (if r.contact.Some? then ContactOf(r.contact.value, g) else None)
    ensures r'.name == r.name && r'.title == r.title && r'.sections == r.sections && r'.skills == r.skills
  {
    r.(contact := Some(WithContact(r.contact.GetOr(NoContact), f, v)))
  }

  /**
   * `handleSectionChange`: `sections.map(s => s.id === id ? { ...s, [field]: value } : s)`.
   * Unlike the store's `updateSection`, every section with the id is rewritten.
   */
  function MapSectionField(s: seq<Section>, id: string, f: SectionField, v: string): (r: seq<Section>)
    ensures |r| == |s|
    ensures forall j :: 0 <= j < |s| ==> r[j].id == s[j].id
    ensures forall j :: 0 <= j < |s| && s[j].id == id ==>
      FieldOf(r[j], f) == v && forall g :: g != f ==> FieldOf(r[j], g) == FieldOf(s[j], g)
    ensures forall j :: 0 <= j < |s| && s[j].id != id ==> r[j] == s[j]
  {
    seq(|s|, j requires 0 <= j < |s| => if s[j].id == id then WithField(s[j], f, v) else s[j])
  }

  /** The section handler applied to the resume: only `sections` changes. */
  function WithSectionChange(r: Resume, id: string, f: SectionField, v: string): (r': Resume)
    ensures r'.name == r.name && r'.title == r.title && r'.contact == r.contact && r'.skills == r.skills
    ensures Ids(r'.sections) == Ids(r.sections)
  {
    r.(sections := MapSectionField(r.sections, id, f, v))
  }

  /** With unique ids the template's `map` and the store's `find`-then-assign agree. */
  lemma SectionChangeMatchesStore(s: seq<Section>, id: string, f: SectionField, v: string)
    requires UniqueIds(s)
    ensures MapSectionField(s, id, f, v) == WithSectionField(s, id, f, v)
  {
    var a, b := MapSectionField(s, id, f, v), WithSectionField(s, id, f, v);
    forall j | 0 <= j < |s| ensures a[j] == b[j] {
      if s[j].id == id {
        assert IndexOf(s, id) == j;
      }
    }
  }

  /** Without unique ids they differ: the template rewrites both copies, the store only the first. */
  lemma SectionChangeDiffersOnRepeatedIds()
    ensures var s := [Section("a", "One", "x"), Section("a", "Two", "y")];
      MapSectionField(s, "a", Title, "New")[1].title == "New"
      && WithSectionField(s, "a", Title, "New")[1].title == "Two"
  {
    var s := [Section("a", "One", "x"), Section("a", "Two", "y")];
    assert IndexOf(s, "a") == 0;
  }

  /** Editing a field and reading it back through the store's lookup returns the value written. */
  lemma SectionChangeReadBack(r: Resume, id: string, f: SectionField, v: string)
    requires Has(r.sections, id)
    ensures var s := WithSectionChange(r, id, f, v).sections;
      IndexOf(s, id) == IndexOf(r.sections, id) && FieldOf(s[IndexOf(s, id)], f) == v
  {
    IndexOfSameIds(r.sections, WithSectionChange(r, id, f, v).sections, id);
  }
}
