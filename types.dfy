/**
 * The resume document and the project record (src/types.ts), as values.
 * Every reducer of the two stores produces new values of these types.
 */
module ResumeTypes {

  datatype Option<T> = None | Some(value: T) {
    function GetOr(default: T): T {
      if Some? then value else default
    }
  }

  /** A titled block of the resume; `content` is treated as plain text. */
  datatype Section = Section(id: string, title: string, content: string)

  /** The two editable fields of a section. */
  datatype SectionField = Title | Content

  function FieldOf(s: Section, f: SectionField): string {
    match f
    case Title => s.title
    case Content => s.content
  }

  /** `{ ...section, [field]: value }`: the named field is replaced, nothing else. */
  function WithField(s: Section, f: SectionField, v: string): (r: Section)
    ensures FieldOf(r, f) == v
    ensures forall g :: g != f ==> FieldOf(r, g) == FieldOf(s, g)
    ensures r.id == s.id
  {
    match f
    case Title => s.(title := v)
    case Content => s.(content := v)
  }

  /** The contact record; each field may be absent. */
  datatype Contact = Contact(email: Option<string>, phone: Option<string>,
                             location: Option<string>, linkedin: Option<string>)

  datatype ContactField = Email | Phone | Location | LinkedIn

  /** `{}`: the record a spread of an absent contact yields. */
  const NoContact := Contact(None, None, None, None)

  function ContactOf(c: Contact, f: ContactField): Option<string> {
    match f
    case Email => c.email
    case Phone => c.phone
    case Location => c.location
    case LinkedIn => c.linkedin
  }

  /** `contact[field] = value`: that field is set, the others keep their value. */
  function WithContact(c: Contact, f: ContactField, v: string): (r: Contact)
    ensures ContactOf(r, f) == Some(v)
    ensures forall g :: g != f ==> ContactOf(r, g) == ContactOf(c, g)
  {
    match f
    case Email => c.(email := Some(v))
    case Phone => c.(phone := Some(v))
    case Location => c.(location := Some(v))
    case LinkedIn => c.(linkedin := Some(v))
  }

  datatype Resume = Resume(name: string, title: string, contact: Option<Contact>,
                           sections: seq<Section>, skills: Option<seq<string>>)

  /** The fifteen keys of a style record: a size, a colour and a weight for five text roles. */
  datatype StyleKey =
    | NameSize | NameColor | NameBold
    | TitleSize | TitleColor | TitleBold
    | ContactSize | ContactColor | ContactBold
    | HeaderSize | HeaderColor | HeaderBold
    | BodySize | BodyColor | BodyBold

  /** A style value: a number (pixels), a string (a colour) or a boolean (bold). */
  datatype StyleValue = Num(n: int) | Str(s: string) | Flag(b: bool)

  /** A style record; a key that is absent is unset. */
  type Styles = map<StyleKey, StyleValue>

  datatype Project = Project(id: string, name: string, template: string, resume: Resume,
                             styles: Styles, createdAt: int, updatedAt: int)

  function Digit(d: nat): (c: char)
    requires d < 10
    ensures '0' <= c <= '9'
  {
    ['0', '1', '2', '3', '4', '5', '6', '7', '8', '9'][d]
  }

  /** The decimal text of a clock reading, as a template literal prints it. */
  function DecimalString(n: nat): (s: string)
    ensures |s| > 0
    ensures forall i :: 0 <= i < |s| ==> '0' <= s[i] <= '9'
    decreases n
  {
    if n < 10 then [Digit(n)] else DecimalString(n / 10) + [Digit(n % 10)]
  }

  /** Different clock readings print differently, so ids minted from them differ. */
  lemma {:induction false} DecimalStringInjective(a: nat, b: nat)
    requires DecimalString(a) == DecimalString(b)
    ensures a == b
    decreases a
  {
    var s := DecimalString(a);
    if a >= 10 && b >= 10 {
      assert Digit(a % 10) == s[|s| - 1] == Digit(b % 10);
      assert DecimalString(a / 10) == s[..|s| - 1] == DecimalString(b / 10);
      DecimalStringInjective(a / 10, b / 10);
    }
  }
}
