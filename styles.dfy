/**
 * Style records: the built-in defaults both stores reset to, the right-biased merge
 * of a partial record and the write of a single key.
 */
module StyleSettings {
  import opened ResumeTypes

  /** Every key a full style record carries. */
  const AllKeys: set<StyleKey> := {
    NameSize, NameColor, NameBold,
    TitleSize, TitleColor, TitleBold,
    ContactSize, ContactColor, ContactBold,
    HeaderSize, HeaderColor, HeaderBold,
    BodySize, BodyColor, BodyBold
  }

  /** The kind of value a key is declared to hold. */
  predicate WellTyped(k: StyleKey, v: StyleValue) {
    match k
    case NameSize | TitleSize | ContactSize | HeaderSize | BodySize => v.Num?
    case NameColor | TitleColor | ContactColor | HeaderColor | BodyColor => v.Str?
    case NameBold | TitleBold | ContactBold | HeaderBold | BodyBold => v.Flag?
  }

  /** A record that sets every key, each to a value of its declared kind. */
  predicate Complete(m: Styles) {
    m.Keys == AllKeys && forall k :: k in m ==> WellTyped(k, m[k])
  }

  /** The value `defaultStyles` gives a key. */
  function DefaultValue(k: StyleKey): (v: StyleValue)
    ensures WellTyped(k, v)
    ensures v.Str? ==> v == Str("#000000")
  {
    match k
    case NameSize => Num(36)
    case NameColor => Str("#000000")
    case NameBold => Flag(true)
    case TitleSize => Num(16)
    case TitleColor => Str("#000000")
    case TitleBold => Flag(false)
    case ContactSize => Num(12)
    case ContactColor => Str("#000000")
    case ContactBold => Flag(false)
    case HeaderSize => Num(18)
    case HeaderColor => Str("#000000")
    case HeaderBold => Flag(true)
    case BodySize => Num(14)
    case BodyColor => Str("#000000")
    case BodyBold => Flag(false)
  }

  /**
   * `defaultStyles`: a complete record in black, with a bold name and bold section
   * headers, and sizes decreasing from name to headers, title, body and contact.
   */
  function DefaultStyles(): (m: Styles)
    ensures Complete(m)
    ensures forall k :: k in m && m[k].Str? ==> m[k] == Str("#000000")
    ensures m[NameBold] == Flag(true) && m[HeaderBold] == Flag(true)
    ensures m[NameSize].n > m[HeaderSize].n > m[TitleSize].n > m[BodySize].n > m[ContactSize].n
  {
    map k | k in AllKeys :: DefaultValue(k)
  }

  /** `{ ...base, ...patch }`: keys in the patch win, every other key of the base is kept. */
  function Merge(base: Styles, patch: Styles): (r: Styles)
    ensures r.Keys == base.Keys + patch.Keys
    ensures forall k :: k in patch ==> r[k] == patch[k]
    ensures forall k :: k in base && k !in patch ==> r[k] == base[k]
  {
    base + patch
  }

  /**
   * `styles[key] = value`: exactly one key changes. No kind or range check is made,
   * so a record can end up holding, say, a boolean under a size key.
   */
  function SetStyle(base: Styles, k: StyleKey, v: StyleValue): (r: Styles)
    ensures r.Keys == base.Keys + {k}
    ensures r[k] == v
    ensures forall j :: j in base && j != k ==> r[j] == base[j]
  {
    base[k := v]
  }

  /** Every style key is one of the fifteen. */
  lemma AllKeysCover(k: StyleKey)
    ensures k in AllKeys
  {
    match k
    case NameSize => case NameColor => case NameBold =>
    case TitleSize => case TitleColor => case TitleBold =>
    case ContactSize => case ContactColor => case ContactBold =>
    case HeaderSize => case HeaderColor => case HeaderBold =>
    case BodySize => case BodyColor => case BodyBold =>
  }

  /** Merging any patch into a record that sets every key gives a record that sets every key. */
  lemma MergeKeepsAllKeys(base: Styles, patch: Styles)
    requires base.Keys == AllKeys
    ensures Merge(base, patch).Keys == AllKeys
  {
    forall k | k in patch ensures k in AllKeys {
      AllKeysCover(k);
    }
  }

  /** Writing one key of a record that sets every key gives a record that sets every key. */
  lemma SetStyleKeepsAllKeys(base: Styles, k: StyleKey, v: StyleValue)
    requires base.Keys == AllKeys
    ensures SetStyle(base, k, v).Keys == AllKeys
  {
    AllKeysCover(k);
  }

  /** Applying the same patch twice is the same as applying it once. */
  lemma MergeIdempotent(base: Styles, patch: Styles)
    ensures Merge(Merge(base, patch), patch) == Merge(base, patch)
  {
  }

  /** A patch of well-typed values keeps a complete record complete. */
  lemma MergeKeepsComplete(base: Styles, patch: Styles)
    requires Complete(base)
    requires forall k :: k in patch ==> WellTyped(k, patch[k])
    ensures Complete(Merge(base, patch))
  {
    MergeKeepsAllKeys(base, patch);
  }
}
