/**
 * The normaliser of lib/affinda.ts: the loosely shaped document the parsing
 * service returns, the canonical resume record the application works with,
 * and `transformAffindaData`, which maps one onto the other field by field.
 *
 * A field the service may send either as a string or as an object is a
 * datatype with one constructor per shape. A field that may be missing is an
 * `Option`; `Some("")` is an empty string that was sent, which JavaScript's
 * `||` and `filter(Boolean)` treat like a missing one.
 */
module Normalizer {
  import opened Wrappers
  import opened JsText

  /** A JavaScript number (the `gpa` field): passed through, only its truthiness is inspected. */
  datatype JsNumber = Finite(value: real) | Infinity(negative: bool) | NaN {
    /** `0`, `-0` and `NaN` are the falsy numbers. */
    predicate Truthy() {
      match this
      case Finite(v) => v != 0.0
      case Infinity(_) => true
      case NaN => false
    }
  }

  /** `name`: either a plain string or a structured name. */
  datatype RawName =
    | NameText(text: string)
    | NameParts(raw: Option<string>, first: Option<string>, last: Option<string>,
                middle: Option<string>, title: Option<string>)

  /** `education[].location`: either a plain string or an object with a `raw` field. */
  datatype RawLocation = LocationText(text: string) | LocationParts(raw: Option<string>)

  datatype RawEducation = RawEducation(
    organization: Option<string>, institution: Option<string>,
    degree: Option<string>, area: Option<string>,
    startDate: Option<string>, endDate: Option<string>,
    gpa: Option<JsNumber>, location: Option<RawLocation>)

  datatype RawWork = RawWork(
    jobTitle: Option<string>, position: Option<string>,
    organization: Option<string>, company: Option<string>,
    startDate: Option<string>, endDate: Option<string>,
    summary: Option<string>, description: Option<string>)

  /** An entry of `skills` or `languages`: a string, an object with a `name`, or `null`. */
  datatype RawEntry = EntryText(text: string) | EntryObject(name: Option<string>) | EntryNull

  /**
   * The resume fields the service may send. A list given as something other
   * than an array is `None` for `emails` and `phoneNumbers` (they are guarded
   * by `Array.isArray`).
   */
  datatype RawResume = RawResume(
    name: Option<RawName>,
    email: Option<string>, emails: Option<seq<string>>,
    phoneNumber: Option<string>, phoneNumbers: Option<seq<string>>,
    education: Option<seq<RawEducation>>,
    workExperience: Option<seq<RawWork>>,
    skills: Option<seq<RawEntry>>,
    languages: Option<seq<RawEntry>>,
    certifications: Option<seq<string>>,
    rawText: Option<string>, fullText: Option<string>,
    summary: Option<string>, linkedin: Option<string>,
    websites: Option<seq<string>>, dateOfBirth: Option<string>)

  /** The `meta` object of a status response; an absent `meta` has every flag false. */
  datatype Meta = Meta(ready: bool, failed: bool, errorDetail: Option<string>)

  /**
   * A document as the service returns it: the resume fields either nested
   * under `data` or directly on the document itself (`fields`), plus the
   * processing `meta` and `status` of a status response.
   */
  datatype RawDocument = RawDocument(
    data: Option<RawResume>, fields: RawResume, meta: Meta, status: Option<string>)

  datatype Education = Education(
    institution: string, degree: Option<string>,
    startDate: Option<string>, endDate: Option<string>,
    gpa: Option<JsNumber>, location: Option<string>)

  datatype Work = Work(
    company: string, position: string,
    startDate: Option<string>, endDate: Option<string>,
    summary: string)

  /** The canonical resume record (its empty `meta` object is not modelled). */
  datatype Resume = Resume(
    name: string, email: string, phone: string,
    linkedin: Option<string>, websites: seq<string>, dateOfBirth: Option<string>,
    summary: Option<string>,
    education: seq<Education>, work: seq<Work>,
    skills: seq<string>, languages: seq<string>, certifications: seq<string>,
    rawText: string)

  const NameSentinel := "Name not found"
  const EmailSentinel := "No email found"
  const PhoneSentinel := "No phone number found"
  const InstitutionSentinel := "Unknown Institution"
  const CompanySentinel := "Unknown Company"
  const PositionSentinel := "Position not specified"

  /** `data.data || data`: the nested record when there is one, the document itself otherwise. */
  function SourceRecord(d: RawDocument): (r: RawResume)
    ensures d.data.Some? ==> r == d.data.value
    ensures d.data.None? ==> r == d.fields
  {
    d.data.GetOr(d.fields)
  }

  /** The parts of a structured name in the order they are joined: title, first, middle, last. */
  function NamePartsInOrder(n: RawName): seq<string>
    requires n.NameParts?
  {
    [n.title.GetOr(""), n.first.GetOr(""), n.middle.GetOr(""), n.last.GetOr("")]
  }

  /** `[title, first, middle, last].filter(Boolean).join(' ').trim()`. */
  function JoinedName(n: RawName): string
    requires n.NameParts?
  {
    Trim(Join(Compact(NamePartsInOrder(n)), " "))
  }

  /** The displayed name; a missing or unusable name becomes the sentinel, never "". */
  function ResolveName(name: Option<RawName>): (r: string)
    ensures r != ""
  {
    match name
    case None => NameSentinel
    case Some(NameText(t)) => if t != "" then t else NameSentinel
    case Some(n) => FirstTruthy([Some(JoinedName(n)), n.raw]).GetOr(NameSentinel)
  }

  lemma FirstOfTwo(a: Option<string>, b: Option<string>)
    ensures FirstTruthy([a, b]) == if Present(a) then a else if Present(b) then b else None
  {
    assert [a, b][1..] == [b];
    assert [b][1..] == [];
  }

  /**
   * The three cases of name resolution: a non-empty string is kept verbatim;
   * a structured name is its non-empty parts joined by single spaces and
   * trimmed, unless that leaves nothing, in which case `raw` and then the
   * sentinel are used; no name, or the empty string, gives the sentinel.
   */
  lemma NameResolution(name: Option<RawName>)
    ensures name.Some? && name.value.NameText? && name.value.text != "" ==>
      ResolveName(name) == name.value.text
    ensures name.None? || name.value == NameText("") ==> ResolveName(name) == NameSentinel
    ensures name.Some? && name.value.NameParts? ==>
      var parts := NamePartsInOrder(name.value);
      if exists i | 0 <= i < |parts| :: !Blank(parts[i]) then
        ResolveName(name) == Trim(Join(Compact(parts), " ")) && ResolveName(name) != ""
      else
        ResolveName(name) == if Present(name.value.raw) then name.value.raw.value else NameSentinel
  {
    if name.Some? && name.value.NameParts? {
      var n := name.value;
      var parts := NamePartsInOrder(n);
      FirstOfTwo(Some(JoinedName(n)), n.raw);
      CompactBlank(parts);
      JoinBlank(Compact(parts), " ");
    }
  }

  /** A structured name with only a first and a last part reads "first last". */
  lemma NameFirstLast(first: string, last: string)
    requires first != "" && last != ""
    requires !IsWhitespace(first[0]) && !IsWhitespace(last[|last| - 1])
    ensures ResolveName(Some(NameParts(None, Some(first), Some(last), None, None))) == first + " " + last
  {
    var n := NameParts(None, Some(first), Some(last), None, None);
    var parts := NamePartsInOrder(n);
    assert parts == ["", first, "", last];
    assert Compact(parts) == [first, last] by {
      assert parts[1..] == [first, "", last];
      assert [first, "", last][1..] == ["", last];
      assert ["", last][1..] == [last];
      assert [last][1..] == [];
      assert Compact([last]) == [last];
      assert Compact(["", last]) == [last];
      assert Compact([first, "", last]) == [first, last];
    }
    var j := first + " " + last;
    assert Join([first, last], " ") == j by {
      assert [first, last][1..] == [last];
    }
    assert TrimStart(j) == j;
    assert j[|j| - 1] == last[|last| - 1];
    assert TrimEnd(j) == j;
    FirstOfTwo(Some(j), None);
  }

  /**
   * `emails[0] || sentinel` where `emails` is the scalar field, if truthy,
   * followed by the array of alternatives (the same rule serves the phone).
   */
  function PrimaryContact(scalar: Option<string>, alternatives: Option<seq<string>>, sentinel: string): (r: string)
    ensures Present(scalar) ==> r == scalar.value
    ensures !Present(scalar) && alternatives.Some? && |alternatives.value| > 0 && alternatives.value[0] != "" ==>
      r == alternatives.value[0]
    ensures !Present(scalar) && (alternatives.None? || |alternatives.value| == 0 || alternatives.value[0] == "") ==>
      r == sentinel
    ensures sentinel != "" ==> r != ""
  {
    var candidates := (if Present(scalar) then [scalar.value] else []) + alternatives.GetOr([]);
    if |candidates| > 0 && candidates[0] != "" then candidates[0] else sentinel
  }

  /** `typeof location === 'string' ? location : location?.raw`. */
  function ResolveLocation(l: Option<RawLocation>): (r: Option<string>)
    ensures l.Some? && l.value.LocationText? ==> r == Some(l.value.text)
    ensures l.Some? && l.value.LocationParts? ==> r == l.value.raw
    ensures l.None? ==> r.None?
  {
    match l
    case None => None
    case Some(LocationText(t)) => Some(t)
    case Some(LocationParts(raw)) => raw
  }

  /** One education entry: first truthy of each alternative, dates and GPA unchanged. */
  function NormalizeEducation(e: RawEducation): (r: Education)
    ensures Present(e.organization) ==> r.institution == e.organization.value
    ensures !Present(e.organization) && Present(e.institution) ==> r.institution == e.institution.value
    ensures !Present(e.organization) && !Present(e.institution) ==> r.institution == InstitutionSentinel
    ensures r.institution != ""
    ensures r.degree == if Present(e.degree) then e.degree else if Present(e.area) then e.area else None
    ensures r.startDate == e.startDate && r.endDate == e.endDate && r.gpa == e.gpa
    ensures r.location == ResolveLocation(e.location)
  {
    FirstOfTwo(e.organization, e.institution);
    FirstOfTwo(e.degree, e.area);
    Education(
      institution := FirstTruthy([e.organization, e.institution]).GetOr(InstitutionSentinel),
      degree := FirstTruthy([e.degree, e.area]),
      startDate := e.startDate,
      endDate := e.endDate,
      gpa := e.gpa,
      location := ResolveLocation(e.location))
  }

  /** One work entry: first truthy of each alternative with its sentinel, dates unchanged. */
  function NormalizeWork(w: RawWork): (r: Work)
    ensures Present(w.organization) ==> r.company == w.organization.value
    ensures !Present(w.organization) && Present(w.company) ==> r.company == w.company.value
    ensures !Present(w.organization) && !Present(w.company) ==> r.company == CompanySentinel
    ensures Present(w.jobTitle) ==> r.position == w.jobTitle.value
    ensures !Present(w.jobTitle) && Present(w.position) ==> r.position == w.position.value
    ensures !Present(w.jobTitle) && !Present(w.position) ==> r.position == PositionSentinel
    ensures Present(w.summary) ==> r.summary == w.summary.value
    ensures !Present(w.summary) && Present(w.description) ==> r.summary == w.description.value
    ensures !Present(w.summary) && !Present(w.description) ==> r.summary == ""
    ensures r.company != "" && r.position != ""
    ensures r.startDate == w.startDate && r.endDate == w.endDate
  {
    FirstOfTwo(w.organization, w.company);
    FirstOfTwo(w.jobTitle, w.position);
    FirstOfTwo(w.summary, w.description);
    Work(
      company := FirstTruthy([w.organization, w.company]).GetOr(CompanySentinel),
      position := FirstTruthy([w.jobTitle, w.position]).GetOr(PositionSentinel),
      startDate := w.startDate,
      endDate := w.endDate,
      summary := FirstTruthy([w.summary, w.description]).GetOr(""))
  }

  /** `education.map(...)`: one entry out per entry in, in the same order. */
  function NormalizeEducationList(xs: seq<RawEducation>): (r: seq<Education>)
    ensures |r| == |xs|
    ensures forall i | 0 <= i < |xs| :: r[i] == NormalizeEducation(xs[i])
  {
    if xs == [] then []
    else [NormalizeEducation(xs[0])] + NormalizeEducationList(xs[1..])
  }

  /** `workExperience.map(...)`: one entry out per entry in, in the same order. */
  function NormalizeWorkList(xs: seq<RawWork>): (r: seq<Work>)
    ensures |r| == |xs|
    ensures forall i | 0 <= i < |xs| :: r[i] == NormalizeWork(xs[i])
  {
    if xs == [] then []
    else [NormalizeWork(xs[0])] + NormalizeWorkList(xs[1..])
  }

  /** `typeof entry === 'string' ? entry : entry?.name || ''`. */
  function EntryValue(e: RawEntry): string {
    match e
    case EntryText(t) => t
    case EntryObject(n) => n.GetOr("")
    case EntryNull => ""
  }

  function EntryValues(xs: seq<RawEntry>): (r: seq<string>)
    ensures |r| == |xs|
    ensures forall i | 0 <= i < |xs| :: r[i] == EntryValue(xs[i])
  {
    if xs == [] then []
    else [EntryValue(xs[0])] + EntryValues(xs[1..])
  }

  /**
   * `skills` and `languages`: the per-entry values with the empty ones
   * dropped; order is kept, no value is lost and none is invented.
   */
  function EntryNames(xs: Option<seq<RawEntry>>): (r: seq<string>)
    ensures var values := EntryValues(xs.GetOr([]));
      && |r| <= |values|
      && (forall k | 0 <= k < |r| :: r[k] != "")
      && IsSubsequence(r, values)
      && (forall v | v != "" :: multiset(r)[v] == multiset(values)[v])
    ensures xs.None? ==> r == []
  {
    Compact(EntryValues(xs.GetOr([])))
  }

  /** The list of names is non-empty exactly when some entry has a non-empty value. */
  lemma EntryNamesNonEmpty(xs: Option<seq<RawEntry>>)
    ensures |EntryNames(xs)| > 0 <==> exists k | 0 <= k < |xs.GetOr([])| :: EntryValue(xs.GetOr([])[k]) != ""
  {
    var values := EntryValues(xs.GetOr([]));
    assert (exists k | 0 <= k < |xs.GetOr([])| :: EntryValue(xs.GetOr([])[k]) != "")
      <==> exists k | 0 <= k < |values| :: values[k] != "";
  }

  /** `transformAffindaData`: the canonical record of a parsed document. */
  function Transform(d: RawDocument): (r: Resume)
    ensures var src := SourceRecord(d);
      && r.name == ResolveName(src.name)
      && r.email == PrimaryContact(src.email, src.emails, EmailSentinel)
      && r.phone == PrimaryContact(src.phoneNumber, src.phoneNumbers, PhoneSentinel)
      && r.education == NormalizeEducationList(src.education.GetOr([]))
      && r.work == NormalizeWorkList(src.workExperience.GetOr([]))
      && r.skills == EntryNames(src.skills)
      && r.languages == EntryNames(src.languages)
  {
    var src := SourceRecord(d);
    Resume(
      name := ResolveName(src.name),
      email := PrimaryContact(src.email, src.emails, EmailSentinel),
      phone := PrimaryContact(src.phoneNumber, src.phoneNumbers, PhoneSentinel),
      linkedin := src.linkedin,
      websites := src.websites.GetOr([]),
      dateOfBirth := src.dateOfBirth,
      summary := src.summary,
      education := NormalizeEducationList(src.education.GetOr([])),
      work := NormalizeWorkList(src.workExperience.GetOr([])),
      skills := EntryNames(src.skills),
      languages := EntryNames(src.languages),
      certifications := src.certifications.GetOr([]),
      rawText := FirstTruthy([src.rawText, src.fullText]).GetOr(""))
  }

  /**
   * The shape guarantees of the canonical record: the scalars are never
   * empty (a sentinel replaces a missing value), every list is present
   * (empty when the source list is missing), the entry lists keep the source
   * lists' length, and skills and languages hold no empty string.
   */
  lemma TransformShape(d: RawDocument)
    ensures var r := Transform(d); var src := SourceRecord(d);
      && r.name != "" && r.email != "" && r.phone != ""
      && |r.education| == |src.education.GetOr([])|
      && |r.work| == |src.workExperience.GetOr([])|
      && (src.education.None? ==> r.education == [])
      && (src.workExperience.None? ==> r.work == [])
      && (forall k | 0 <= k < |r.skills| :: r.skills[k] != "")
      && (forall k | 0 <= k < |r.languages| :: r.languages[k] != "")
      && |r.skills| <= |src.skills.GetOr([])|
      && |r.languages| <= |src.languages.GetOr([])|
      && (forall i | 0 <= i < |r.education| :: r.education[i].institution != "")
      && (forall i | 0 <= i < |r.work| :: r.work[i].company != "" && r.work[i].position != "")
  {
  }

  /**
   * The pass-through fields and their defaults: `rawText` falls back from
   * `rawText` to `fullText` to "", `websites` and `certifications` default to
   * the empty list, and `linkedin`, `summary` and `dateOfBirth` are copied.
   */
  lemma TransformDefaults(d: RawDocument)
    ensures var r := Transform(d); var src := SourceRecord(d);
      && r.rawText == (if Present(src.rawText) then src.rawText.value
                       else if Present(src.fullText) then src.fullText.value else "")
      && r.websites == (if src.websites.Some? then src.websites.value else [])
      && r.certifications == (if src.certifications.Some? then src.certifications.value else [])
      && r.linkedin == src.linkedin && r.summary == src.summary && r.dateOfBirth == src.dateOfBirth
  {
    var src := SourceRecord(d);
    FirstOfTwo(src.rawText, src.fullText);
  }

  /** The scalar `email` wins over the array; only the array's first entry is ever used. */
  lemma EmailPrecedence(d: RawDocument)
    ensures var src := SourceRecord(d);
      && (Present(src.email) ==> Transform(d).email == src.email.value)
      && (!Present(src.email) && src.emails.Some? && |src.emails.value| > 0 ==>
            Transform(d).email == if src.emails.value[0] != "" then src.emails.value[0] else EmailSentinel)
      && (!Present(src.email) && (src.emails.None? || src.emails.value == []) ==>
            Transform(d).email == EmailSentinel)
  {
  }
}
