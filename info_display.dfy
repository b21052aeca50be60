/**
 * The result pane of app/components/InfoDisplay.tsx, modelled as the view it
 * renders: which sections appear, and the texts and link targets in them.
 * Markup and styling are not modelled. Two things the component leaves to the
 * JavaScript runtime are parameters: `format`, the locale rendering of a
 * non-empty date string, and `numberText`, the rendering of a number.
 */
module InfoDisplay {
  import opened Wrappers
  import opened JsText
  import opened Normalizer

  datatype Link = Link(text: string, href: string)

  /** One website line: its caption and its link. */
  datatype WebsiteRow = WebsiteRow(caption: string, link: Link)

  datatype Contact = Contact(
    name: string, email: Link, phone: Link,
    linkedin: Option<Link>, websites: seq<WebsiteRow>)

  datatype WorkCard = WorkCard(position: string, company: string, dates: string, summary: Option<string>)

  datatype EducationCard = EducationCard(heading: string, location: Option<string>, dates: string, gpa: string)

  /** The rendered pane; a section that is not displayed is `None`. */
  datatype View = View(
    contact: Contact,
    summary: Option<string>,
    work: Option<seq<WorkCard>>,
    education: Option<seq<EducationCard>>,
    skills: Option<seq<string>>,
    languages: Option<seq<string>>,
    certifications: Option<seq<string>>)

  const NotProvided := "Not provided"

  /**
   * The text, between the bullet and the number, that the GPA suffix begins
   * with. The component's source holds the bullet as the three characters
   * U+00E2 U+20AC U+00A2 (a UTF-8 bullet read as Windows-1252), and this is
   * what it displays.
   */
  const GpaLabel := " \U{00E2}\U{20AC}\U{00A2} GPA: "

  /** The link target for a LinkedIn or website value: "https://" is added unless it starts with "http". */
  function Href(v: string): (r: string)
    ensures StartsWith(v, "http") ==> r == v
    ensures !StartsWith(v, "http") ==> r == "https://" + v
    ensures StartsWith(r, "http")
    ensures EndsWith(r, v)
  {
    if StartsWith(v, "http") then v else "https://" + v
  }

  /** Normalising a link target twice changes nothing more. */
  lemma HrefIdempotent(v: string)
    ensures Href(Href(v)) == Href(v)
  {
  }

  /** `value || 'Not provided'`. */
  function OrNotProvided(s: string): (r: string)
    ensures s != "" ==> r == s
    ensures s == "" ==> r == NotProvided
    ensures r != ""
  {
    if s != "" then s else NotProvided
  }

  /** `formatDate`: an empty or absent date reads "Present". */
  function FormatDate(d: Option<string>, format: string -> string): (r: string)
    ensures !Present(d) ==> r == "Present"
    ensures Present(d) ==> r == format(d.value)
  {
    if !Present(d) then "Present" else format(d.value)
  }

  /** `{start && formatDate(start)} - {end ? formatDate(end) : 'Present'}`. */
  function DateRange(start: Option<string>, end: Option<string>, format: string -> string): (r: string)
    ensures Present(start) ==> StartsWith(r, format(start.value) + " - ")
    ensures !Present(start) ==> StartsWith(r, " - ")
    ensures !Present(end) ==> EndsWith(r, " - Present")
    ensures Present(end) ==> EndsWith(r, " - " + format(end.value))
    ensures |r| == (if Present(start) then |format(start.value)| else 0) + 3
                   + (if Present(end) then |format(end.value)| else 7)
  {
    var from := if Present(start) then FormatDate(start, format) else "";
    var to := if Present(end) then FormatDate(end, format) else "Present";
    var r := from + " - " + to;
    assert r[..|from + " - "|] == from + " - ";
    assert r[|r| - |" - " + to|..] == " - " + to;
    r
  }

  /** `[degree, institution].filter(Boolean).join(', ')`. */
  function EducationHeading(degree: Option<string>, institution: string): (r: string)
    ensures Present(degree) && institution != "" ==> r == degree.value + ", " + institution
    ensures !Present(degree) ==> r == institution
    ensures Present(degree) && institution == "" ==> r == degree.value
    ensures r == "" <==> !Present(degree) && institution == ""
  {
    JoinTwo(degree.GetOr(""), institution, ", ");
    Join(Compact([degree.GetOr(""), institution]), ", ")
  }

  /**
   * `{gpa && ` • GPA: ${gpa}`}` as React renders it: nothing for a missing
   * GPA, the label and the number for a truthy one, and for a falsy number
   * (0 or NaN) the number itself, since React prints a number child.
   */
  function GpaSuffixAsWritten(gpa: Option<JsNumber>, numberText: JsNumber -> string): (r: string)
    ensures gpa.None? ==> r == ""
    ensures gpa.Some? && gpa.value.Truthy() ==> r == GpaLabel + numberText(gpa.value)
    ensures gpa.Some? && !gpa.value.Truthy() ==> r == numberText(gpa.value)
  {
    match gpa
    case None => ""
    case Some(g) => if g.Truthy() then GpaLabel + numberText(g) else numberText(g)
  }

  /** A GPA of zero shows a stray "0" after the dates. */
  lemma ZeroGpaShowsStrayText(numberText: JsNumber -> string)
    requires numberText(Finite(0.0)) == "0"
    ensures GpaSuffixAsWritten(Some(Finite(0.0)), numberText) == "0"
  {
  }

  /** The GPA suffix as intended: present exactly when the GPA is truthy. */
  function GpaSuffix(gpa: Option<JsNumber>, numberText: JsNumber -> string): (r: string)
    ensures gpa.Some? && gpa.value.Truthy() ==> r == GpaLabel + numberText(gpa.value)
    ensures r == "" <==> !(gpa.Some? && gpa.value.Truthy())
  {
    if gpa.Some? && gpa.value.Truthy() then GpaLabel + numberText(gpa.value) else ""
  }

  /** Where the GPA is missing or truthy, the intended suffix is what the component shows. */
  lemma GpaSuffixAgrees(gpa: Option<JsNumber>, numberText: JsNumber -> string)
    requires gpa.None? || gpa.value.Truthy()
    ensures GpaSuffix(gpa, numberText) == GpaSuffixAsWritten(gpa, numberText)
  {
  }

  /** `index === 0 ? 'Website' : ' '` beside each website, linked as `Href`. */
  function WebsiteRows(sites: seq<string>): (r: seq<WebsiteRow>)
    ensures |r| == |sites|
    ensures forall i | 0 <= i < |sites| ::
      r[i] == WebsiteRow(if i == 0 then "Website" else " ", Link(sites[i], Href(sites[i])))
  {
    seq(|sites|, i requires 0 <= i < |sites| =>
      WebsiteRow(if i == 0 then "Website" else " ", Link(sites[i], Href(sites[i]))))
  }

  /**
   * The contact block: name, email and phone read "Not provided" when empty
   * (their link targets are built from the raw value all the same); LinkedIn
   * appears only when truthy; every LinkedIn and website link leads to an
   * "http" address ending in the value shown.
   */
  function ContactOf(info: Resume): (r: Contact)
    ensures r.name == OrNotProvided(info.name)
    ensures r.email.text == OrNotProvided(info.email) && r.phone.text == OrNotProvided(info.phone)
    ensures r.name != "" && r.email.text != "" && r.phone.text != ""
    ensures r.email.href == "mailto:" + info.email && r.phone.href == "tel:" + info.phone
    ensures r.linkedin.Some? <==> Present(info.linkedin)
    ensures r.linkedin.Some? ==>
      && r.linkedin.value == Link(info.linkedin.value, Href(info.linkedin.value))
      && StartsWith(r.linkedin.value.href, "http") && EndsWith(r.linkedin.value.href, info.linkedin.value)
    ensures r.websites == WebsiteRows(info.websites)
    ensures |r.websites| == |info.websites|
    ensures forall k | 0 <= k < |r.websites| ::
      r.websites[k].link.text == info.websites[k]
      && StartsWith(r.websites[k].link.href, "http") && EndsWith(r.websites[k].link.href, info.websites[k])
  {
    Contact(
      name := OrNotProvided(info.name),
      email := Link(OrNotProvided(info.email), "mailto:" + info.email),
      phone := Link(OrNotProvided(info.phone), "tel:" + info.phone),
      linkedin := if Present(info.linkedin) then Some(Link(info.linkedin.value, Href(info.linkedin.value))) else None,
      websites := WebsiteRows(info.websites))
  }

  /** A work card: position and company as given, the date range, and the summary only when non-empty. */
  function WorkCardOf(w: Work, format: string -> string): (r: WorkCard)
    ensures r.position == w.position && r.company == w.company
    ensures r.dates == DateRange(w.startDate, w.endDate, format)
    ensures r.summary.Some? <==> w.summary != ""
    ensures r.summary.Some? ==> r.summary.value == w.summary
  {
    WorkCard(w.position, w.company, DateRange(w.startDate, w.endDate, format),
      if w.summary != "" then Some(w.summary) else None)
  }

  /**
   * An education card: the heading, the location only when truthy, the date
   * range, and the GPA suffix only for a truthy GPA.
   */
  function EducationCardOf(e: Education, format: string -> string, numberText: JsNumber -> string): (r: EducationCard)
    ensures r.heading == EducationHeading(e.degree, e.institution)
    ensures e.institution != "" ==> r.heading != ""
    ensures r.location.Some? <==> Present(e.location)
    ensures r.location.Some? ==> r.location == e.location
    ensures r.dates == DateRange(e.startDate, e.endDate, format)
    ensures r.gpa == GpaSuffix(e.gpa, numberText)
    ensures r.gpa != "" <==> e.gpa.Some? && e.gpa.value.Truthy()
  {
    EducationCard(
      EducationHeading(e.degree, e.institution),
      if Present(e.location) then e.location else None,
      DateRange(e.startDate, e.endDate, format),
      GpaSuffix(e.gpa, numberText))
  }

  /** A list section is shown iff its list is non-empty. */
  function ListSection<T>(xs: seq<T>): (r: Option<seq<T>>)
    ensures r.Some? <==> |xs| > 0
    ensures r.Some? ==> r.value == xs
  {
    if |xs| > 0 then Some(xs) else None
  }

  /**
   * The pane for `info` (nothing at all when there is none): the contact
   * block always; summary and LinkedIn only when truthy; work, education,
   * skills, languages and certifications only when their list is non-empty,
   * with one card or item per entry in order.
   */
  function Render(info: Option<Resume>, format: string -> string, numberText: JsNumber -> string): (r: Option<View>)
    ensures r.None? <==> info.None?
    ensures info.Some? ==>
      var i := info.value; var v := r.value;
      && (v.summary.Some? <==> Present(i.summary))
      && (v.summary.Some? ==> v.summary == i.summary)
      && (v.contact.linkedin.Some? <==> Present(i.linkedin))
      && (v.work.Some? <==> |i.work| > 0)
      && (v.education.Some? <==> |i.education| > 0)
      && (v.skills.Some? <==> |i.skills| > 0)
      && (v.languages.Some? <==> |i.languages| > 0)
      && (v.certifications.Some? <==> |i.certifications| > 0)
      && (v.work.Some? ==>
            && |v.work.value| == |i.work|
            && forall k | 0 <= k < |i.work| :: v.work.value[k] == WorkCardOf(i.work[k], format))
      && (v.education.Some? ==>
            && |v.education.value| == |i.education|
            && forall k | 0 <= k < |i.education| ::
                 v.education.value[k] == EducationCardOf(i.education[k], format, numberText))
      && (v.skills.Some? ==> v.skills.value == i.skills)
      && (v.languages.Some? ==> v.languages.value == i.languages)
      && (v.certifications.Some? ==> v.certifications.value == i.certifications)
      && v.contact == ContactOf(i)
  {
    match info
    case None => None
    case Some(i) =>
      Some(View(
        contact := ContactOf(i),
        summary := if Present(i.summary) then i.summary else None,
        work := ListSection(seq(|i.work|, k requires 0 <= k < |i.work| => WorkCardOf(i.work[k], format))),
        education := ListSection(seq(|i.education|, k requires 0 <= k < |i.education| =>
          EducationCardOf(i.education[k], format, numberText))),
        skills := ListSection(i.skills),
        languages := ListSection(i.languages),
        certifications := ListSection(i.certifications)))
  }

  /**
   * For a record the normaliser produced: the name, email and phone never
   * read "Not provided" (the sentinels fill them), and every education
   * heading is non-empty.
   */
  lemma NormalisedContact(d: RawDocument, format: string -> string, numberText: JsNumber -> string)
    ensures var info := Transform(d);
      var v := Render(Some(info), format, numberText).value;
      && v.contact.name == info.name && v.contact.email.text == info.email && v.contact.phone.text == info.phone
      && (v.education.Some? ==> forall k | 0 <= k < |v.education.value| :: v.education.value[k].heading != "")
  {
    var info := Transform(d);
    TransformShape(d);
    var v := Render(Some(info), format, numberText).value;
    if v.education.Some? {
      forall k | 0 <= k < |v.education.value|
        ensures v.education.value[k].heading != ""
      {
        assert v.education.value[k] == EducationCardOf(info.education[k], format, numberText);
      }
    }
  }

  /**
   * For a record the normaliser produced, the work and education sections
   * appear exactly when the parsed document had such entries.
   */
  lemma NormalisedSections(d: RawDocument, format: string -> string, numberText: JsNumber -> string)
    ensures var src := SourceRecord(d);
      var v := Render(Some(Transform(d)), format, numberText).value;
      && (v.work.Some? <==> |src.workExperience.GetOr([])| > 0)
      && (v.education.Some? <==> |src.education.GetOr([])| > 0)
  {
  }

  /**
   * For a record the normaliser produced, the skills and languages sections
   * appear exactly when some entry of the parsed list had a non-empty value.
   */
  lemma NormalisedEntrySections(d: RawDocument, format: string -> string, numberText: JsNumber -> string)
    ensures var src := SourceRecord(d);
      var v := Render(Some(Transform(d)), format, numberText).value;
      && (v.skills.Some? <==> exists k | 0 <= k < |src.skills.GetOr([])| :: EntryValue(src.skills.GetOr([])[k]) != "")
      && (v.languages.Some? <==> exists k | 0 <= k < |src.languages.GetOr([])| :: EntryValue(src.languages.GetOr([])[k]) != "")
  {
    var src := SourceRecord(d);
    EntryNamesNonEmpty(src.skills);
    EntryNamesNonEmpty(src.languages);
  }
}
