/**
 * The home page of app/page.tsx: the highlight list built from a processed
 * upload, and the page state that switches between the upload form and the
 * two-pane result view.
 */
module HomePage {
  import opened Wrappers
  import opened JsText
  import opened Normalizer

  datatype Highlight = Highlight(text: string)

  /** What the page receives once an upload has been processed. */
  datatype ExtractedData = ExtractedData(fileUrl: string, extractedInfo: Resume)

  /** `[institution, degree].filter(Boolean).join(' - ')`. */
  function EducationHighlight(e: Education): (r: Highlight)
    ensures e.institution != "" && Present(e.degree) ==> r.text == e.institution + " - " + e.degree.value
    ensures e.institution != "" && !Present(e.degree) ==> r.text == e.institution
    ensures e.institution == "" ==> r.text == e.degree.GetOr("")
  {
    JoinTwo(e.institution, e.degree.GetOr(""), " - ");
    Highlight(Join(Compact([e.institution, e.degree.GetOr("")]), " - "))
  }

  /** `[company, position].filter(Boolean).join(' - ')`. */
  function WorkHighlight(w: Work): (r: Highlight)
    ensures w.company != "" && w.position != "" ==> r.text == w.company + " - " + w.position
    ensures w.company != "" && w.position == "" ==> r.text == w.company
    ensures w.company == "" ==> r.text == w.position
  {
    JoinTwo(w.company, w.position, " - ");
    Highlight(Join(Compact([w.company, w.position]), " - "))
  }

  function EducationHighlights(es: seq<Education>): (r: seq<Highlight>)
    ensures |r| == |es| && forall i | 0 <= i < |es| :: r[i] == EducationHighlight(es[i])
  {
    if es == [] then [] else [EducationHighlight(es[0])] + EducationHighlights(es[1..])
  }

  function WorkHighlights(ws: seq<Work>): (r: seq<Highlight>)
    ensures |r| == |ws| && forall i | 0 <= i < |ws| :: r[i] == WorkHighlight(ws[i])
  {
    if ws == [] then [] else [WorkHighlight(ws[0])] + WorkHighlights(ws[1..])
  }

  /** No highlight in `hs` has empty text. */
  predicate NoneEmpty(hs: seq<Highlight>) {
    forall i | 0 <= i < |hs| :: hs[i].text != ""
  }

  /** `.filter(h => h.text)`: the highlights with non-empty text, in their order. */
  function DropEmpty(hs: seq<Highlight>): (r: seq<Highlight>)
    ensures DropsEmpty(hs, r)
  {
    if hs == [] then []
    else
      var rest := DropEmpty(hs[1..]);
      DropEmptyStep(hs, rest);
      if hs[0].text == "" then rest else [hs[0]] + rest
  }

  /**
   * `r` is `hs` with the empty highlights removed: none of its highlights is
   * empty, it is a subsequence of `hs`, every non-empty highlight keeps its
   * count, and nothing is removed when nothing is empty.
   */
  ghost predicate DropsEmpty(hs: seq<Highlight>, r: seq<Highlight>) {
    && |r| <= |hs|
    && NoneEmpty(r)
    && IsSubsequence(r, hs)
    && (forall h: Highlight | h.text != "" :: multiset(r)[h] == multiset(hs)[h])
    && (NoneEmpty(hs) ==> r == hs)
  }

  /** One step of `DropEmpty`: keeping a non-empty head, dropping an empty one. */
  lemma DropEmptyStep(hs: seq<Highlight>, rest: seq<Highlight>)
    requires |hs| > 0 && DropsEmpty(hs[1..], rest)
    ensures DropsEmpty(hs, if hs[0].text == "" then rest else [hs[0]] + rest)
  {
    StepCounts(hs, rest);
    StepOrder(hs, rest);
    StepNoneEmpty(hs, rest);
  }

  lemma StepNoneEmpty(hs: seq<Highlight>, rest: seq<Highlight>)
    requires |hs| > 0 && NoneEmpty(rest) && (NoneEmpty(hs[1..]) ==> rest == hs[1..])
    ensures var r := if hs[0].text == "" then rest else [hs[0]] + rest;
      NoneEmpty(r) && (NoneEmpty(hs) ==> r == hs)
  {
    if hs[0].text != "" {
      var r := [hs[0]] + rest;
      assert forall i | 1 <= i < |r| :: r[i] == rest[i - 1];
      if NoneEmpty(hs) {
        assert NoneEmpty(hs[1..]) by {
          forall i | 0 <= i < |hs[1..]| ensures hs[1..][i].text != "" {
            assert hs[1..][i] == hs[i + 1];
          }
        }
        assert hs == [hs[0]] + hs[1..];
      }
    } else {
      assert !NoneEmpty(hs);
    }
  }

  lemma StepCounts(hs: seq<Highlight>, rest: seq<Highlight>)
    requires |hs| > 0
    requires forall h: Highlight | h.text != "" :: multiset(rest)[h] == multiset(hs[1..])[h]
    ensures forall h: Highlight | h.text != "" ::
      multiset(if hs[0].text == "" then rest else [hs[0]] + rest)[h] == multiset(hs)[h]
  {
    assert hs == [hs[0]] + hs[1..];
    assert multiset(hs) == multiset{hs[0]} + multiset(hs[1..]);
    assert multiset([hs[0]] + rest) == multiset{hs[0]} + multiset(rest);
  }

  lemma StepOrder(hs: seq<Highlight>, rest: seq<Highlight>)
    requires |hs| > 0 && IsSubsequence(rest, hs[1..])
    ensures IsSubsequence(if hs[0].text == "" then rest else [hs[0]] + rest, hs)
  {
    assert ([hs[0]] + rest)[1..] == rest;
  }

  /**
   * The highlights of `handleFileProcessed`: name, email and phone, then one
   * per education entry, then one per work entry, with the empty ones
   * removed. A missing list contributes nothing.
   */
  function HighlightList(name: string, email: string, phone: string,
                         education: Option<seq<Education>>, work: Option<seq<Work>>): (r: seq<Highlight>)
    ensures DropsEmpty([Highlight(name), Highlight(email), Highlight(phone)]
      + EducationHighlights(education.GetOr([])) + WorkHighlights(work.GetOr([])), r)
  {
    DropEmpty([Highlight(name), Highlight(email), Highlight(phone)]
      + EducationHighlights(education.GetOr([]))
      + WorkHighlights(work.GetOr([])))
  }

  /** The highlights of a processed record: none is empty, and there are at most 3 + |education| + |work|. */
  function Highlights(info: Resume): (r: seq<Highlight>)
    ensures NoneEmpty(r)
    ensures |r| <= 3 + |info.education| + |info.work|
  {
    HighlightList(info.name, info.email, info.phone, Some(info.education), Some(info.work))
  }

  /** A missing list behaves as an empty one. */
  lemma MissingListsContributeNothing(name: string, email: string, phone: string)
    ensures HighlightList(name, email, phone, None, None) ==
      DropEmpty([Highlight(name), Highlight(email), Highlight(phone)])
  {
    var head := [Highlight(name), Highlight(email), Highlight(phone)];
    assert EducationHighlights([]) == [] && WorkHighlights([]) == [];
    assert head + [] + [] == head;
  }

  /** The values the normaliser never leaves empty. */
  predicate NoEmptyHeadlines(info: Resume) {
    && info.name != "" && info.email != "" && info.phone != ""
    && (forall i | 0 <= i < |info.education| :: info.education[i].institution != "")
    && (forall i | 0 <= i < |info.work| :: info.work[i].company != "")
  }

  /**
   * When none of those values is empty nothing is dropped: the highlights
   * are name, email and phone, then one per education entry and one per work
   * entry in their order, 3 + |education| + |work| in all.
   */
  lemma AllHighlightsKept(info: Resume)
    requires NoEmptyHeadlines(info)
    ensures Highlights(info) ==
      [Highlight(info.name), Highlight(info.email), Highlight(info.phone)]
      + EducationHighlights(info.education) + WorkHighlights(info.work)
    ensures |Highlights(info)| == 3 + |info.education| + |info.work|
  {
    var head := [Highlight(info.name), Highlight(info.email), Highlight(info.phone)];
    var eh := EducationHighlights(info.education);
    var wh := WorkHighlights(info.work);
    forall i | 0 <= i < |eh| ensures eh[i].text != "" {
      assert eh[i] == EducationHighlight(info.education[i]);
    }
    forall i | 0 <= i < |wh| ensures wh[i].text != "" {
      assert wh[i] == WorkHighlight(info.work[i]);
    }
    NoneEmptyConcat(head, eh);
    NoneEmptyConcat(head + eh, wh);
  }

  /** Concatenating lists without empty highlights gives a list without empty highlights. */
  lemma NoneEmptyConcat(a: seq<Highlight>, b: seq<Highlight>)
    requires NoneEmpty(a) && NoneEmpty(b)
    ensures NoneEmpty(a + b)
  {
    forall i | 0 <= i < |a + b| ensures (a + b)[i].text != "" {
      if i < |a| { assert (a + b)[i] == a[i]; }
      else { assert (a + b)[i] == b[i - |a|]; }
    }
  }

  /** Every record the normaliser produces keeps all of its highlights. */
  lemma NormalisedHighlights(d: RawDocument)
    ensures NoEmptyHeadlines(Transform(d))
    ensures |Highlights(Transform(d))| == 3 + |Transform(d).education| + |Transform(d).work|
  {
    TransformShape(d);
    AllHighlightsKept(Transform(d));
  }

  /** The page: the processed upload, if any, and the highlights shown over the preview. */
  class Home {
    var extractedData: Option<ExtractedData>
    var highlights: seq<Highlight>

    /** The upload form is on screen exactly while no upload has been processed. */
    predicate ShowsUploadForm()
      reads this
    {
      extractedData.None?
    }

    constructor ()
      ensures extractedData == None && highlights == []
      ensures ShowsUploadForm()
    {
      extractedData := None;
      highlights := [];
    }

    /** `handleFileProcessed`: keep the data and compute its highlights. */
    method HandleFileProcessed(data: ExtractedData)
      modifies this
      ensures extractedData == Some(data)
      ensures highlights == Highlights(data.extractedInfo)
      ensures !ShowsUploadForm()
    {
      extractedData := Some(data);
      highlights := Highlights(data.extractedInfo);
    }

    /** "Upload Another Resume": back to the form; the highlights are left as they were. */
    method UploadAnother()
      modifies this
      ensures extractedData == None
      ensures highlights == old(highlights)
      ensures ShowsUploadForm()
    {
      extractedData := None;
    }
  }
}
