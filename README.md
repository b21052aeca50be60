# Resume extractor: a Dafny model

This project models the logic of a small web application. The application takes an uploaded PDF or DOCX resume, sends it to a remote parsing service, and normalises what the service returns into one canonical record. It then shows that record beside a preview of the file.

The model covers five parts:

- **The normaliser** (`transformAffindaData`, module `Normalizer`). This is a pure mapping from the service's loosely typed document to the canonical record:
  - every field is resolved by the first truthy candidate, falling back to a fixed sentinel;
  - a name can be a string or a structured object;
  - skills and languages can be strings or objects, and empty values are dropped.
- **The remote parse client** (`parseResumeWithAffinda`, module `ParseClient`):
  - three submission checks: the key, the upload reply and the document identifier;
  - a bounded polling loop, modelled as a `while` loop over the sequence of answers the service gives to the status requests.
- **The upload endpoint** (`POST`, module `UploadRoute`). It is modelled as a method from the form, the environment, the request's UUID and the service's answers to a status code, a JSON envelope and the effects (files written, requests sent, waits, scratch-file deletion).
- **The home page** (module `HomePage`):
  - the highlight list built from a processed upload;
  - the page state, modelled as a class whose fields the two handlers update.
- **The result pane** (module `InfoDisplay`). It is modelled as the view it renders: which sections appear, and the texts and link targets inside them.

Two more modules support these:

- `JsText` gives the JavaScript semantics the code relies on:
  - truthiness of possibly-undefined strings;
  - `||` chains;
  - `filter(Boolean)` followed by `join`;
  - `trim` over the ECMAScript WhiteSpace and LineTerminator characters;
  - `startsWith` and `endsWith`;
  - `toLowerCase`;
  - the decimal rendering of a status code.
- `Wrappers` defines `Option` and `Result`.

The model does no input or output. The network becomes parameters:

- what the submission led to: a reply, or a network error with its message (`Submission`);
- one `PollOutcome` per status request, where `Transient` stands for a request or a JSON decoding that threw;
- a wait counter.

The filesystem becomes the `Effects` record. The UUID and the environment variable are parameters. The locale date formatting and the number-to-text rendering are function parameters of the view.

Where the code differs from the application's documented behaviour, or settles a detail the documentation leaves open, the model follows the code:

- **A failed document does not end polling.** A status reply flagged `meta.failed` throws inside the loop's own `try` and is caught there (lib/affinda.ts:139-145), so the reply only uses up an attempt. `ParseClient.FailedLikeTransient` proves that such a reply has the same effect as a request lost in transit.
- **On a timeout the scratch copy stays on disk.** The code deletes it only on the success path (app/api/upload/route.ts:139). Every failure path leaves it in place.
- **A timeout takes 15 waits.** A wait follows every status request that was not ready, the 15th included, before the timeout error is raised.
- **The key is checked twice.** The endpoint checks the environment at request time (route.ts:81). The parse client also checks the value it read when the module was loaded (affinda.ts:1, 69). The two are separate inputs (`Environment.keyAtRequest`, `Environment.keyAtLoad`).

## Model

| member | source | states |
|---|---|---|
| `JsText.FirstTruthy` | lib/affinda.ts:99 | A chain of logical ors yields a truthy candidate, and every earlier candidate is falsy. It yields nothing iff no candidate is truthy. |
| `JsText.FirstTruthyPicksFirst` | lib/affinda.ts:200 | Conversely: when candidate i is the first truthy one, the chain yields exactly candidate i. |
| `JsText.Compact` | lib/affinda.ts:180 | `filter(Boolean)` keeps no empty string and keeps the order of the rest (a subsequence). Every non-empty value occurs exactly as often as in the input. The result is empty iff every input is "". |
| `JsText.JoinCompactEmpty` | lib/affinda.ts:174-182 | The joined truthy parts are "" exactly when every part is "". |
| `JsText.JoinTwo` | app/page.tsx:56 | For two parts, the filtered join is `a + sep + b`, `a` alone or `b` alone, according to which parts are empty. |
| `JsText.JoinBlank` | lib/affinda.ts:180-182 | Joining with a blank separator gives a blank string iff every part is blank. |
| `JsText.CompactBlank` | lib/affinda.ts:180-182 | Dropping the empty parts does not change whether all parts are blank. |
| `JsText.TrimStart` | lib/affinda.ts:182 | The result is a suffix of the input and does not start with whitespace; only whitespace was removed. |
| `JsText.TrimEnd` | lib/affinda.ts:182 | The result is a prefix of the input and does not end with whitespace; only whitespace was removed. |
| `JsText.Trim` | lib/affinda.ts:182 | The result is an infix of the input with only whitespace outside it, and it neither starts nor ends with whitespace. It is "" iff the input is all whitespace. |
| `JsText.ToLower` | app/api/upload/route.ts:93 | Lower-casing keeps the length and maps each character by itself. |
| `JsText.ToLowerSuffix` | app/api/upload/route.ts:93 | Lower-casing commutes with taking a suffix, so the extension test depends only on the last characters. |
| `JsText.NatToDecimal` | lib/affinda.ts:99 | A status code is rendered as decimal digits with no leading zero. |
| `JsText.DecimalRoundTrip` | lib/affinda.ts:99 | Reading the rendered digits back gives the number. |
| `Normalizer.SourceRecord` | lib/affinda.ts:166 | The nested `data` record is used when present, else the document itself. |
| `Normalizer.ResolveName` | lib/affinda.ts:169-184 | The resolved name is never empty. |
| `Normalizer.FirstOfTwo` | lib/affinda.ts:200-201 | The logical or of `a` and `b` gives `a` if truthy, else `b` if truthy, else nothing. |
| `Normalizer.NameResolution` | lib/affinda.ts:169-184 | The three cases. A non-empty string name is kept verbatim. A structured name is its non-empty parts in the order title, first, middle, last, joined by spaces and trimmed; when those parts are all blank, `raw` is used, then "Name not found". No name or "" gives "Name not found". |
| `Normalizer.NameFirstLast` | lib/affinda.ts:174-182 | A name with only a first and a last part reads "first last". |
| `Normalizer.PrimaryContact` | lib/affinda.ts:187-196 | A truthy scalar wins. Otherwise the alternatives' first entry is used if non-empty. Otherwise the sentinel is used, also when that first entry is "" and later entries are not. The result is never empty. |
| `Normalizer.ResolveLocation` | lib/affinda.ts:205-207 | A string location is kept; an object location gives its `raw`. |
| `Normalizer.NormalizeEducation` | lib/affinda.ts:199-208 | The institution is organization, else institution, else "Unknown Institution", and is never empty. The degree is degree, else area. Dates and GPA pass through unchanged. |
| `Normalizer.NormalizeWork` | lib/affinda.ts:211-217 | The company is organization, else company, else "Unknown Company". The position is jobTitle, else position, else "Position not specified". The summary is summary, else description, else "". |
| `Normalizer.NormalizeEducationList` | lib/affinda.ts:199 | Same length as the input list; entry i is the normalised input entry i. |
| `Normalizer.NormalizeWorkList` | lib/affinda.ts:211 | Same length as the input list; entry i is the normalised input entry i. |
| `Normalizer.EntryValues` | lib/affinda.ts:220-221 | One value per entry, in order: a string entry as is, an object's `name` or "". |
| `Normalizer.EntryNames` | lib/affinda.ts:220-227 | Skills and languages hold no empty string and form an order-preserving subsequence of the entry values. Every non-empty value is kept as often as it occurs. A missing list gives []. |
| `Normalizer.EntryNamesNonEmpty` | lib/affinda.ts:220-227 | The skill or language list is non-empty iff some entry has a non-empty value. |
| `Normalizer.Transform` | lib/affinda.ts:163-258 | Each field of the record is given by its own resolution rule, applied to the source record. |
| `Normalizer.TransformShape` | lib/affinda.ts:169-227 | Name, email and phone are never empty. The education and work lists have the input lists' lengths and are [] when those are missing. Skills and languages hold no "" and are no longer than their inputs. Institutions, companies and positions are never empty. |
| `Normalizer.TransformDefaults` | lib/affinda.ts:235-252 | `rawText` falls back from rawText to fullText to "". `websites` and `certifications` default to []. linkedin, summary and dateOfBirth are copied unchanged. |
| `Normalizer.EmailPrecedence` | lib/affinda.ts:187-190 | The scalar email wins over the array. Only the array's first entry is ever consulted. |
| `ParseClient.DocumentId` | lib/affinda.ts:103 | The identifier is the top-level one if truthy, else the nested one, else none. |
| `ParseClient.UploadFailureMessage` | lib/affinda.ts:98-100 | "Failed to upload document: <status> - ", followed by detail, else message, else statusText, else "Unknown error". |
| `ParseClient.Classify` | lib/affinda.ts:135-141 | A lost request or undecodable body is `Lost`. A reply is `Ready` iff it is ok and flagged ready or has status "success". Otherwise it is `Failed` iff `meta.failed`, with "Document processing failed: " and the error detail or "Unknown error"; else `Pending`. |
| `ParseClient.FirstReady` | lib/affinda.ts:116-149 | The index it returns is below 15, its attempt is ready, and no earlier attempt was. When it returns none, no attempt below 15 is ready. |
| `ParseClient.Poll` | lib/affinda.ts:112-153 | At most 15 status requests. The first ready reply is the result, and no request follows it. Every earlier attempt was not ready, and one wait followed each of them. Without a ready reply the result is "Document processing timed out after 15 attempts", after 15 requests and 15 waits. The run equals `PollSpec`. |
| `ParseClient.PollSpec` | lib/affinda.ts:112-153 | The reference definition of a polling run: the first ready attempt below 15 and its body after one wait per earlier attempt, or the timeout message after 15 requests and 15 waits. Its properties are stated by `PollBounds`. |
| `ParseClient.TimeoutMessageValue` | lib/affinda.ts:152 | The timeout message reads "Document processing timed out after 15 attempts". |
| `ParseClient.PollBounds` | lib/affinda.ts:112-153 | Every run makes 1 to 15 requests. It succeeds iff some attempt among the first 15 is ready; the result is then the first ready body, after one wait per earlier attempt. Otherwise the run ends with the timeout message after 15 requests and 15 waits. All the waits together are at most 15 × 3000 ms. |
| `ParseClient.FirstReadySameReadiness` | lib/affinda.ts:134-141 | The polling result depends only on which attempts are ready. |
| `ParseClient.FailedLikeTransient` | lib/affinda.ts:139-145 | Replacing a `meta.failed` reply by a lost request leaves the polling run unchanged. |
| `ParseClient.ReadyOnThirdAttempt` | lib/affinda.ts:116-148 | Two pending replies and then a ready one: 3 status requests, 2 waits (6000 ms), and the third body is the result. |
| `ParseClient.StatusRequests` | lib/affinda.ts:121 | Every status request asks for the same document URL. |
| `ParseClient.ParseSpec` | lib/affinda.ts:68-161 | The reference definition of a client run: no request without a key; one POST and the network error's message when the submission gets no reply; one POST and the upload-failure or no-identifier message; otherwise the POST, one GET of the document URL per polling attempt, and the polling result. |
| `ParseClient.NoReadyTimesOut` | lib/affinda.ts:151-153 | Without a ready reply among the first 15, the client fails with the timeout message after 1 + 15 requests and 15 waits. |
| `ParseClient.ParseResume` | lib/affinda.ts:68-161 | A missing key fails before any request. A submission whose `fetch` rejects fails with the network error's message after the single POST, since the outer catch rethrows it unchanged. A rejected upload or a missing identifier fails after the single POST. Otherwise the polling run decides the result and the waits, and every status request asks for the identifier received. |
| `UploadRoute.Accepted` | app/api/upload/route.ts:93 | A name is accepted when it ends in ".pdf" or ".docx" after lower-casing; an accepted name has at least four characters. |
| `UploadRoute.AcceptedByExtension` | app/api/upload/route.ts:93 | A name is accepted iff its last four characters lower-case to ".pdf" or its last five to ".docx". |
| `UploadRoute.TextFileRefused` | app/api/upload/route.ts:93-98 | "resume.txt" is refused. |
| `UploadRoute.CaseInsensitiveExtensions` | app/api/upload/route.ts:93 | ".PDF" and ".DocX" are accepted. |
| `UploadRoute.StoredName` | app/api/upload/route.ts:103 | The stored name is the UUID, then a dash, then the uploaded name, and splits back into those parts. |
| `UploadRoute.StoredNameInjective` | app/api/upload/route.ts:103 | `uuid-name` stored names of equal-length UUIDs coincide iff both parts do. The stored name ends with the uploaded name and keeps its acceptance. |
| `UploadRoute.Post` | app/api/upload/route.ts:76-171 | The status is 200, 400 or 500, and it is 200 iff the envelope is a success. The checks run in order: form, then key, then file, then extension. A refusal writes and sends nothing. A parse error or a result without `data` gives 500 with "Failed to parse resume: …" and leaves the scratch copy on disk. Success gives the `/uploads/` URL and the normalised record. Deletion is attempted iff the status is 200, and a failed deletion does not change the answer. |
| `UploadRoute.LostSubmissionAnswer` | app/api/upload/route.ts:127-155 | A submission that gets no reply is answered 500 with "Failed to parse resume: " and the network error's message, after one POST and no wait, and the scratch copy stays. |
| `UploadRoute.ParseStored` | app/api/upload/route.ts:125-156 | After validation, both copies are written and the client runs. Each client outcome maps to its envelope. Only success attempts the deletion. The permanent copy always stays on disk, and no file other than the two copies is ever left there. |
| `HomePage.EducationHighlight` | app/page.tsx:55-57 | "institution - degree", or whichever one is non-empty. |
| `HomePage.WorkHighlight` | app/page.tsx:58-60 | "company - position", or whichever one is non-empty. |
| `HomePage.EducationHighlights` | app/page.tsx:55-57 | One highlight per education entry, in order. |
| `HomePage.WorkHighlights` | app/page.tsx:58-60 | One highlight per work entry, in order. |
| `HomePage.DropEmpty` | app/page.tsx:61 | No kept highlight is empty. The rest form a subsequence, so they keep their order, and each keeps its multiplicity. Nothing is dropped when nothing is empty. |
| `HomePage.HighlightList` | app/page.tsx:51-61 | The list is name, email, phone, then the education and work highlights (a missing list giving none), with the empty ones removed exactly as `DropEmpty` states. |
| `HomePage.Highlights` | app/page.tsx:51-61 | The highlights of a record: none is empty, and there are at most 3 + education + work. |
| `HomePage.MissingListsContributeNothing` | app/page.tsx:55-60 | Missing education and work lists contribute no highlights. |
| `HomePage.AllHighlightsKept` | app/page.tsx:51-61 | When no headline value is empty, the highlights are name, email, phone, then one per education entry, then one per work entry: 3 + education + work in all. |
| `HomePage.NormalisedHighlights` | app/page.tsx:51-61 | Every record the normaliser produces keeps all 3 + education + work highlights. |
| `HomePage.Home.constructor` | app/page.tsx:44-45 | The page starts with no data and no highlights, showing the upload form. |
| `HomePage.Home.HandleFileProcessed` | app/page.tsx:47-64 | Stores the data, sets the highlights computed from it, and leaves the form. |
| `HomePage.Home.UploadAnother` | app/page.tsx:78-90 | Clears the data, so the form shows again; the highlights are kept. |
| `InfoDisplay.Href` | app/components/InfoDisplay.tsx:75 | A value starting with "http" is unchanged; any other value gets "https://" in front. The target always starts with "http" and ends with the value. |
| `InfoDisplay.HrefIdempotent` | app/components/InfoDisplay.tsx:90 | Normalising a link target twice changes nothing more. |
| `InfoDisplay.OrNotProvided` | app/components/InfoDisplay.tsx:57 | An empty value shows "Not provided", any other value is shown as is; never empty. |
| `InfoDisplay.FormatDate` | app/components/InfoDisplay.tsx:38-42 | An empty or absent date reads "Present"; any other date gets the locale rendering. |
| `InfoDisplay.DateRange` | app/components/InfoDisplay.tsx:125 | Exactly the formatted start (nothing when it is absent or empty), " - ", then the formatted end, or "Present" when it is absent or empty. The prefix, the suffix and the length pin the text. |
| `InfoDisplay.EducationHeading` | app/components/InfoDisplay.tsx:147 | "degree, institution", or whichever part is non-empty; "" only when both are empty. |
| `InfoDisplay.GpaSuffixAsWritten` | app/components/InfoDisplay.tsx:155 | As written: nothing for a missing GPA, the label and the number for a truthy one, and the bare number for a falsy one (0 or NaN). |
| `InfoDisplay.ZeroGpaShowsStrayText` | app/components/InfoDisplay.tsx:155 | As written, a GPA of 0 displays a stray "0" after the dates. |
| `InfoDisplay.GpaSuffix` | app/components/InfoDisplay.tsx:155 | The label and the number appear exactly when the GPA is truthy. |
| `InfoDisplay.GpaSuffixAgrees` | app/components/InfoDisplay.tsx:155 | For a missing or truthy GPA, the corrected suffix is what the code displays. |
| `InfoDisplay.WebsiteRows` | app/components/InfoDisplay.tsx:84-98 | One row per website. Only the first is captioned "Website", the others " ", and each links to its normalised target. |
| `InfoDisplay.ContactOf` | app/components/InfoDisplay.tsx:55-98 | Name, email and phone show their value, or "Not provided" when it is empty, so they are never empty. The mailto: and tel: targets use the raw value. LinkedIn shows iff truthy, linked to its `Href` target. The website rows are `WebsiteRows` of the list. Every LinkedIn and website link leads to an "http" target ending in the shown value. |
| `InfoDisplay.WorkCardOf` | app/components/InfoDisplay.tsx:117-131 | Position and company as given, the date range, and the summary only when non-empty. |
| `InfoDisplay.EducationCardOf` | app/components/InfoDisplay.tsx:142-158 | The heading (non-empty whenever the institution is), the location only when truthy, the date range, and the corrected GPA suffix `GpaSuffix`: the label and number for a truthy GPA, nothing otherwise. |
| `InfoDisplay.ListSection` | app/components/InfoDisplay.tsx:111 | A list section shows iff its list is non-empty, and it shows the whole list. |
| `InfoDisplay.Render` | app/components/InfoDisplay.tsx:35-212 | No info renders nothing. Summary and LinkedIn show iff truthy, the summary with its own text. Work, education, skills, languages and certifications show iff non-empty, with one card or item per entry in order. |
| `InfoDisplay.NormalisedContact` | app/components/InfoDisplay.tsx:55-70 | For a normalised record, name, email and phone never read "Not provided", and every education heading is non-empty. |
| `InfoDisplay.NormalisedSections` | app/components/InfoDisplay.tsx:111-138 | For a normalised record, the work and education sections show iff the parsed lists were non-empty. |
| `InfoDisplay.NormalisedEntrySections` | app/components/InfoDisplay.tsx:165-182 | For a normalised record, the skills and languages sections show iff some parsed entry had a non-empty value. |

## Left out

- The network: `fetch`, `FormData`, headers and bearer credentials. Replies are inputs. A reply that cannot be decoded as JSON is `Transient` for a status request and an all-missing body for the submission.
- The 3000 ms pause: it is a wait counter, and elapsed time is waits × `PollIntervalMs`.
- Console logging, everywhere.
- The filesystem: `mkdir` and `existsSync` of the two directories, write failures, and `path.join` normalisation. Paths are modelled as `public/uploads/` and `temp/` followed by the stored name.
- `randomUUID` and `process.env`: they are parameters.
- The route segment exports (`dynamic`, `maxDuration`, `fetchCache`, `runtime`), and the platform's request timeout.
- Next.js request and response objects: a response is reduced to a status and an envelope.
- The `details` field of the parse-failure envelope: it is present only in development mode, and only echoes the caught error.
- A thrown value that is not an `Error`, which would give "Unknown error" or "An unknown error occurred". Every failure in the model carries a message.
- A `resume` form field sent as a string instead of a file. Its `.name` is `undefined`, and the TypeError that `.toLowerCase()` then throws is not modelled.
- The TypeErrors inside `transformAffindaData`. Its catch path, "Failed to transform resume data: …", needs a list that is not an array or a null entry. The typed input cannot represent either, so `Transform` is total.
- JS numbers: `gpa` is passed through, and only its truthiness is inspected (`JsNumber`). Its textual rendering is the `numberText` parameter.
- `toLocaleDateString`: it is the `format` parameter of the view. Only the "Present" rule is modelled.
- `JsText.ToLower`: it lower-cases ASCII letters only and keeps the length, where JavaScript applies the full Unicode mapping (which lengthens U+0130). For the extension test the verdict is still exact: no non-ASCII character lower-cases to one of the letters of ".pdf" or ".docx", and `AcceptedByExtension` shows the test reads only the final characters.
- `InfoDisplay.EducationCardOf`: it builds the card with the corrected GPA suffix `GpaSuffix` rather than the displayed one, `GpaSuffixAsWritten` (see Findings).
- `InfoDisplay.Render`: it uses the corrected GPA suffix `GpaSuffix` rather than the displayed one (see Findings). It also takes `websites` as a list that is always present, because the normaliser defaults it to [].
- `HomePage.Home.HandleFileProcessed`: it takes typed data. The page accepts `any`, and data of another shape would throw.
- JSX markup, CSS classes and React rendering mechanics.
- The upload widget, the PDF preview (browser I/O), the regex-based PDF text parser (not called by the endpoint), the Express and HTTP stub servers, the image loader and the Next.js configuration. None of these is part of this model.

## Findings

| source | as written | input that shows it | evidently intended | confidence | as-written member | corrected member |
|---|---|---|---|---|---|---|
| app/components/InfoDisplay.tsx:155 | `{edu.gpa && …}` evaluates to the GPA itself when the GPA is a falsy number, and React renders that number | an education entry with `gpa: 0` shows "0" after its date range (and `NaN` shows "NaN") | the suffix appears only for a truthy GPA, and nothing appears otherwise | not executed | `InfoDisplay.GpaSuffixAsWritten`, `InfoDisplay.ZeroGpaShowsStrayText` | `InfoDisplay.GpaSuffix` |
