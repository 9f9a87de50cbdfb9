# SEC filing poller: a Dafny model of its ingestion core

The service polls the SEC's Atom feed of filings. Each poll sends a GET carrying
the conditional headers `If-None-Match` and `If-Modified-Since` for the
validators it holds. It takes the `ETag` and `Last-Modified` headers of
whatever response comes back. For a 200 response it reads the body as a stream
of XML events: it collects the title, the alternate link and the summary of each
`entry`, and hands one new `Filing` per entry to the store. The summary has
its character entities decoded by five literal replacements.

The project models:

- `Entity` (filing.dfy): the `Filing` record as a class with its six fields,
  two constructors, getters and setters, plus `Row`, a value snapshot of its
  fields.
- `JavaString` (java_string.dfy): the two library operations the core relies
  on.
  - `String.trim` removes every character up to U+0020 at both ends.
  - `String.replace` replaces literally, non-overlapping, left to right.
- `EntityDecode` (entity_decode.dfy): `decode`, as the composition of its
  five passes, with the round trip it achieves against escaping and the
  inputs where it does more than undo one escape.
- `AtomExtract` (atom_extract.dfy): the event loop of `parseAndSaveAsync`.
  - `Step` and `Run` are the reference definition of the loop: its five local
    variables become a `Scan` value, and a flag marks the reader's exception.
  - The class `EntryScanner` holds those variables and updates them in place,
    one event at a time.
  - `ParseAndSave` is the loop itself, proved to hand over exactly the rows of
    `Extract(events)`.
- `ExtractProperties` (extract_properties.dfy): what the loop guarantees over
  whole event streams.
  - Nothing comes from outside an entry, and at most one filing comes per end
    tag.
  - The last qualifying link wins.
  - White-space-only text is ignored.
  - Every link starts with the origin.
  - A well-formed feed of entries yields exactly the trimmed and decoded
    candidates, in order.
- `ConditionalRequest` (conditional.dfy): the validators.
  - Case-insensitive lookup of the first header with a given name.
  - The conditional request headers (sections 3.2 and 3.3 of RFC 7232).
  - How a response's headers replace the validators, each independently.
- `Service` (filing_service.dfy): the `FilingService` class with its two
  validator fields. The store is represented by the sequence of rows handed to
  it. `PollOnce` covers one request and its reply.

What the code does, and the model with it:

- Validators are taken from every response, whatever its status, and each one
  independently of the other.
- Every filing built is handed to the store. No lookup by link happens first,
  so a feed read twice yields its filings twice.
- The title is trimmed but not entity-decoded.
- The origin `https://www.sec.gov` is put in front of every captured href,
  even an absolute one: `https://www.sec.gov/a` becomes
  `https://www.sec.govhttps://www.sec.gov/a`.
- Filings handed over before the reader fails stay handed over.

## Model

| member | source | states |
|---|---|---|
| Entity.Filing.constructor | src/main/java/com/example/sec/Entity/Filing.java:30 | a new filing has all six fields null |
| Entity.Filing.WithContent | src/main/java/com/example/sec/Entity/Filing.java:32-36 | title, link and summary are the arguments; id and both timestamps are null |
| Entity.Filing.GetId | src/main/java/com/example/sec/Entity/Filing.java:39 | returns the id field |
| Entity.Filing.SetId | src/main/java/com/example/sec/Entity/Filing.java:40 | the id becomes the argument; the other five fields are unchanged |
| Entity.Filing.GetTitle | src/main/java/com/example/sec/Entity/Filing.java:42 | returns the title field |
| Entity.Filing.SetTitle | src/main/java/com/example/sec/Entity/Filing.java:43 | the title becomes the argument; the other five fields are unchanged |
| Entity.Filing.GetLink | src/main/java/com/example/sec/Entity/Filing.java:45 | returns the link field |
| Entity.Filing.SetLink | src/main/java/com/example/sec/Entity/Filing.java:46 | the link becomes the argument; the other five fields are unchanged |
| Entity.Filing.GetSummary | src/main/java/com/example/sec/Entity/Filing.java:48 | returns the summary field |
| Entity.Filing.SetSummary | src/main/java/com/example/sec/Entity/Filing.java:49 | the summary becomes the argument; the other five fields are unchanged |
| Entity.Filing.GetRowCreation | src/main/java/com/example/sec/Entity/Filing.java:51 | returns the creation timestamp |
| Entity.Filing.SetRowCreation | src/main/java/com/example/sec/Entity/Filing.java:52 | the creation timestamp becomes the argument; the other five fields are unchanged |
| Entity.Filing.GetUpdatedAt | src/main/java/com/example/sec/Entity/Filing.java:54 | returns the update timestamp |
| Entity.Filing.SetUpdatedAt | src/main/java/com/example/sec/Entity/Filing.java:55 | the update timestamp becomes the argument; the other five fields are unchanged |
| Entity.ReadBackAfterSetters | src/main/java/com/example/sec/Entity/Filing.java:30-55 | after a sequence of setters on a new filing, each getter returns the last value set in its own field; fields never set stay null |
| Entity.ReadBackAfterConstructor | src/main/java/com/example/sec/Entity/Filing.java:32-49 | after the three-argument constructor and a later setter, the getters return the constructor's values except the one overwritten |
| JavaString.TrimStart | src/main/java/com/example/sec/Service/FilingService.java:149 | the result is a suffix of the input that is empty or starts with a character above U+0020 |
| JavaString.TrimEnd | src/main/java/com/example/sec/Service/FilingService.java:149 | the result is a prefix of the input that is empty or ends with a character above U+0020 |
| JavaString.Trim | src/main/java/com/example/sec/Service/FilingService.java:149-151 | the result is no longer than the input, and is empty or begins and ends with a character above U+0020 |
| JavaString.TrimIsBothEnds | src/main/java/com/example/sec/Service/FilingService.java:149-151 | trimming is cutting the front padding, then the back padding |
| JavaString.BothEndsIsInfix | src/main/java/com/example/sec/Service/FilingService.java:149-151 | with `t` the input cut at the front and `r` then cut at the back, `r` is a contiguous infix of the input, and every character cut from either end is at most U+0020 |
| JavaString.TrimOfBlank | src/main/java/com/example/sec/Service/FilingService.java:149-151 | a text made only of characters up to U+0020 trims to the empty string |
| JavaString.TrimOfUnpadded | src/main/java/com/example/sec/Service/FilingService.java:149-151 | a text with no padding at either end is unchanged by trimming (so trimming is idempotent) |
| JavaString.ReplaceAll | src/main/java/com/example/sec/Service/FilingService.java:167-171 | reference definition of `String.replace` for a non-empty pattern: scans from the left and replaces each non-overlapping occurrence; its contract: replacing a pattern by itself is the identity, and a replacement of the pattern's length keeps the length; further properties in the ReplaceAll lemmas below |
| JavaString.ReplaceAllWithoutMatch | src/main/java/com/example/sec/Service/FilingService.java:167-171 | a text in which the pattern does not occur is returned unchanged |
| JavaString.ReplaceAllNotLonger | src/main/java/com/example/sec/Service/FilingService.java:166-172 | replacing a pattern by a text no longer than it never lengthens the input |
| JavaString.ReplaceAllWithoutLead | src/main/java/com/example/sec/Service/FilingService.java:166-172 | a text without the pattern's first character is returned unchanged |
| JavaString.ReplaceAllSkipsFree | src/main/java/com/example/sec/Service/FilingService.java:166-172 | a prefix free of the pattern's first character passes through unchanged |
| EntityDecode.Decode | src/main/java/com/example/sec/Service/FilingService.java:166-172 | the result is never longer than the input, and a text without an ampersand is returned unchanged; what the order of the five replacements does is stated by `PassAdvancesStage` (each pass advances escaped text one stage), `DecodeEscapedLt` and `DecodeEscapedQuotTwice` |
| EntityDecode.PassAdvancesStage | src/main/java/com/example/sec/Service/FilingService.java:166-172 | each replacement turns back exactly its own entity in an escaped text and leaves the entities of the later replacements alone |
| EntityDecode.DecodeUndoesEscape | src/main/java/com/example/sec/Service/FilingService.java:166-172 | decoding undoes escaping of the five characters, for every text that does not itself contain the text of a quot or apos entity |
| EntityDecode.EscapeConcat | src/main/java/com/example/sec/Service/FilingService.java:166-172 | escaping distributes over concatenation |
| EntityDecode.DecodeRiskText | src/main/java/com/example/sec/Service/FilingService.java:166-172 | a summary `Risk &amp; Reward &lt;test&gt;` decodes to `Risk & Reward <test>` |
| EntityDecode.DecodeEscapedLt | src/main/java/com/example/sec/Service/FilingService.java:166-172 | an escaped entity that the amp pass reveals after the lt pass has run, `&amp;lt;`, decodes once, to `&lt;` |
| EntityDecode.DecodeEscapedQuotTwice | src/main/java/com/example/sec/Service/FilingService.java:166-172 | `&amp;quot;`, the escape of `&quot;`, decodes twice, to a bare quotation mark, because the quot pass runs after the amp pass |
| AtomExtract.IsWhiteSpace | src/main/java/com/example/sec/Service/FilingService.java:136 | reference definition of `Characters.isWhiteSpace`: true exactly when every character is a space, tab, line feed or carriage return |
| AtomExtract.Qualifies | src/main/java/com/example/sec/Service/FilingService.java:129 | reference definition of the link test: a taken link has an href, and a link whose rel is present and not "alternate" is never taken; `CapturedLinkIsLastTaken` states what it captures |
| AtomExtract.Step | src/main/java/com/example/sec/Service/FilingService.java:115-160 | reference definition of one loop iteration: only the malformed point sets the failure flag, the inside-an-entry flag changes only when an entry opens or closes, and a current element only exists inside an entry; `HandleEvent`, `NextEvent` and the ExtractProperties lemmas state the rest |
| AtomExtract.OnStart | src/main/java/com/example/sec/Service/FilingService.java:115-133 | an entry start tag opens an entry with empty buffers and empty link; any other start tag leaves the buffers and the flag alone, and changes the link only to the href of a taken link |
| AtomExtract.OnText | src/main/java/com/example/sec/Service/FilingService.java:134-141 | character data only ever appends itself to the title or the summary buffer; white space, or text outside an entry, changes nothing |
| AtomExtract.OnEnd | src/main/java/com/example/sec/Service/FilingService.java:142-160 | an end tag never touches the buffers or the link, only clears the current element, and can only leave an entry |
| AtomExtract.Run | src/main/java/com/example/sec/Service/FilingService.java:112-161 | reference definition of the loop over a whole stream: the pass has failed exactly when it started failed or the stream holds a malformed point; `RunSplit` and `FailedIsFinal` state the rest |
| AtomExtract.Closes | src/main/java/com/example/sec/Service/FilingService.java:146-157 | the states in which an entry closed: no more of them than events, and each one inside an entry and not failed; `AtMostOnePerEndTag` bounds them by the entry end tags |
| AtomExtract.CandidateFrom | src/main/java/com/example/sec/Service/FilingService.java:148-151 | the texts stored at an entry's close: the link is the origin followed by the captured link, the title is trimmed at both ends, and neither title nor summary grows; `FilledGivesExpected` relates it to the feed's own texts |
| AtomExtract.CandidateOf | src/main/java/com/example/sec/Service/FilingService.java:148-151 | the candidate of a state's buffers: its link is the origin followed by that state's captured link, and title and summary are no longer than the buffers |
| AtomExtract.Stored | src/main/java/com/example/sec/Service/FilingService.java:146-154 | one filing per closing state, in order |
| AtomExtract.StoredConcat | src/main/java/com/example/sec/Service/FilingService.java:146-154 | the filings of two runs of closing states are those of the first, then those of the second |
| AtomExtract.Extract | src/main/java/com/example/sec/Service/FilingService.java:98-164 | reference definition of what one body yields: never more filings than events; `ParseAndSave` is proved to hand over exactly these, and `WellFormedFeed` states them for a feed |
| AtomExtract.EntryScanner.constructor | src/main/java/com/example/sec/Service/FilingService.java:106-110 | the loop starts outside any entry, with no current element, empty buffers and an empty link |
| AtomExtract.EntryScanner.StartElement | src/main/java/com/example/sec/Service/FilingService.java:115-133 | the loop's state after a start tag is `Step` of the state before |
| AtomExtract.EntryScanner.CharacterData | src/main/java/com/example/sec/Service/FilingService.java:134-141 | the loop's state after character data is `Step` of the state before |
| AtomExtract.EntryScanner.EndElement | src/main/java/com/example/sec/Service/FilingService.java:142-160 | the loop's state after an end tag is `Step` of the state before |
| AtomExtract.Store | src/main/java/com/example/sec/Service/FilingService.java:148-151 | a fresh filing whose title is the trimmed title, whose link is the origin followed by the captured link, whose summary is the decoded trimmed summary, and whose other fields are null |
| AtomExtract.HandleEvent | src/main/java/com/example/sec/Service/FilingService.java:113-161 | one event moves the state by `Step`; a filing is built exactly when an entry closes inside an entry, and holds that state's candidate |
| AtomExtract.ParseAndSave | src/main/java/com/example/sec/Service/FilingService.java:98-164 | the rows handed over are exactly `Rows(Extract(events))`, in order; the loop reports failure exactly when the reference run `Run` failed |
| AtomExtract.NextEvent | src/main/java/com/example/sec/Service/FilingService.java:112-161 | one more event extends the handed-over rows by exactly the candidate of the state it closes, if it closes one |
| AtomExtract.RunSplit | src/main/java/com/example/sec/Service/FilingService.java:112-161 | reading two streams one after the other is reading their concatenation, for both the state and the entries closed |
| AtomExtract.FailedIsFinal | src/main/java/com/example/sec/Service/FilingService.java:112-113 | after the reader fails, no further event changes the state or closes an entry |
| AtomExtract.FaultEndsExtraction | src/main/java/com/example/sec/Service/FilingService.java:112-113 | a malformed point ends the pass: only the entries closed before it yield filings |
| AtomExtract.FaultAt | src/main/java/com/example/sec/Service/FilingService.java:112-113 | the same, for a stream whose i-th event is the malformed point |
| ExtractProperties.ReachableHasNoStrayCurrent | src/main/java/com/example/sec/Service/FilingService.java:124-159 | in every reachable state, a current element implies being inside an entry |
| ExtractProperties.AtMostOnePerEndTag | src/main/java/com/example/sec/Service/FilingService.java:146-157 | a stream yields no more filings than it has entry end tags |
| ExtractProperties.OutsideEntryIsSilent | src/main/java/com/example/sec/Service/FilingService.java:119-160 | outside an entry and with no current element, events that open no entry yield nothing and change no variable except the failed flag, and none at all when they hold no malformed point |
| ExtractProperties.OpeningForgetsBuffers | src/main/java/com/example/sec/Service/FilingService.java:119-123 | once an entry opens, what follows does not depend on the buffers or the link left over from earlier |
| ExtractProperties.CapturedLinkIsLastTaken | src/main/java/com/example/sec/Service/FilingService.java:126-131 | inside an entry, the captured link is the href of the last qualifying link tag (rel absent or "alternate"), or the earlier one if there is none |
| ExtractProperties.TextWhileCurrent | src/main/java/com/example/sec/Service/FilingService.java:134-141 | while title or summary is current, character data that is not white space is appended to its buffer; under any other element it is dropped |
| ExtractProperties.WhiteSpaceIsTrimmable | src/main/java/com/example/sec/Service/FilingService.java:136-151 | XML white space is padding for trimming |
| ExtractProperties.TrimOfOneText | src/main/java/com/example/sec/Service/FilingService.java:136-151 | skipping white-space-only character data changes nothing once the buffer is trimmed |
| ExtractProperties.LinksCarryOrigin | src/main/java/com/example/sec/Service/FilingService.java:149-150 | every filing's link starts with the origin, and every title is trimmed at the front |
| ExtractProperties.ElementRun | src/main/java/com/example/sec/Service/FilingService.java:124-159 | inside an entry, an element other than entry and link sets its text as a current element and is then no longer current |
| ExtractProperties.LinkRun | src/main/java/com/example/sec/Service/FilingService.java:124-131 | an alternate link element captures its href and yields nothing |
| ExtractProperties.TitleRun | src/main/java/com/example/sec/Service/FilingService.java:134-159 | a title element fills the title buffer unless its text is white space |
| ExtractProperties.SummaryRun | src/main/java/com/example/sec/Service/FilingService.java:134-159 | a summary element fills the summary buffer unless its text is white space |
| ExtractProperties.IgnoredRun | src/main/java/com/example/sec/Service/FilingService.java:134-159 | inside an entry, any element other than entry, link, title and summary (updated, category, id, ...) changes nothing |
| ExtractProperties.IgnoredElementsRun | src/main/java/com/example/sec/Service/FilingService.java:134-159 | so does any list of such elements |
| ExtractProperties.BodyFills | src/main/java/com/example/sec/Service/FilingService.java:119-160 | the body of a well-formed entry (title, alternate link, summary, then any other elements) fills the buffers with its title, link and summary |
| ExtractProperties.EntryRun | src/main/java/com/example/sec/Service/FilingService.java:119-157 | a well-formed entry read from outside any entry closes exactly once, from the filled state |
| ExtractProperties.FilledGivesExpected | src/main/java/com/example/sec/Service/FilingService.java:148-151 | the filled state's candidate is the entry's trimmed title, the origin followed by its link, and its decoded trimmed summary |
| ExtractProperties.EntryYields | src/main/java/com/example/sec/Service/FilingService.java:119-157 | a well-formed entry yields exactly its expected filing and leaves the loop outside any entry |
| ExtractProperties.FeedYields | src/main/java/com/example/sec/Service/FilingService.java:112-161 | a run of well-formed entries yields exactly their expected filings, in order |
| ExtractProperties.WhiteSpaceIsSilent | src/main/java/com/example/sec/Service/FilingService.java:134-141 | white-space-only character data anywhere in a stream changes no variable and closes no entry: the stream with it and the stream without it end in the same state after the same closing states |
| ExtractProperties.ExactFeed | src/main/java/com/example/sec/Service/FilingService.java:98-164 | a feed given exactly as a header and a trailer that open no entry around the events of well-formed entries yields exactly the expected filings, in order, without failure |
| ExtractProperties.WellFormedFeed | src/main/java/com/example/sec/Service/FilingService.java:98-164 | the same for every stream that is such a feed once white-space-only text is set aside: indentation and line breaks between elements and entries, and self-closing elements, which read as elements with empty text |
| ExtractProperties.AbsoluteLinkGetsOriginAgain | src/main/java/com/example/sec/Service/FilingService.java:150 | an entry whose href is already absolute, such as the origin followed by a path, yields a link with the origin written twice |
| ConditionalRequest.FirstValue | src/main/java/com/example/sec/Service/FilingService.java:77-78 | reference definition of `HttpHeaders.firstValue` with a lower-case name: a value found is that of some header with the name, ignoring ASCII case, and none found means no header has it; `FirstValueIsFirst` adds that it is the first one |
| ConditionalRequest.FirstValueIsFirst | src/main/java/com/example/sec/Service/FilingService.java:77-78 | a value found is that of the first header with the name, ignoring ASCII case, and none found means no header has the name |
| ConditionalRequest.FirstValueIgnoresCase | src/main/java/com/example/sec/Service/FilingService.java:77-78 | writing a response's header names in another case changes no value found |
| ConditionalRequest.ConditionalHeadersIff | src/main/java/com/example/sec/Service/FilingService.java:72-73 | If-None-Match is sent exactly when an entity tag is held, carrying it; If-Modified-Since exactly when a date is held, carrying it; nothing else is added |
| ConditionalRequest.ConditionalHeaders | src/main/java/com/example/sec/Service/FilingService.java:72-73 | reference definition of the conditional headers: at most two, named If-None-Match or If-Modified-Since; `ConditionalHeadersIff` states which are sent and with what value |
| ConditionalRequest.Observe | src/main/java/com/example/sec/Service/FilingService.java:77-78 | reference definition of one response's effect: a held validator is never cleared, and a validator changes only to that response's header of its name; `ObserveAllIsLatest` states it over many responses |
| ConditionalRequest.ObserveAllIsLatest | src/main/java/com/example/sec/Service/FilingService.java:77-78 | after any run of responses, each validator is the value from the latest response that carried that header, or the earlier value when none did |
| ConditionalRequest.ValidatorsNeverCleared | src/main/java/com/example/sec/Service/FilingService.java:77-78 | a held validator is never cleared, and responses without its header leave it as it was |
| ConditionalRequest.MixedPair | src/main/java/com/example/sec/Service/FilingService.java:77-78 | a response with both headers followed by one with only a new tag leaves the new tag paired with the old date |
| Service.FilingService.constructor | src/main/java/com/example/sec/Service/FilingService.java:40-41 | a new service holds no validator and has handed nothing to the store |
| Service.FilingService.RequestHeaders | src/main/java/com/example/sec/Service/FilingService.java:72-73 | the request carries exactly the conditional headers of the validators held |
| Service.FilingService.OnResponse | src/main/java/com/example/sec/Service/FilingService.java:76-86 | the validators are replaced as `Observe` says, for any status; the store receives the rows extracted from the body only for status 200 |
| Service.FilingService.PollOnce | src/main/java/com/example/sec/Service/FilingService.java:60-96 | the request carries the conditional headers held before; a transport failure changes nothing; a response acts as `OnResponse` |
| Service.NotModifiedThenPoll | src/main/java/com/example/sec/Service/FilingService.java:72-86 | a 304 reply stores nothing yet updates the validators, and the next request carries the updated ones |

## Left out

- Transport: building the request (URL, timeouts, User-Agent, Accept), `sendAsync` and `join`. A reply is an input to `PollOnce`, and every exception of the transport is one `TransportError`.
- Scheduling: the executor that calls `pollOnce` every 500 ms. A fixed-rate task never overlaps itself, and `pollOnce` waits (`join`) until the validators are updated and the body is read, so polls run strictly one after another, as the model runs them. The fields are `volatile` only so that each pool thread sees the last poll's values.
- Saving: the executor that runs `repository.save` asynchronously. The store is modelled as the sequence of rows handed to it in hand-over order, so save order, lost saves, database errors and the store's own behaviour are not modelled.
- The repository (`FilingRepository`) and the database that fills `id`, `row_creation` and `updated_at` are not part of this model.
- The StAX reader: tokenising bytes into events, coalescing, the DTD setting, namespace handling. The extractor takes the event sequence as input, and a reader exception is a `Fault` event that ends the pass.
- Logging and the clock (`log`, `currentTimeMillis`) are left out, since they do not affect state.
- Both exception handlers (parse error, poll error) log and go on. The model keeps what they leave behind: validators already taken, filings already handed over.
- ConditionalRequest.FirstValueIsFirst: header names are folded in ASCII only. Java's case-insensitive header lookup also folds non-ASCII letters.
- JavaString.ReplaceAllNotLonger: `replace` with an empty pattern is not modelled, because `decode` never uses one.
- EntityDecode.DecodeUndoesEscape: holds only for texts without the literal text of a quot or apos entity. On those texts, decoding an escape turns the entity into its character, as DecodeEscapedQuotTwice shows.
- AtomExtract.ParseAndSave: records each filing handed over as a value snapshot (`Row`) of its fields, not as the object itself. Aliasing between the saved objects and later changes to them is not modelled (the code makes none).
- AtomExtract.EntryScanner.constructor: the five local variables of the loop are grouped as the fields of one object. A `StringBuilder` buffer is modelled as the string it holds.
