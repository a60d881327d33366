# SwiftXMLParserDemo event handlers in Dafny

This project models the event handlers of SwiftXMLParserDemo
(`Sources/SwiftXMLParserDemo/EventHandlers.swift`).

`XMLEventFileWriter` receives XML parse events one at a time and writes XML
text back out. It decides three things lazily, from three flags:

- `startTagUnfinished`: whether the start tag it wrote last is closed by `/>`
  (no content came) or by `>` (content came first);
- `inInternalSubset`: whether a DOCTYPE gets an internal subset `[ ... ]`,
  opened by the first declaration that needs it;
- `documentTypeDeclarationClosed`: whether the DOCTYPE is closed yet. It is
  closed by the first element start.

Two configuration flags are fixed for the whole session:

- `fullEscapes` (also escape `>` and `'`, and `"` in text);
- `useWindowsNewlines` (CR LF instead of LF).

`XMLEventCounter` counts every event, and element starts separately.

Files:

- `wrappers.dfy`: `Option`, for Swift's optional strings.
- `escaping.dfy`: `attributeEscape` and `textEscape`, written as the source's
  chains of `replacingOccurrences` on strings taken as sequences of Unicode
  scalars. They are proved equal to a per-character
  map. From that map follow the safety properties and the round trip through
  `Unescape`. `Unescape` decodes the five predefined entities of XML 1.0,
  section 4.6.
- `event_handlers.dfy`: the `EventFileWriter` class and the `EventCounter`
  class.
  - `EventFileWriter` has the file contents as a `string` field, `output`.
    Each event is a method whose postcondition gives the new `output` and
    flags in terms of the old ones.
  - Its `Valid()` invariant says that a start tag can only be pending after
    the DOCTYPE was closed.
  - Three methods run whole documents through a fresh writer and state the
    exact text written.
  - `EventCounter` keeps the invariant `0 <= elementCount <= allEvents`.

The model follows the code as written, including behaviour that a careful
XML re-serialiser would not have:

- Attribute values are written unescaped. The attributes come from a Swift
  dictionary, so their order is unspecified. `WriteAttributes` therefore
  returns a ghost `order` that lists every key exactly once, and promises
  nothing more about it. Insertion order is not preserved.
- The first element start writes `>` and a newline even when no DOCTYPE was
  written.
- Only an element start closes the DOCTYPE. Text, comments and processing
  instructions before the root element do not close it.
- The standalone value of the XML declaration is labelled ` encoding=`. Two
  spaces are written before the encoding.
- A notation declaration omits the notation name.
- A DOCTYPE with only a system identifier gets no `SYSTEM` keyword.
- An unparsed entity without public identifier and with a nil system
  identifier is written with `SYSTEM ""`.
- Internal entity values are written raw. Parameter entity values are
  attribute-escaped, and no `%` is written.
- Comment content is text-escaped.

## Model

| member | source | states |
|---|---|---|
| `Escaping.AttributeEscapeIsCharMap` | Sources/SwiftXMLParserDemo/EventHandlers.swift:152-170 | the chained `replacingOccurrences` of `attributeEscape`, `&` first, equals replacing each character by its entity (`&`, `<`, `"`; also `>`, `'` in full mode) independently |
| `Escaping.TextEscapeIsCharMap` | Sources/SwiftXMLParserDemo/EventHandlers.swift:172-189 | the chained `replacingOccurrences` of `textEscape` equals the per-character map (`&`, `<`; full mode also `>`, `"`, `'`) |
| `Escaping.EscapeMapRoundTrip` | Sources/SwiftXMLParserDemo/EventHandlers.swift:152-189 | decoding the five predefined entity references of the escaped string gives back the input, in every mode and context |
| `Escaping.EscapeMapWellFormed` | Sources/SwiftXMLParserDemo/EventHandlers.swift:152-189 | escaped output contains no `<`, and every `&` in it begins `&amp;`, `&lt;`, `&gt;`, `&quot;` or `&apos;` |
| `Escaping.EscapeMapMarkupChars` | Sources/SwiftXMLParserDemo/EventHandlers.swift:152-189 | each of `<`, `>`, `"`, `'` occurs in the output iff it occurs in the input and the mode/context does not escape it |
| `Escaping.EscapeMapIdentity` | Sources/SwiftXMLParserDemo/EventHandlers.swift:152-189 | a string with no character the mode/context escapes is mapped to itself |
| `Escaping.AttributeEscapeSafe` | Sources/SwiftXMLParserDemo/EventHandlers.swift:152-170 | `attributeEscape(nil)` is `""`; the result has no `<`, only entity ampersands, and decodes back to the input (or `""` for nil) |
| `Escaping.TextEscapeSafe` | Sources/SwiftXMLParserDemo/EventHandlers.swift:172-189 | `textEscape(nil)` is `""`; the result has no `<`, only entity ampersands, and decodes back to the input (or `""` for nil) |
| `Escaping.ReplacingRemovesTarget` | Sources/SwiftXMLParserDemo/EventHandlers.swift:155-159 | one `replacingOccurrences(of: t, with: r)` step, with `t` not in `r`, leaves no `t` in the string |
| `Escaping.ReplacingKeepsAbsent` | Sources/SwiftXMLParserDemo/EventHandlers.swift:155-159 | a later step of the chain does not bring back a character that is in neither the string nor its replacement |
| `Escaping.FullReplacements` | Sources/SwiftXMLParserDemo/EventHandlers.swift:155-159 | the full-mode chain as written, `&` first, shared by both escapes: its result holds no `<`, `>`, `"` or `'` |
| `Escaping.AttributeEscape` | Sources/SwiftXMLParserDemo/EventHandlers.swift:152-170 | `attributeEscape` as the chain written in each mode: `nil` gives `""`; the result has no `<` and no `"`, and in full mode no `>` and no `'` either |
| `Escaping.TextEscape` | Sources/SwiftXMLParserDemo/EventHandlers.swift:172-189 | `textEscape` as the chain written in each mode: `nil` gives `""`; the result has no `<`, and in full mode no `>`, `"` or `'` either |
| `Escaping.MinimalAttributeEscape` | Sources/SwiftXMLParserDemo/EventHandlers.swift:161-165 | minimal `attributeEscape` removes every `"` and keeps `>` and `'` exactly when the input has them |
| `Escaping.MinimalTextEscape` | Sources/SwiftXMLParserDemo/EventHandlers.swift:181-184 | minimal `textEscape` keeps `>`, `"`, `'` exactly when the input has them, and returns a string without `&` and `<` unchanged |
| `Escaping.EscapesKeepPlainText` | Sources/SwiftXMLParserDemo/EventHandlers.swift:152-189 | a string free of the characters the mode escapes comes back unchanged from both escapes |
| `EventHandlers.EventFileWriter.constructor` | Sources/SwiftXMLParserDemo/EventHandlers.swift:97-123 | the two configuration flags are stored, nothing is written yet and all three state flags start false |
| `EventHandlers.EventFileWriter.Newline` | Sources/SwiftXMLParserDemo/EventHandlers.swift:195-202 | the line break is `"\r\n"` iff `useWindowsNewlines`, otherwise `"\n"` |
| `EventHandlers.EventFileWriter.Write` | Sources/SwiftXMLParserDemo/EventHandlers.swift:191-193 | the text is appended to the file contents |
| `EventHandlers.EventFileWriter.WriteNewline` | Sources/SwiftXMLParserDemo/EventHandlers.swift:195-202 | `writeLine()` appends exactly the configured line break |
| `EventHandlers.EventFileWriter.WriteLine` | Sources/SwiftXMLParserDemo/EventHandlers.swift:204-207 | `writeLine(t)` appends `t` followed by the configured line break |
| `EventHandlers.EventFileWriter.EnsureInternalSubset` | Sources/SwiftXMLParserDemo/EventHandlers.swift:125-131 | appends newline, `[`, newline only when the subset is not yet open, then the subset is open; a second call appends nothing |
| `EventHandlers.EventFileWriter.ConsiderPossibleElementContent` | Sources/SwiftXMLParserDemo/EventHandlers.swift:133-138 | appends exactly one `>` iff a start tag is pending, and leaves none pending |
| `EventHandlers.EventFileWriter.CloseDocumentTypeDeclaration` | Sources/SwiftXMLParserDemo/EventHandlers.swift:140-149 | first call appends `]` iff the subset is open, then `>` and newline, closing the subset; once closed, later calls append nothing |
| `EventHandlers.EventFileWriter.XmlDeclaration` | Sources/SwiftXMLParserDemo/EventHandlers.swift:209-211 | appends the declaration with attribute-escaped values (standalone labelled ` encoding=`) and a newline; flags unchanged |
| `EventHandlers.EventFileWriter.DocumentTypeDeclaration` | Sources/SwiftXMLParserDemo/EventHandlers.swift:213-215 | appends `<!DOCTYPE name` with optional escaped PUBLIC and system identifiers, leaving the declaration open; flags unchanged |
| `EventHandlers.EventFileWriter.Text` | Sources/SwiftXMLParserDemo/EventHandlers.swift:217-220 | appends `>` iff a start tag is pending, then the text-escaped text; no tag pending afterwards, DOCTYPE flags unchanged |
| `EventHandlers.EventFileWriter.CdataSection` | Sources/SwiftXMLParserDemo/EventHandlers.swift:222-225 | appends `>` iff a start tag is pending, then `<![CDATA[` raw content `]]>`; no tag pending, DOCTYPE flags unchanged |
| `EventHandlers.EventFileWriter.Comment` | Sources/SwiftXMLParserDemo/EventHandlers.swift:227-230 | appends `>` iff a start tag is pending, then `<!--` text-escaped content `-->`; no tag pending, DOCTYPE flags unchanged |
| `EventHandlers.EventFileWriter.WriteAttribute` | Sources/SwiftXMLParserDemo/EventHandlers.swift:237-241 | one attribute: appends a space, the name, `="`, the value unescaped, and `"` |
| `EventHandlers.EventFileWriter.WriteAttributes` | Sources/SwiftXMLParserDemo/EventHandlers.swift:236-242 | appends ` k="v"` once for every dictionary entry, in some order that lists each key exactly once |
| `EventHandlers.EventFileWriter.ElementStart` | Sources/SwiftXMLParserDemo/EventHandlers.swift:232-244 | closes the DOCTYPE (first time only) and a pending start tag, appends `<name` and all attributes, and leaves the new start tag pending |
| `EventHandlers.EventFileWriter.ElementEnd` | Sources/SwiftXMLParserDemo/EventHandlers.swift:246-256 | appends `/>` if the start tag is still pending (empty element), otherwise `</name>`; no tag pending afterwards |
| `EventHandlers.EventFileWriter.ProcessingInstruction` | Sources/SwiftXMLParserDemo/EventHandlers.swift:258-268 | appends `>` iff a start tag is pending, then `<?target`, the optional content quoted and attribute-escaped, and `?>` |
| `EventHandlers.EventFileWriter.InternalEntityDeclaration` | Sources/SwiftXMLParserDemo/EventHandlers.swift:270-275 | opens the internal subset if needed, then appends ` <!ENTITY name "value">` with the value raw, and a newline |
| `EventHandlers.EventFileWriter.ExternalEntityDeclaration` | Sources/SwiftXMLParserDemo/EventHandlers.swift:277-285 | opens the internal subset if needed, then appends the PUBLIC or SYSTEM entity declaration with escaped identifiers and a newline |
| `EventHandlers.EventFileWriter.UnparsedEntityDeclaration` | Sources/SwiftXMLParserDemo/EventHandlers.swift:287-300 | opens the internal subset if needed, then appends the PUBLIC/SYSTEM declaration with `NDATA notation` and a newline |
| `EventHandlers.EventFileWriter.NotationDeclaration` | Sources/SwiftXMLParserDemo/EventHandlers.swift:302-315 | opens the internal subset if needed, then appends `<!NOTATION` PUBLIC/SYSTEM identifiers (without the notation name) and a newline |
| `EventHandlers.EventFileWriter.InternalEntity` | Sources/SwiftXMLParserDemo/EventHandlers.swift:317-320 | appends `>` iff a start tag is pending, then `&name;`; no tag pending, DOCTYPE flags unchanged |
| `EventHandlers.EventFileWriter.ExternalEntity` | Sources/SwiftXMLParserDemo/EventHandlers.swift:322-325 | appends `>` iff a start tag is pending, then `&name;`; no tag pending, DOCTYPE flags unchanged |
| `EventHandlers.EventFileWriter.ElementDeclaration` | Sources/SwiftXMLParserDemo/EventHandlers.swift:327-331 | opens the internal subset if needed, then appends a space, the declaration text and a newline |
| `EventHandlers.EventFileWriter.AttributeListDeclaration` | Sources/SwiftXMLParserDemo/EventHandlers.swift:333-337 | opens the internal subset if needed, then appends a space, the declaration text and a newline |
| `EventHandlers.EventFileWriter.ParameterEntityDeclaration` | Sources/SwiftXMLParserDemo/EventHandlers.swift:339-342 | opens the internal subset if needed, then appends ` <!ENTITY name "value">` with the value attribute-escaped, and a newline |
| `EventHandlers.EventFileWriter.DocumentEnd` | Sources/SwiftXMLParserDemo/EventHandlers.swift:344-346 | the file is closed; nothing further is written |
| `EventHandlers.DoctypeAndTextDocument` | Sources/SwiftXMLParserDemo/EventHandlers.swift:213-256 | DOCTYPE `doc`, element `doc` with text `hi`: the output is exactly `<!DOCTYPE doc>` newline `<doc>hi</doc>`, with no subset brackets |
| `EventHandlers.InternalSubsetDocument` | Sources/SwiftXMLParserDemo/EventHandlers.swift:125-275 | DOCTYPE `doc`, entity `x`=`1`, empty element `root`: the subset opens once and closes once before `<root/>` |
| `EventHandlers.DocumentWithoutDoctype` | Sources/SwiftXMLParserDemo/EventHandlers.swift:140-256 | with no DOCTYPE the first element start still writes `>` and a newline; an empty child becomes `<b/>` and its parent ends with `</a>` |
| `EventHandlers.EventCounter.constructor` | Sources/SwiftXMLParserDemo/EventHandlers.swift:349-353 | both counters start at 0, so `elementCount <= allEvents` holds |
| `EventHandlers.EventCounter.DocumentStart` | Sources/SwiftXMLParserDemo/EventHandlers.swift:355-357 | `allEvents` grows by exactly 1, `elementCount` is unchanged; `elementCount <= allEvents` is kept |
| `EventHandlers.EventCounter.XmlDeclaration` | Sources/SwiftXMLParserDemo/EventHandlers.swift:359-361 | `allEvents` grows by exactly 1, `elementCount` is unchanged; `elementCount <= allEvents` is kept |
| `EventHandlers.EventCounter.DocumentTypeDeclaration` | Sources/SwiftXMLParserDemo/EventHandlers.swift:363-365 | `allEvents` grows by exactly 1, `elementCount` is unchanged; `elementCount <= allEvents` is kept |
| `EventHandlers.EventCounter.Text` | Sources/SwiftXMLParserDemo/EventHandlers.swift:367-369 | `allEvents` grows by exactly 1, `elementCount` is unchanged; `elementCount <= allEvents` is kept |
| `EventHandlers.EventCounter.CdataSection` | Sources/SwiftXMLParserDemo/EventHandlers.swift:371-373 | `allEvents` grows by exactly 1, `elementCount` is unchanged; `elementCount <= allEvents` is kept |
| `EventHandlers.EventCounter.Comment` | Sources/SwiftXMLParserDemo/EventHandlers.swift:375-377 | `allEvents` grows by exactly 1, `elementCount` is unchanged; `elementCount <= allEvents` is kept |
| `EventHandlers.EventCounter.ElementStart` | Sources/SwiftXMLParserDemo/EventHandlers.swift:379-382 | `allEvents` and `elementCount` each grow by exactly 1; `elementCount <= allEvents` is kept |
| `EventHandlers.EventCounter.ElementEnd` | Sources/SwiftXMLParserDemo/EventHandlers.swift:384-386 | `allEvents` grows by exactly 1, `elementCount` is unchanged; `elementCount <= allEvents` is kept |
| `EventHandlers.EventCounter.ProcessingInstruction` | Sources/SwiftXMLParserDemo/EventHandlers.swift:388-390 | `allEvents` grows by exactly 1, `elementCount` is unchanged; `elementCount <= allEvents` is kept |
| `EventHandlers.EventCounter.InternalEntityDeclaration` | Sources/SwiftXMLParserDemo/EventHandlers.swift:392-394 | `allEvents` grows by exactly 1, `elementCount` is unchanged; `elementCount <= allEvents` is kept |
| `EventHandlers.EventCounter.ExternalEntityDeclaration` | Sources/SwiftXMLParserDemo/EventHandlers.swift:396-398 | `allEvents` grows by exactly 1, `elementCount` is unchanged; `elementCount <= allEvents` is kept |
| `EventHandlers.EventCounter.UnparsedEntityDeclaration` | Sources/SwiftXMLParserDemo/EventHandlers.swift:400-402 | `allEvents` grows by exactly 1, `elementCount` is unchanged; `elementCount <= allEvents` is kept |
| `EventHandlers.EventCounter.NotationDeclaration` | Sources/SwiftXMLParserDemo/EventHandlers.swift:404-406 | `allEvents` grows by exactly 1, `elementCount` is unchanged; `elementCount <= allEvents` is kept |
| `EventHandlers.EventCounter.InternalEntity` | Sources/SwiftXMLParserDemo/EventHandlers.swift:408-410 | `allEvents` grows by exactly 1, `elementCount` is unchanged; `elementCount <= allEvents` is kept |
| `EventHandlers.EventCounter.ExternalEntity` | Sources/SwiftXMLParserDemo/EventHandlers.swift:412-414 | `allEvents` grows by exactly 1, `elementCount` is unchanged; `elementCount <= allEvents` is kept |
| `EventHandlers.EventCounter.ElementDeclaration` | Sources/SwiftXMLParserDemo/EventHandlers.swift:416-418 | `allEvents` grows by exactly 1, `elementCount` is unchanged; `elementCount <= allEvents` is kept |
| `EventHandlers.EventCounter.AttributeListDeclaration` | Sources/SwiftXMLParserDemo/EventHandlers.swift:420-422 | `allEvents` grows by exactly 1, `elementCount` is unchanged; `elementCount <= allEvents` is kept |
| `EventHandlers.EventCounter.ParameterEntityDeclaration` | Sources/SwiftXMLParserDemo/EventHandlers.swift:424-426 | `allEvents` grows by exactly 1, `elementCount` is unchanged; `elementCount <= allEvents` is kept |
| `EventHandlers.EventCounter.DocumentEnd` | Sources/SwiftXMLParserDemo/EventHandlers.swift:428-430 | `allEvents` grows by exactly 1, `elementCount` is unchanged; `elementCount <= allEvents` is kept |

## Left out

- `XMLEventFileWriter.init` file-system work (`EventHandlers.swift:101-119`): removing and recreating the file, opening the `FileHandle`, and the error thrown when that fails. The constructor takes the two flags and starts with empty output.
- The UTF-8 encoding done by `write` and the `closeFile` of `documentEnd`: these are I/O. `output` is a string of characters, and `documentEnd` only sets `closed`.
- `documentStart` and `parsingTime` are not overridden by the writer. They are the base class's no-ops and have no method here.
- `XMLEventPrinter` (`EventHandlers.swift:11-92`): console printing only.
- `main.swift`: command-line handling, timing in floating-point seconds, the call into the external parser, and `SimpleInternalEntityResolver`, which only the parser uses.
- `Package.swift`: build manifest.
- The parser library and the `DefaultXMLEventHandler` base class are not part of this model. No event order is assumed, beyond not writing after `documentEnd`.
- `elementStart`'s `inout` dictionary: the writer never modifies it, so it is a plain `map` argument. The unused `combineTexts` and `isWhitespace` parameters are kept. The counter's methods drop their parameters, which it never reads.
- `EventHandlers.EventFileWriter.Write`, `WriteNewline`, `WriteLine`, `EnsureInternalSubset`, `ConsiderPossibleElementContent`, `CloseDocumentTypeDeclaration`, `WriteAttribute`, `WriteAttributes` and every event method of the writer except `DocumentEnd` require `!closed`. Writing to a closed `FileHandle` after `documentEnd` is a run-time failure in Foundation, which this model excludes instead of modelling.
- `Escaping.AttributeEscape`: strings are modelled as sequences of Unicode scalars, and `replacingOccurrences` as replacing each scalar equal to the target. Foundation matches by grapheme cluster and canonical equivalence, so a `<` followed by a combining mark (for example `"<\u{338}"`) is one cluster that does not match `"<"` and can stay unescaped in the program. The results about this escape (its own contract, `AttributeEscapeIsCharMap`, `AttributeEscapeSafe`, `MinimalAttributeEscape`, `EscapesKeepPlainText`) hold of the scalar model, not of cluster-aware matching.
- `Escaping.TextEscape`: the same scalar-for-cluster simplification as for `attributeEscape`. The results about this escape (its own contract, `TextEscapeIsCharMap`, `TextEscapeSafe`, `MinimalTextEscape`, `EscapesKeepPlainText`) and the per-character results behind both (`EscapeMapWellFormed`, `EscapeMapRoundTrip`, `EscapeMapMarkupChars`) hold of the scalar model only.
- Swift's `Int` overflow in the counter is not modelled. The counters are unbounded integers.
