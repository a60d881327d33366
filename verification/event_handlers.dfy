/**
  The two event handlers of the demo: `XMLEventFileWriter`, which writes the
  parse events it receives back out as XML text, and `XMLEventCounter`, which
  tallies them.

  The writer's file handle is the string field `output`; `write` appends to
  it. The writer decides three things lazily, from three flags:
  - whether the start tag just written is closed by `/>` or by `>`;
  - whether a DOCTYPE gets an internal subset `[ ... ]`;
  - when the DOCTYPE is closed (on the first element start).
*/
module EventHandlers {
  import opened Wrappers
  import opened Escaping

  // ---------------------------------------------------------------------------
  // The text each event writes, as a function of its arguments
  // ---------------------------------------------------------------------------

  /** `<?xml ...?>`. The standalone value is labelled ` encoding=`, as in the source. */
  function XmlDeclarationMarkup(fullEscapes: bool, version: string, encoding: Option<string>, standalone: Option<string>): string
  {
    "<?xml version=\"" + AttributeEscape(fullEscapes, Some(version)) + "\" "
    + (if encoding.Some? then " encoding=\"" + AttributeEscape(fullEscapes, encoding) + "\"" else "")
    + (if standalone.Some? then " encoding=\"" + AttributeEscape(fullEscapes, standalone) + "\"" else "")
    + "?>"
  }

  /** The open DOCTYPE: no closing `>`, which comes later. */
  function DoctypeMarkup(fullEscapes: bool, rootName: string, publicID: Option<string>, systemID: Option<string>): string
  {
    "<!DOCTYPE " + rootName
    + (if publicID.Some? then " PUBLIC \"" + AttributeEscape(fullEscapes, publicID) + "\"" else "")
    + (if systemID.Some? then " \"" + AttributeEscape(fullEscapes, systemID) + "\"" else "")
  }

  function CdataMarkup(text: string): string
  {
    "<![CDATA[" + text + "]]>"
  }

  function CommentMarkup(fullEscapes: bool, text: string): string
  {
    "<!--" + TextEscape(fullEscapes, Some(text)) + "-->"
  }

  function ProcessingInstructionMarkup(fullEscapes: bool, target: string, content: Option<string>): string
  {
    "<?" + target + (if content.Some? then " \"" + AttributeEscape(fullEscapes, content) + "\"" else "") + "?>"
  }

  /** An entity reference `&name;`, for internal and external entities alike. */
  function EntityReferenceMarkup(name: string): string
  {
    "&" + name + ";"
  }

  /** An internal entity declaration; the value is written raw. */
  function InternalEntityMarkup(name: string, value: string): string
  {
    " <!ENTITY " + name + " \"" + value + "\">"
  }

  function ExternalEntityMarkup(fullEscapes: bool, name: string, publicID: Option<string>, systemID: string): string
  {
    if publicID.Some? then
      " <!ENTITY " + name + " PUBLIC \"" + AttributeEscape(fullEscapes, publicID) + "\" \"" + AttributeEscape(fullEscapes, Some(systemID)) + "\">"
    else
      " <!ENTITY " + name + " SYSTEM \"" + AttributeEscape(fullEscapes, Some(systemID)) + "\">"
  }

  function UnparsedEntityMarkup(fullEscapes: bool, name: string, publicID: Option<string>, systemID: Option<string>, notation: string): string
  {
    if publicID.Some? then
      if systemID.Some? then
        " <!ENTITY " + name + " PUBLIC \"" + AttributeEscape(fullEscapes, publicID) + "\" \"" + AttributeEscape(fullEscapes, systemID) + "\" NDATA " + notation + ">"
      else
        " <!ENTITY " + name + " PUBLIC \"" + AttributeEscape(fullEscapes, publicID) + "\" NDATA " + notation + ">"
    else
      " <!ENTITY " + name + " SYSTEM \"" + AttributeEscape(fullEscapes, systemID) + "\" NDATA " + notation + ">"
  }

  /** A notation declaration; the notation's name is not written, as in the source. */
  function NotationMarkup(fullEscapes: bool, publicID: Option<string>, systemID: Option<string>): string
  {
    if publicID.Some? then
      if systemID.Some? then
        " <!NOTATION PUBLIC \"" + AttributeEscape(fullEscapes, publicID) + "\" \"" + AttributeEscape(fullEscapes, systemID) + "\">"
      else
        " <!NOTATION PUBLIC \"" + AttributeEscape(fullEscapes, publicID) + "\">"
    else
      " <!NOTATION SYSTEM \"" + AttributeEscape(fullEscapes, systemID) + "\">"
  }

  /** A parameter entity declaration; the value is attribute-escaped and no `%` is written. */
  function ParameterEntityMarkup(fullEscapes: bool, name: string, value: string): string
  {
    " <!ENTITY " + name + " \"" + AttributeEscape(fullEscapes, Some(value)) + "\">"
  }

  /** The `>` that closes a pending start tag, if there is one. */
  function PendingClose(startTagUnfinished: bool): string
  {
    if startTagUnfinished then ">" else ""
  }

  // ---------------------------------------------------------------------------
  // Attributes
  // ---------------------------------------------------------------------------

  /** ` name="value"` for each name of `order`, in that order; the value is not escaped. */
  function AttributeList(order: seq<string>, attributes: map<string, string>): string
    requires forall k :: k in order ==> k in attributes
  {
    if order == [] then ""
    else AttributeMarkup(order[0], attributes[order[0]]) + AttributeList(order[1..], attributes)
  }

  /** One attribute: ` name="value"`. */
  function AttributeMarkup(name: string, value: string): string
  {
    " " + name + "=\"" + value + "\""
  }

  /**
    `order` lists every attribute name exactly once. A Swift dictionary is
    iterated in an unspecified order, so this is all that is known of it.
  */
  ghost predicate Enumerates(order: seq<string>, attributes: map<string, string>)
  {
    (forall i, j :: 0 <= i < j < |order| ==> order[i] != order[j])
    && (forall k :: k in order <==> k in attributes)
  }

  lemma {:induction false} AttributeListSnoc(order: seq<string>, k: string, attributes: map<string, string>)
    requires forall n :: n in order ==> n in attributes
    requires k in attributes
    ensures AttributeList(order + [k], attributes) == AttributeList(order, attributes) + AttributeMarkup(k, attributes[k])
  {
    if order != [] {
      assert (order + [k])[1..] == order[1..] + [k];
      AttributeListSnoc(order[1..], k, attributes);
    }
  }

  // ---------------------------------------------------------------------------
  // The file writer
  // ---------------------------------------------------------------------------

  class EventFileWriter {
    const fullEscapes: bool
    const useWindowsNewlines: bool

    /** Everything written to the file so far. */
    var output: string
    var inInternalSubset: bool
    var documentTypeDeclarationClosed: bool
    var startTagUnfinished: bool
    /** Set by `documentEnd`, which closes the file. */
    var closed: bool

    /** A start tag can only be pending once the DOCTYPE is closed: `elementStart` closes it first. */
    ghost predicate Valid()
      reads this
    {
      startTagUnfinished ==> documentTypeDeclarationClosed
    }

    constructor (fullEscapes: bool, useWindowsNewlines: bool)
      ensures Valid()
      ensures this.fullEscapes == fullEscapes && this.useWindowsNewlines == useWindowsNewlines
      ensures output == [] && !closed
      ensures !inInternalSubset && !documentTypeDeclarationClosed && !startTagUnfinished
    {
      this.fullEscapes := fullEscapes;
      this.useWindowsNewlines := useWindowsNewlines;
      output := [];
      inInternalSubset := false;
      documentTypeDeclarationClosed := false;
      startTagUnfinished := false;
      closed := false;
    }

    /** The line break this writer uses: CR LF exactly when Windows newlines are configured. */
    function Newline(): (nl: string)
      ensures useWindowsNewlines <==> nl == "\r\n"
      ensures !useWindowsNewlines <==> nl == "\n"
    {
      if useWindowsNewlines then "\r\n" else "\n"
    }

    /** What `ensureInternalSubset` writes, given whether the subset is already open. */
    function SubsetOpening(subsetOpen: bool): string
    {
      if subsetOpen then "" else Newline() + "[" + Newline()
    }

    /** What `closeDocumentTypeDeclaration` writes, given the two DOCTYPE flags. */
    function DoctypeClosing(doctypeClosed: bool, subsetOpen: bool): string
    {
      if doctypeClosed then "" else (if subsetOpen then "]" else "") + ">" + Newline()
    }

    method Write(text: string)
      requires !closed
      modifies this`output
      ensures output == old(output) + text
    {
      output := output + text;
    }

    /** `writeLine()`. */
    method WriteNewline()
      requires !closed
      modifies this`output
      ensures output == old(output) + Newline()
    {
      if useWindowsNewlines {
        Write("\r\n");
      } else {
        Write("\n");
      }
    }

    /** `writeLine(text)`. */
    method WriteLine(text: string)
      requires !closed
      modifies this`output
      ensures output == old(output) + text + Newline()
    {
      Write(text);
      WriteNewline();
    }

    /**
      Opens the internal subset once: `SubsetOpening(true)` is empty, so a
      second call writes nothing.
    */
    method EnsureInternalSubset()
      requires !closed
      modifies this`output, this`inInternalSubset
      ensures inInternalSubset
      ensures output == old(output) + SubsetOpening(old(inInternalSubset))
    {
      if !inInternalSubset {
        WriteNewline();
        WriteLine("[");
        inInternalSubset := true;
      }
    }

    /** Closes a pending start tag with `>`: the element turned out to have content. */
    method ConsiderPossibleElementContent()
      requires !closed
      modifies this`output, this`startTagUnfinished
      ensures !startTagUnfinished
      ensures output == old(output) + PendingClose(old(startTagUnfinished))
    {
      if startTagUnfinished {
        Write(">");
        startTagUnfinished := false;
      }
    }

    /**
      Closes the DOCTYPE the first time it is called, whether or not a DOCTYPE
      was written: `DoctypeClosing(true, _)` is empty, so later calls write nothing.
    */
    method CloseDocumentTypeDeclaration()
      requires !closed
      modifies this`output, this`inInternalSubset, this`documentTypeDeclarationClosed
      ensures documentTypeDeclarationClosed
      ensures inInternalSubset == (old(inInternalSubset) && old(documentTypeDeclarationClosed))
      ensures output == old(output) + DoctypeClosing(old(documentTypeDeclarationClosed), old(inInternalSubset))
    {
      if !documentTypeDeclarationClosed {
        if inInternalSubset {
          Write("]");
          inInternalSubset := false;
        }
        WriteLine(">");
        documentTypeDeclarationClosed := true;
      }
    }

    // -------------------------------------------------------------------------
    // Prolog events
    // -------------------------------------------------------------------------

    method XmlDeclaration(version: string, encoding: Option<string>, standalone: Option<string>)
      requires Valid() && !closed
      modifies this`output
      ensures Valid()
      ensures output == old(output) + XmlDeclarationMarkup(fullEscapes, version, encoding, standalone) + Newline()
    {
      WriteLine(XmlDeclarationMarkup(fullEscapes, version, encoding, standalone));
    }

    method DocumentTypeDeclaration(rootName: string, publicID: Option<string>, systemID: Option<string>)
      requires Valid() && !closed
      modifies this`output
      ensures Valid()
      ensures output == old(output) + DoctypeMarkup(fullEscapes, rootName, publicID, systemID)
    {
      Write(DoctypeMarkup(fullEscapes, rootName, publicID, systemID));
    }

    // -------------------------------------------------------------------------
    // Content events: each first closes a pending start tag
    // -------------------------------------------------------------------------

    method Text(text: string, isWhitespace: bool)
      requires Valid() && !closed
      modifies this`output, this`startTagUnfinished
      ensures Valid() && !startTagUnfinished
      ensures output == old(output) + PendingClose(old(startTagUnfinished)) + TextEscape(fullEscapes, Some(text))
    {
      ConsiderPossibleElementContent();
      Write(TextEscape(fullEscapes, Some(text)));
    }

    method CdataSection(text: string)
      requires Valid() && !closed
      modifies this`output, this`startTagUnfinished
      ensures Valid() && !startTagUnfinished
      ensures output == old(output) + PendingClose(old(startTagUnfinished)) + CdataMarkup(text)
    {
      ConsiderPossibleElementContent();
      Write("<![CDATA[" + text + "]]>");
    }

    method Comment(text: string)
      requires Valid() && !closed
      modifies this`output, this`startTagUnfinished
      ensures Valid() && !startTagUnfinished
      ensures output == old(output) + PendingClose(old(startTagUnfinished)) + CommentMarkup(fullEscapes, text)
    {
      ConsiderPossibleElementContent();
      Write("<!--" + TextEscape(fullEscapes, Some(text)) + "-->");
    }

    method ProcessingInstruction(target: string, content: Option<string>)
      requires Valid() && !closed
      modifies this`output, this`startTagUnfinished
      ensures Valid() && !startTagUnfinished
      ensures output == old(output) + PendingClose(old(startTagUnfinished)) + ProcessingInstructionMarkup(fullEscapes, target, content)
    {
      ConsiderPossibleElementContent();
      ghost var start := output;
      ghost var data := if content.Some? then " \"" + AttributeEscape(fullEscapes, content) + "\"" else "";
      Write("<?");
      Write(target);
      ghost var head := output;
      if content.Some? {
        Write(" \"");
        Write(AttributeEscape(fullEscapes, Some(content.value)));
        Write("\"");
        Associative(head, " \"" + AttributeEscape(fullEscapes, content), "\"");
        Associative(head, " \"", AttributeEscape(fullEscapes, content));
      }
      assert output == head + data;
      Write("?>");
      Associative(start, "<?", target);
      Associative(start, "<?" + target, data);
      Associative(start, "<?" + target + data, "?>");
    }

    method InternalEntity(name: string)
      requires Valid() && !closed
      modifies this`output, this`startTagUnfinished
      ensures Valid() && !startTagUnfinished
      ensures output == old(output) + PendingClose(old(startTagUnfinished)) + EntityReferenceMarkup(name)
    {
      ConsiderPossibleElementContent();
      Write("&" + name + ";");
    }

    method ExternalEntity(name: string)
      requires Valid() && !closed
      modifies this`output, this`startTagUnfinished
      ensures Valid() && !startTagUnfinished
      ensures output == old(output) + PendingClose(old(startTagUnfinished)) + EntityReferenceMarkup(name)
    {
      ConsiderPossibleElementContent();
      Write("&" + name + ";");
    }

    // -------------------------------------------------------------------------
    // Elements
    // -------------------------------------------------------------------------

    /** One step of the `forEach` below. */
    method WriteAttribute(name: string, value: string)
      requires !closed
      modifies this`output
      ensures output == old(output) + AttributeMarkup(name, value)
    {
      Write(" ");
      Write(name);
      Write("=\"");
      Write(value);
      Write("\"");
    }

    /** The `forEach` over the attribute dictionary: ` name="value"` per entry, values unescaped. */
    method WriteAttributes(attributes: map<string, string>) returns (ghost order: seq<string>)
      requires !closed
      modifies this`output
      ensures Enumerates(order, attributes)
      ensures output == old(output) + AttributeList(order, attributes)
    {
      var remaining := attributes.Keys;
      order := [];
      while remaining != {}
        invariant remaining <= attributes.Keys
        invariant forall k :: k in order ==> k in attributes && k !in remaining
        invariant forall k :: k in attributes ==> k in order || k in remaining
        invariant forall i, j :: 0 <= i < j < |order| ==> order[i] != order[j]
        invariant output == old(output) + AttributeList(order, attributes)
        decreases |remaining|
      {
        var k :| k in remaining;
        WriteAttribute(k, attributes[k]);
        AttributeListSnoc(order, k, attributes);
        Associative(old(output), AttributeList(order, attributes), AttributeMarkup(k, attributes[k]));
        order := order + [k];
        remaining := remaining - {k};
      }
    }

    /**
      Closes the DOCTYPE (first time only) and any pending start tag, then
      writes `<name` and the attributes, leaving the tag open. `order` is the
      order in which the dictionary handed out its entries.
    */
    method ElementStart(name: string, attributes: map<string, string>, combineTexts: bool) returns (ghost order: seq<string>)
      requires Valid() && !closed
      modifies this`output, this`inInternalSubset, this`documentTypeDeclarationClosed, this`startTagUnfinished
      ensures Valid() && startTagUnfinished && documentTypeDeclarationClosed
      ensures inInternalSubset == (old(inInternalSubset) && old(documentTypeDeclarationClosed))
      ensures Enumerates(order, attributes)
      ensures !old(documentTypeDeclarationClosed) ==> PendingClose(old(startTagUnfinished)) == ""
      ensures output == old(output) + DoctypeClosing(old(documentTypeDeclarationClosed), old(inInternalSubset))
                        + PendingClose(old(startTagUnfinished)) + "<" + name + AttributeList(order, attributes)
    {
      CloseDocumentTypeDeclaration();
      ConsiderPossibleElementContent();
      Write("<" + name);
      order := WriteAttributes(attributes);
      startTagUnfinished := true;
    }

    /** `/>` if the start tag is still pending (the element is empty), `</name>` otherwise. */
    method ElementEnd(name: string)
      requires Valid() && !closed
      modifies this`output, this`startTagUnfinished
      ensures Valid() && !startTagUnfinished
      ensures old(startTagUnfinished) ==> output == old(output) + "/>"
      ensures !old(startTagUnfinished) ==> output == old(output) + "</" + name + ">"
    {
      if startTagUnfinished {
        Write("/>");
        startTagUnfinished := false;
      } else {
        Write("</");
        Write(name);
        Write(">");
      }
    }

    // -------------------------------------------------------------------------
    // Internal-subset declarations: each first opens the subset
    // -------------------------------------------------------------------------

    method InternalEntityDeclaration(name: string, value: string)
      requires Valid() && !closed
      modifies this`output, this`inInternalSubset
      ensures Valid() && inInternalSubset
      ensures output == old(output) + SubsetOpening(old(inInternalSubset)) + InternalEntityMarkup(name, value) + Newline()
    {
      EnsureInternalSubset();
      Write(" <!ENTITY " + name + " \"");
      Write(value);
      WriteLine("\">");
    }

    method ExternalEntityDeclaration(name: string, publicID: Option<string>, systemID: string)
      requires Valid() && !closed
      modifies this`output, this`inInternalSubset
      ensures Valid() && inInternalSubset
      ensures output == old(output) + SubsetOpening(old(inInternalSubset)) + ExternalEntityMarkup(fullEscapes, name, publicID, systemID) + Newline()
    {
      EnsureInternalSubset();
      WriteLine(ExternalEntityMarkup(fullEscapes, name, publicID, systemID));
    }

    method UnparsedEntityDeclaration(name: string, publicID: Option<string>, systemID: Option<string>, notation: string)
      requires Valid() && !closed
      modifies this`output, this`inInternalSubset
      ensures Valid() && inInternalSubset
      ensures output == old(output) + SubsetOpening(old(inInternalSubset)) + UnparsedEntityMarkup(fullEscapes, name, publicID, systemID, notation) + Newline()
    {
      EnsureInternalSubset();
      WriteLine(UnparsedEntityMarkup(fullEscapes, name, publicID, systemID, notation));
    }

    method NotationDeclaration(name: string, publicID: Option<string>, systemID: Option<string>)
      requires Valid() && !closed
      modifies this`output, this`inInternalSubset
      ensures Valid() && inInternalSubset
      ensures output == old(output) + SubsetOpening(old(inInternalSubset)) + NotationMarkup(fullEscapes, publicID, systemID) + Newline()
    {
      EnsureInternalSubset();
      WriteLine(NotationMarkup(fullEscapes, publicID, systemID));
    }

    /** The declaration's own markup text is written as given; the element name is not used. */
    method ElementDeclaration(name: string, text: string)
      requires Valid() && !closed
      modifies this`output, this`inInternalSubset
      ensures Valid() && inInternalSubset
      ensures output == old(output) + SubsetOpening(old(inInternalSubset)) + " " + text + Newline()
    {
      EnsureInternalSubset();
      Write(" ");
      WriteLine(text);
    }

    /** The declaration's own markup text is written as given; the element name is not used. */
    method AttributeListDeclaration(elementName: string, text: string)
      requires Valid() && !closed
      modifies this`output, this`inInternalSubset
      ensures Valid() && inInternalSubset
      ensures output == old(output) + SubsetOpening(old(inInternalSubset)) + " " + text + Newline()
    {
      EnsureInternalSubset();
      Write(" ");
      WriteLine(text);
    }

    method ParameterEntityDeclaration(name: string, value: string)
      requires Valid() && !closed
      modifies this`output, this`inInternalSubset
      ensures Valid() && inInternalSubset
      ensures output == old(output) + SubsetOpening(old(inInternalSubset)) + ParameterEntityMarkup(fullEscapes, name, value) + Newline()
    {
      EnsureInternalSubset();
      WriteLine(ParameterEntityMarkup(fullEscapes, name, value));
    }

    /** Closes the file; nothing more is written. */
    method DocumentEnd()
      modifies this`closed
      ensures closed
    {
      closed := true;
    }
  }

  // ---------------------------------------------------------------------------
  // Whole documents through the writer
  // ---------------------------------------------------------------------------

  /** A DOCTYPE without internal subset, and an element with text content. */
  method DoctypeAndTextDocument() returns (text: string)
    ensures text == "<!DOCTYPE doc>\n<doc>hi</doc>"
  {
    var w := new EventFileWriter(false, false);
    w.DocumentTypeDeclaration("doc", None, None);
    ghost var order := w.ElementStart("doc", map[], false);
    NoAttributes(order);
    w.Text("hi", false);
    w.ElementEnd("doc");
    w.DocumentEnd();
    text := w.output;
    DoctypeAndTextText(w);
  }

  /** What the calls of `DoctypeAndTextDocument` write, piece by piece. */
  lemma DoctypeAndTextText(w: EventFileWriter)
    requires !w.useWindowsNewlines
    ensures [] + DoctypeMarkup(false, "doc", None, None) + w.DoctypeClosing(false, false) + PendingClose(false) + "<" + "doc" + ""
            + PendingClose(true) + TextEscape(false, Some("hi")) + "</" + "doc" + ">"
            == "<!DOCTYPE doc>\n<doc>hi</doc>"
  {
    var s1 := [] + DoctypeMarkup(false, "doc", None, None);
    assert s1 == "<!DOCTYPE doc";
    assert w.DoctypeClosing(false, false) == ">\n";
    var s2 := s1 + w.DoctypeClosing(false, false);
    assert s2 == "<!DOCTYPE doc>\n";
    assert s2 + PendingClose(false) + "<" + "doc" + "" == "<!DOCTYPE doc>\n<doc";
    assert TextEscape(false, Some("hi")) == "hi" by {
      MinimalTextEscape("hi");
    }
    var s3 := s2 + PendingClose(false) + "<" + "doc" + "" + PendingClose(true) + TextEscape(false, Some("hi"));
    assert s3 == "<!DOCTYPE doc>\n<doc>hi";
  }

  /** A DOCTYPE whose internal subset is opened by one entity declaration, and an empty root. */
  method InternalSubsetDocument() returns (text: string)
    ensures text == "<!DOCTYPE doc\n[\n <!ENTITY x \"1\">\n]>\n<root/>"
  {
    var w := new EventFileWriter(false, false);
    w.DocumentTypeDeclaration("doc", None, None);
    w.InternalEntityDeclaration("x", "1");
    ghost var order := w.ElementStart("root", map[], false);
    NoAttributes(order);
    w.ElementEnd("root");
    w.DocumentEnd();
    text := w.output;
    InternalSubsetText(w);
  }

  /** What the calls of `InternalSubsetDocument` write, piece by piece. */
  lemma InternalSubsetText(w: EventFileWriter)
    requires !w.useWindowsNewlines
    ensures [] + DoctypeMarkup(false, "doc", None, None) + w.SubsetOpening(false) + InternalEntityMarkup("x", "1") + w.Newline()
            + w.DoctypeClosing(false, true) + PendingClose(false) + "<" + "root" + "" + "/>"
            == "<!DOCTYPE doc\n[\n <!ENTITY x \"1\">\n]>\n<root/>"
  {
    var s1 := [] + DoctypeMarkup(false, "doc", None, None);
    assert s1 == "<!DOCTYPE doc";
    assert w.SubsetOpening(false) == "\n[\n";
    var s2 := s1 + w.SubsetOpening(false);
    assert s2 == "<!DOCTYPE doc\n[\n";
    var s3 := s2 + InternalEntityMarkup("x", "1") + w.Newline();
    assert s3 == "<!DOCTYPE doc\n[\n <!ENTITY x \"1\">\n";
    assert w.DoctypeClosing(false, true) == "]>\n";
    var s4 := s3 + w.DoctypeClosing(false, true);
    assert s4 == "<!DOCTYPE doc\n[\n <!ENTITY x \"1\">\n]>\n";
  }

  /**
    Without any DOCTYPE the first element start still writes `>` and a
    newline (here CR LF); an empty child is written `<b/>`, a parent `</a>`.
  */
  method DocumentWithoutDoctype() returns (text: string)
    ensures text == ">\r\n<a><b/></a>"
  {
    var w := new EventFileWriter(true, true);
    ghost var order := w.ElementStart("a", map[], false);
    NoAttributes(order);
    assert w.output == ">\r\n<a";
    order := w.ElementStart("b", map[], false);
    NoAttributes(order);
    assert w.output == ">\r\n<a><b";
    w.ElementEnd("b");
    assert w.output == ">\r\n<a><b/>";
    w.ElementEnd("a");
    text := w.output;
  }

  /** Regrouping a concatenation, for the write sequences above. */
  lemma Associative(a: string, b: string, c: string)
    ensures a + (b + c) == a + b + c
  {
  }

  lemma NoAttributes(order: seq<string>)
    ensures Enumerates(order, map[]) ==> order == [] && AttributeList(order, map[]) == ""
  {
    if order != [] {
      assert order[0] in order;
    }
  }

  // ---------------------------------------------------------------------------
  // The counter
  // ---------------------------------------------------------------------------

  /** Counts every event, and element starts separately. */
  class EventCounter {
    var elementCount: int
    var allEvents: int

    ghost predicate Valid()
      reads this
    {
      0 <= elementCount <= allEvents
    }

    constructor ()
      ensures Valid() && elementCount == 0 && allEvents == 0
    {
      elementCount := 0;
      allEvents := 0;
    }

    method DocumentStart()
      requires Valid()
      modifies this
      ensures Valid() && allEvents == old(allEvents) + 1 && elementCount == old(elementCount)
    {
      allEvents := allEvents + 1;
    }

    method XmlDeclaration()
      requires Valid()
      modifies this
      ensures Valid() && allEvents == old(allEvents) + 1 && elementCount == old(elementCount)
    {
      allEvents := allEvents + 1;
    }

    method DocumentTypeDeclaration()
      requires Valid()
      modifies this
      ensures Valid() && allEvents == old(allEvents) + 1 && elementCount == old(elementCount)
    {
      allEvents := allEvents + 1;
    }

    method Text()
      requires Valid()
      modifies this
      ensures Valid() && allEvents == old(allEvents) + 1 && elementCount == old(elementCount)
    {
      allEvents := allEvents + 1;
    }

    method CdataSection()
      requires Valid()
      modifies this
      ensures Valid() && allEvents == old(allEvents) + 1 && elementCount == old(elementCount)
    {
      allEvents := allEvents + 1;
    }

    method Comment()
      requires Valid()
      modifies this
      ensures Valid() && allEvents == old(allEvents) + 1 && elementCount == old(elementCount)
    {
      allEvents := allEvents + 1;
    }

    method ElementStart()
      requires Valid()
      modifies this
      ensures Valid() && allEvents == old(allEvents) + 1 && elementCount == old(elementCount) + 1
    {
      allEvents := allEvents + 1;
      elementCount := elementCount + 1;
    }

    method ElementEnd()
      requires Valid()
      modifies this
      ensures Valid() && allEvents == old(allEvents) + 1 && elementCount == old(elementCount)
    {
      allEvents := allEvents + 1;
    }

    method ProcessingInstruction()
      requires Valid()
      modifies this
      ensures Valid() && allEvents == old(allEvents) + 1 && elementCount == old(elementCount)
    {
      allEvents := allEvents + 1;
    }

    method InternalEntityDeclaration()
      requires Valid()
      modifies this
      ensures Valid() && allEvents == old(allEvents) + 1 && elementCount == old(elementCount)
    {
      allEvents := allEvents + 1;
    }

    method ExternalEntityDeclaration()
      requires Valid()
      modifies this
      ensures Valid() && allEvents == old(allEvents) + 1 && elementCount == old(elementCount)
    {
      allEvents := allEvents + 1;
    }

    method UnparsedEntityDeclaration()
      requires Valid()
      modifies this
      ensures Valid() && allEvents == old(allEvents) + 1 && elementCount == old(elementCount)
    {
      allEvents := allEvents + 1;
    }

    method NotationDeclaration()
      requires Valid()
      modifies this
      ensures Valid() && allEvents == old(allEvents) + 1 && elementCount == old(elementCount)
    {
      allEvents := allEvents + 1;
    }

    method InternalEntity()
      requires Valid()
      modifies this
      ensures Valid() && allEvents == old(allEvents) + 1 && elementCount == old(elementCount)
    {
      allEvents := allEvents + 1;
    }

    method ExternalEntity()
      requires Valid()
      modifies this
      ensures Valid() && allEvents == old(allEvents) + 1 && elementCount == old(elementCount)
    {
      allEvents := allEvents + 1;
    }

    method ElementDeclaration()
      requires Valid()
      modifies this
      ensures Valid() && allEvents == old(allEvents) + 1 && elementCount == old(elementCount)
    {
      allEvents := allEvents + 1;
    }

    method AttributeListDeclaration()
      requires Valid()
      modifies this
      ensures Valid() && allEvents == old(allEvents) + 1 && elementCount == old(elementCount)
    {
      allEvents := allEvents + 1;
    }

    method ParameterEntityDeclaration()
      requires Valid()
      modifies this
      ensures Valid() && allEvents == old(allEvents) + 1 && elementCount == old(elementCount)
    {
      allEvents := allEvents + 1;
    }

    method DocumentEnd()
      requires Valid()
      modifies this
      ensures Valid() && allEvents == old(allEvents) + 1 && elementCount == old(elementCount)
    {
      allEvents := allEvents + 1;
    }
  }
}
