/**
 * The Atom entry extractor of the feed reader: a single pass over the parser's
 * event stream that keeps an "inside an entry" flag, the name of the element
 * whose text is being collected, title and summary buffers and the captured
 * link, and hands a new filing to the store each time an entry closes.
 */
module AtomExtract {
  import opened Options
  import opened JavaString
  import EntityDecode
  import Entity

  /**
   * One event of the streaming XML reader. `Start` carries the element's local
   * name and its unqualified `rel` and `href` attributes when present; `Other`
   * is any event the extractor does not look at (document start and end,
   * comments, processing instructions); `Fault` is the reader reporting a
   * malformed document, which ends the pass.
   */
  datatype Event =
    | Start(name: string, rel: Option<string>, href: Option<string>)
    | Characters(data: string)
    | End(name: string)
    | Other
    | Fault

  /** The fixed origin put in front of every captured link. */
  const Origin: string := "https://www.sec.gov"

  /** XML white space: space, tab, line feed, carriage return. */
  predicate XmlSpace(c: char) {
    c == ' ' || c == '\t' || c == '\n' || c == '\r'
  }

  /** Character data made only of XML white space. */
  predicate IsWhiteSpace(data: string): (b: bool)
    ensures b <==> forall k :: 0 <= k < |data| ==> XmlSpace(data[k])
    decreases |data|
  {
    data == [] || (XmlSpace(data[0]) && IsWhiteSpace(data[1..]))
  }

  /** A link is taken when it has an `href` and its `rel` is absent or "alternate". */
  predicate Qualifies(rel: Option<string>, href: Option<string>): (b: bool)
    ensures b ==> href.Some?
    ensures rel.Some? && rel.value != "alternate" ==> !b
  {
    href.Some? && (rel == Some("alternate") || rel == None)
  }

  predicate OpensEntry(e: Event) {
    e.Start? && e.name == "entry"
  }

  predicate ClosesEntry(e: Event) {
    e.End? && e.name == "entry"
  }

  /** A `link` start tag whose link the extractor takes. */
  predicate IsTakenLink(e: Event) {
    e.Start? && e.name == "link" && Qualifies(e.rel, e.href)
  }

  /** The extractor's variables between two events. */
  datatype Scan = Scan(inEntry: bool, current: Option<string>, title: string,
                       summary: string, altLink: string, failed: bool)

  const Initial: Scan := Scan(false, None, "", "", "", false)

  /** The state right after an entry opens outside any entry. */
  const EntryStart: Scan := Scan(true, None, "", "", "", false)

  /** Outside any entry, no element current, no failure: where a well-formed feed's entries start and end. */
  predicate Idle(s: Scan) {
    !s.inEntry && s.current == None && !s.failed
  }

  /** The effect of one event on the extractor's variables. */
  function Step(s: Scan, e: Event): (r: Scan)
    ensures r.failed <==> s.failed || e == Fault
    ensures r.inEntry != s.inEntry ==> OpensEntry(e) || Closing(s, e)
    ensures (s.current.Some? ==> s.inEntry) ==> (r.current.Some? ==> r.inEntry)
  {
    if s.failed then s
    else match e
      case Start(name, rel, href) => OnStart(s, name, rel, href)
      case Characters(data) => OnText(s, data)
      case End(name) => OnEnd(s, name)
      case Other => s
      case Fault => s.(failed := true)
  }

  /**
   * A start tag: an `entry` opens a new entry with empty buffers; inside an
   * entry any other element becomes current, and a taken `link` sets the
   * captured link; outside an entry it is ignored.
   */
  function OnStart(s: Scan, name: string, rel: Option<string>, href: Option<string>): (r: Scan)
    ensures r.failed == s.failed
    ensures name == "entry" ==> r.inEntry && r.title == "" && r.summary == "" && r.altLink == ""
    ensures name != "entry" ==> r.inEntry == s.inEntry && r.title == s.title && r.summary == s.summary
    ensures name != "entry" && r.altLink != s.altLink ==> name == "link" && Qualifies(rel, href) && r.altLink == href.value
  {
    if name == "entry" then s.(inEntry := true, title := "", summary := "", altLink := "")
    else if s.inEntry then
      s.(current := Some(name),
         altLink := if name == "link" && Qualifies(rel, href) then href.value else s.altLink)
    else s
  }

  /** Character data that is not all white space goes to the buffer of the current `title` or `summary`, inside an entry. */
  function OnText(s: Scan, data: string): (r: Scan)
    ensures r.inEntry == s.inEntry && r.current == s.current && r.altLink == s.altLink && r.failed == s.failed
    ensures r.title == s.title || r.title == s.title + data
    ensures r.summary == s.summary || r.summary == s.summary + data
    ensures IsWhiteSpace(data) || !s.inEntry ==> r == s
  {
    if s.inEntry && s.current.Some? && !IsWhiteSpace(data) then
      if s.current == Some("title") then s.(title := s.title + data)
      else if s.current == Some("summary") then s.(summary := s.summary + data)
      else s
    else s
  }

  /** An end tag: an `entry` closes the entry; the end of the current element clears it. */
  function OnEnd(s: Scan, name: string): (r: Scan)
    ensures r.title == s.title && r.summary == s.summary && r.altLink == s.altLink && r.failed == s.failed
    ensures r.current == s.current || r.current == None
    ensures r.inEntry ==> s.inEntry
  {
    if name == "entry" && s.inEntry then s.(inEntry := false, current := None)
    else if s.current == Some(name) then s.(current := None)
    else s
  }

  /** An event closes an entry, in state `s`, when it is the end of an entry read inside one. */
  predicate Closing(s: Scan, e: Event) {
    !s.failed && ClosesEntry(e) && s.inEntry
  }

  /** The state after the events `es`, from `s`. */
  function Run(s: Scan, es: seq<Event>): (r: Scan)
    ensures r.failed <==> s.failed || Fault in es
    decreases |es|
  {
    if es == [] then s
    else
      assert es == es[..|es| - 1] + [es[|es| - 1]];
      Step(Run(s, es[..|es| - 1]), es[|es| - 1])
  }

  /** The states in which an entry closed while reading `es` from `s`, in document order. */
  function Closes(s: Scan, es: seq<Event>): (r: seq<Scan>)
    ensures |r| <= |es|
    ensures forall k :: 0 <= k < |r| ==> r[k].inEntry && !r[k].failed
    decreases |es|
  {
    if es == [] then []
    else
      var before := Run(s, es[..|es| - 1]);
      Closes(s, es[..|es| - 1]) + (if Closing(before, es[|es| - 1]) then [before] else [])
  }

  /** What one entry yields: the texts the service stores into a new filing. */
  datatype Candidate = Candidate(title: string, link: string, summary: string)

  /** The buffers at the close of an entry, as stored: title trimmed, link prefixed, summary trimmed and decoded. */
  function CandidateFrom(title: string, altLink: string, summary: string): (r: Candidate)
    ensures StartsWith(r.link, Origin) && r.link[|Origin|..] == altLink
    ensures r.title == [] || (!Trimmable(r.title[0]) && !Trimmable(r.title[|r.title| - 1]))
    ensures |r.title| <= |title| && |r.summary| <= |summary|
  {
    Candidate(Trim(title), Origin + altLink, EntityDecode.Decode(Trim(summary)))
  }

  /** The filing built when an entry closes in state `s`. */
  function CandidateOf(s: Scan): (r: Candidate)
    ensures StartsWith(r.link, Origin) && r.link[|Origin|..] == s.altLink
    ensures |r.title| <= |s.title| && |r.summary| <= |s.summary|
  {
    CandidateFrom(s.title, s.altLink, s.summary)
  }

  /** The filing built from each closing state, in order. */
  function Stored(c: seq<Scan>): (r: seq<Candidate>)
    ensures |r| == |c|
  {
    seq(|c|, j requires 0 <= j < |c| => CandidateOf(c[j]))
  }

  /** What the whole event stream yields, in document order. */
  function Extract(es: seq<Event>): (r: seq<Candidate>)
    ensures |r| <= |es|
  {
    Stored(Closes(Initial, es))
  }

  /** The row saved for a candidate: its three texts, and null in the fields the store assigns. */
  function RowOf(c: Candidate): Entity.Row {
    Entity.Row(None, Some(c.title), Some(c.link), Some(c.summary), None, None)
  }

  /** The rows saved for a sequence of candidates, in order. */
  function Rows(cs: seq<Candidate>): seq<Entity.Row>
    decreases |cs|
  {
    if cs == [] then [] else Rows(cs[..|cs| - 1]) + [RowOf(cs[|cs| - 1])]
  }

  /**
   * The variables the event loop updates while it reads: the "inside an entry"
   * flag, the current element, the title and summary buffers and the captured link.
   */
  class EntryScanner {
    var inEntry: bool
    var current: Option<string>
    var title: string
    var summary: string
    var altLink: string

    /** The variables as a value of the specification. */
    function State(): Scan
      reads this
    {
      Scan(inEntry, current, title, summary, altLink, false)
    }

    constructor ()
      ensures State() == Initial
    {
      inEntry, current, title, summary, altLink := false, None, "", "", "";
    }

    /** A start tag. */
    method StartElement(name: string, rel: Option<string>, href: Option<string>)
      modifies this
      ensures State() == Step(old(State()), Start(name, rel, href))
    {
      if name == "entry" {
        inEntry := true;
        title := "";
        summary := "";
        altLink := "";
      } else if inEntry {
        current := Some(name);
        if name == "link" && href.Some? && (rel == Some("alternate") || rel == None) {
          altLink := href.value;
        }
      }
    }

    /** Character data. */
    method CharacterData(data: string)
      modifies this
      ensures State() == Step(old(State()), Characters(data))
    {
      if inEntry && current.Some? && !IsWhiteSpace(data) {
        if current.value == "title" {
          title := title + data;
        } else if current.value == "summary" {
          summary := summary + data;
        }
      }
    }

    /** An end tag, after the filing of a closing entry has been built. */
    method EndElement(name: string)
      modifies this
      ensures State() == Step(old(State()), End(name))
    {
      if name == "entry" && inEntry {
        inEntry := false;
        current := None;
      } else if current == Some(name) {
        current := None;
      }
    }
  }

  /** The new filing the loop builds from the buffers when an entry closes. */
  method Store(title: string, altLink: string, summary: string) returns (f: Entity.Filing)
    ensures fresh(f) && f.Contents() == RowOf(CandidateFrom(title, altLink, summary))
  {
    f := new Entity.Filing();
    f.SetTitle(Some(Trim(title)));
    f.SetLink(Some(Origin + altLink));
    f.SetSummary(Some(EntityDecode.Decode(Trim(summary))));
  }

  /**
   * The body of the event loop for one event other than a reader failure: the
   * scanner takes the event, and when it closes an entry the filing built
   * from the buffers is returned, to be handed to the store.
   */
  method HandleEvent(scanner: EntryScanner, ev: Event) returns (filing: Option<Entity.Filing>)
    requires ev != Fault
    modifies scanner
    ensures scanner.State() == Step(old(scanner.State()), ev)
    ensures filing.Some? <==> Closing(old(scanner.State()), ev)
    ensures filing.Some? ==> fresh(filing.value)
    ensures filing.Some? ==> filing.value.Contents() == RowOf(CandidateOf(old(scanner.State())))
  {
    filing := None;
    match ev {
      case Start(name, rel, href) =>
        scanner.StartElement(name, rel, href);
      case Characters(data) =>
        scanner.CharacterData(data);
      case End(name) =>
        if name == "entry" && scanner.inEntry {
          var f := Store(scanner.title, scanner.altLink, scanner.summary);
          filing := Some(f);
        }
        scanner.EndElement(name);
      case Other =>
    }
  }

  /**
   * The event loop. `saved` lists the filings handed to the store, in the order
   * they were handed over, each a distinct new object; `failed` says whether
   * the reader reported a malformed document, in which case the filings of the
   * entries closed before that point have still been handed over.
   */
  method ParseAndSave(events: seq<Event>) returns (saved: seq<Entity.Row>, failed: bool)
    ensures failed == Run(Initial, events).failed
    ensures saved == Rows(Extract(events))
  {
    var scanner := new EntryScanner();
    saved, failed := [], false;
    var i := 0;
    while i < |events|
      invariant 0 <= i <= |events|
      invariant scanner.State() == Run(Initial, events[..i])
      invariant saved == Rows(Extract(events[..i]))
    {
      var ev := events[i];
      if ev == Fault {
        failed := true;
        FaultAt(events, i);
        return;
      }
      var filing := HandleEvent(scanner, ev);
      NextEvent(events, i);
      if filing.Some? {
        saved := saved + [filing.value.Contents()];
      }
      i := i + 1;
    }
    assert events[..i] == events;
  }

  /** One more event of the stream. */
  lemma {:induction false} NextEvent(es: seq<Event>, i: nat)
    requires i < |es|
    ensures Run(Initial, es[..i + 1]) == Step(Run(Initial, es[..i]), es[i])
    ensures !Closing(Run(Initial, es[..i]), es[i]) ==> Rows(Extract(es[..i + 1])) == Rows(Extract(es[..i]))
    ensures Closing(Run(Initial, es[..i]), es[i]) ==>
              Rows(Extract(es[..i + 1])) == Rows(Extract(es[..i])) + [RowOf(CandidateOf(Run(Initial, es[..i])))]
  {
    var p := es[..i + 1];
    assert p[..i] == es[..i];
    var c := Closes(Initial, es[..i]);
    if Closing(Run(Initial, es[..i]), es[i]) {
      var c' := c + [Run(Initial, es[..i])];
      assert c'[..|c'| - 1] == c;
      assert Stored(c') == Stored(c) + [CandidateOf(Run(Initial, es[..i]))];
      var s' := Stored(c');
      assert s'[..|s'| - 1] == Stored(c);
    } else {
      assert c + [] == c;
    }
  }

  /** The filings of two runs of closing states are those of the first, then those of the second. */
  lemma {:induction false} StoredConcat(a: seq<Scan>, b: seq<Scan>)
    ensures Stored(a + b) == Stored(a) + Stored(b)
  {
  }

  /** Reading `p` then `q` is reading `p + q`. */
  lemma {:induction false} RunSplit(s: Scan, p: seq<Event>, q: seq<Event>)
    ensures Run(s, p + q) == Run(Run(s, p), q)
    ensures Closes(s, p + q) == Closes(s, p) + Closes(Run(s, p), q)
    decreases |q|
  {
    if q == [] {
      assert p + q == p;
    } else {
      var q' := q[..|q| - 1];
      assert (p + q)[..|p + q| - 1] == p + q';
      assert (p + q)[|p + q| - 1] == q[|q| - 1];
      RunSplit(s, p, q');
    }
  }

  /** Reading a single event. */
  lemma {:induction false} RunOne(s: Scan, e: Event)
    ensures Run(s, [e]) == Step(s, e)
    ensures Closes(s, [e]) == if Closing(s, e) then [s] else []
  {
    assert [e][..0] == [];
  }

  /** Once the reader has failed, nothing more is read and no entry closes. */
  lemma {:induction false} FailedIsFinal(s: Scan, q: seq<Event>)
    requires s.failed
    ensures Run(s, q) == s && Closes(s, q) == []
    decreases |q|
  {
    if q != [] {
      FailedIsFinal(s, q[..|q| - 1]);
    }
  }

  /** The events after a malformed point change nothing: the result is that of the events before it. */
  lemma {:induction false} FaultEndsExtraction(p: seq<Event>, q: seq<Event>)
    ensures Run(Initial, p + [Fault] + q).failed
    ensures Closes(Initial, p + [Fault] + q) == Closes(Initial, p)
  {
    RunSplit(Initial, p, [Fault]);
    RunOne(Run(Initial, p), Fault);
    FailedIsFinal(Run(Initial, p + [Fault]), q);
    RunSplit(Initial, p + [Fault], q);
  }

  /** The stream read up to a reader failure at `i`. */
  lemma {:induction false} FaultAt(es: seq<Event>, i: nat)
    requires i < |es| && es[i] == Fault
    ensures Run(Initial, es).failed
    ensures Closes(Initial, es) == Closes(Initial, es[..i])
  {
    FaultEndsExtraction(es[..i], es[i + 1..]);
    assert es[..i] + [Fault] + es[i + 1..] == es;
  }
}
