/**
 * What the entry extractor guarantees about the filings it produces, for any
 * event stream and for the streams a well-formed Atom feed gives.
 */
module ExtractProperties {
  import opened Options
  import opened JavaString
  import opened AtomExtract
  import EntityDecode

  /** Reading `e` first, then `q`. */
  lemma {:induction false} RunCons(s: Scan, e: Event, q: seq<Event>)
    ensures Run(s, [e] + q) == Run(Step(s, e), q)
    ensures Closes(s, [e] + q) == (if Closing(s, e) then [s] else []) + Closes(Step(s, e), q)
  {
    RunSplit(s, [e], q);
    RunOne(s, e);
  }

  /** Reading `p`, then `e`. */
  lemma {:induction false} RunSnoc(s: Scan, p: seq<Event>, e: Event)
    ensures Run(s, p + [e]) == Step(Run(s, p), e)
    ensures Closes(s, p + [e]) == Closes(s, p) + (if Closing(Run(s, p), e) then [Run(s, p)] else [])
  {
    assert (p + [e])[..|p|] == p;
  }

  /** Outside an entry no element is current. */
  predicate NoStrayCurrent(s: Scan) {
    !s.inEntry ==> s.current == None
  }

  /** Every state the extractor reaches from the start has no current element outside an entry. */
  lemma {:induction false} ReachableHasNoStrayCurrent(es: seq<Event>)
    ensures NoStrayCurrent(Run(Initial, es))
    decreases |es|
  {
    if es != [] {
      ReachableHasNoStrayCurrent(es[..|es| - 1]);
    }
  }

  /** Number of `entry` end tags in `es`. */
  function EndTags(es: seq<Event>): nat
    decreases |es|
  {
    if es == [] then 0
    else EndTags(es[..|es| - 1]) + (if ClosesEntry(es[|es| - 1]) then 1 else 0)
  }

  /** At most one filing per `entry` end tag. */
  lemma {:induction false} AtMostOnePerEndTag(s: Scan, es: seq<Event>)
    ensures |Closes(s, es)| <= EndTags(es)
    decreases |es|
  {
    if es != [] {
      AtMostOnePerEndTag(s, es[..|es| - 1]);
    }
  }

  /**
   * Outside an entry, with no current element, events that open no entry
   * produce no filing and change nothing but, on a reader failure, the failed flag.
   */
  lemma {:induction false} OutsideEntryIsSilent(s: Scan, q: seq<Event>)
    requires !s.inEntry && s.current == None
    requires forall k :: 0 <= k < |q| ==> !OpensEntry(q[k])
    ensures Closes(s, q) == []
    ensures Run(s, q) == s.(failed := Run(s, q).failed)
    ensures (forall k :: 0 <= k < |q| ==> q[k] != Fault) ==> Run(s, q) == s
    decreases |q|
  {
    if q != [] {
      var p := q[..|q| - 1];
      assert forall k :: 0 <= k < |p| ==> p[k] == q[k];
      OutsideEntryIsSilent(s, p);
    }
  }

  /** Opening an entry forgets the buffers of everything read before: only the current element carries over. */
  lemma {:induction false} OpeningForgetsBuffers(s: Scan, s': Scan, rel: Option<string>, href: Option<string>, q: seq<Event>)
    requires !s.failed && !s'.failed && s.current == s'.current
    ensures Run(s, [Start("entry", rel, href)] + q) == Run(s', [Start("entry", rel, href)] + q)
    ensures Closes(s, [Start("entry", rel, href)] + q) == Closes(s', [Start("entry", rel, href)] + q)
  {
    var e := Start("entry", rel, href);
    RunCons(s, e, q);
    RunCons(s', e, q);
    assert Step(s, e) == Step(s', e);
  }

  /** The `href` of the last taken link in `q`, or `dflt` when `q` has none. */
  function LastTakenLink(q: seq<Event>, dflt: string): string
    decreases |q|
  {
    if q == [] then dflt
    else if IsTakenLink(q[|q| - 1]) then q[|q| - 1].href.value
    else LastTakenLink(q[..|q| - 1], dflt)
  }

  /**
   * Inside an entry, as long as no entry opens or closes and the reader does
   * not fail, the captured link is the `href` of the last taken link, and no
   * filing is produced.
   */
  lemma {:induction false} CapturedLinkIsLastTaken(s: Scan, q: seq<Event>)
    requires s.inEntry && !s.failed
    requires forall k :: 0 <= k < |q| ==> !OpensEntry(q[k]) && !ClosesEntry(q[k]) && q[k] != Fault
    ensures Run(s, q).inEntry && !Run(s, q).failed
    ensures Run(s, q).altLink == LastTakenLink(q, s.altLink)
    ensures Closes(s, q) == []
    decreases |q|
  {
    if q != [] {
      var p := q[..|q| - 1];
      assert forall k :: 0 <= k < |p| ==> p[k] == q[k];
      CapturedLinkIsLastTaken(s, p);
    }
  }

  /** The character data of `q` that is not all white space, concatenated. */
  function Text(q: seq<Event>): string
    decreases |q|
  {
    if q == [] then []
    else
      var e := q[|q| - 1];
      Text(q[..|q| - 1]) + (if e.Characters? && !IsWhiteSpace(e.data) then e.data else [])
  }

  /** Concatenation regrouped. */
  lemma {:induction false} Regroup(a: string, b: string, c: string)
    ensures a + b + c == a + (b + c)
  {
  }

  /**
   * Character data read inside an entry while `title` (or `summary`) is the
   * current element is appended to the title (or summary) buffer, white-space
   * pieces left out; under any other element it is dropped.
   */
  lemma {:induction false} TextWhileCurrent(s: Scan, q: seq<Event>)
    requires s.inEntry && !s.failed && s.current.Some?
    requires forall k :: 0 <= k < |q| ==> q[k].Characters?
    ensures s.current == Some("title") ==> Run(s, q) == s.(title := s.title + Text(q))
    ensures s.current == Some("summary") ==> Run(s, q) == s.(summary := s.summary + Text(q))
    ensures s.current != Some("title") && s.current != Some("summary") ==> Run(s, q) == s
    ensures Closes(s, q) == []
    decreases |q|
  {
    if q != [] {
      var p := q[..|q| - 1];
      assert forall k :: 0 <= k < |p| ==> p[k] == q[k];
      TextWhileCurrent(s, p);
      var e := q[|q| - 1];
      var piece := if IsWhiteSpace(e.data) then [] else e.data;
      assert Text(q) == Text(p) + piece;
      if s.current == Some("title") {
        Regroup(s.title, Text(p), piece);
      } else if s.current == Some("summary") {
        Regroup(s.summary, Text(p), piece);
      }
    } else {
      assert s.title + [] == s.title;
      assert s.summary + [] == s.summary;
    }
  }

  /** XML white space is among the characters `String.trim` strips. */
  lemma {:induction false} WhiteSpaceIsTrimmable(data: string)
    requires IsWhiteSpace(data)
    ensures forall k :: 0 <= k < |data| ==> Trimmable(data[k])
    decreases |data|
  {
    if data != [] {
      WhiteSpaceIsTrimmable(data[1..]);
      assert forall k :: 1 <= k < |data| ==> data[k] == data[1..][k - 1];
    }
  }

  /** A buffer that took a single piece of text, or dropped it as white space, trims as that text does. */
  lemma {:induction false} TrimOfOneText(t: string)
    ensures Trim(if IsWhiteSpace(t) then "" else t) == Trim(t)
  {
    if IsWhiteSpace(t) {
      WhiteSpaceIsTrimmable(t);
      TrimOfBlank(t);
      TrimOfBlank("");
    }
  }

  /** Every filing's link is the origin followed by the captured link, and its title is trimmed. */
  lemma {:induction false} LinksCarryOrigin(es: seq<Event>)
    ensures forall j :: 0 <= j < |Extract(es)| ==>
      StartsWith(Extract(es)[j].link, Origin)
      && (Extract(es)[j].title == [] || !Trimmable(Extract(es)[j].title[0]))
  {
  }

  /** An element holding one piece of character data. */
  function Element(name: string, text: string): seq<Event> {
    [Start(name, None, None), Characters(text), End(name)]
  }

  /** Inside an entry, an element other than `entry` and `link` sets its text as `OnText` does and is then no longer current. */
  lemma {:induction false} ElementRun(s: Scan, name: string, text: string)
    requires s.inEntry && !s.failed && name != "entry" && name != "link"
    ensures Run(s, Element(name, text)) == OnText(s.(current := Some(name)), text).(current := None)
    ensures Closes(s, Element(name, text)) == []
  {
    var a, b, c := Start(name, None, None), Characters(text), End(name);
    var s1 := s.(current := Some(name));
    var s2 := OnText(s1, text);
    assert Element(name, text) == [a, b] + [c];
    assert [a, b] == [a] + [b];
    RunOne(s, a);
    assert Run(s, [a]) == s1;
    RunSnoc(s, [a], b);
    assert Run(s, [a, b]) == s2;
    RunSnoc(s, [a, b], c);
  }

  /**
   * The contents of one feed entry: title text, the alternate link if any,
   * summary text, then its other elements (update time, category, id, ...),
   * each a name and its text.
   */
  datatype EntryText = EntryText(title: string, link: Option<string>, summary: string,
                                 others: seq<(string, string)>)

  /** An element whose text the extractor keeps nowhere. */
  predicate Ignored(name: string) {
    name != "entry" && name != "link" && name != "title" && name != "summary"
  }

  /** The other elements of an entry are all ignored ones. */
  predicate PlainEntry(x: EntryText) {
    forall k :: 0 <= k < |x.others| ==> Ignored(x.others[k].0)
  }

  /** The events of a list of elements, one after the other. */
  function Elements(es: seq<(string, string)>): seq<Event>
    decreases |es|
  {
    if es == [] then [] else Elements(es[..|es| - 1]) + Element(es[|es| - 1].0, es[|es| - 1].1)
  }

  /** An alternate link element when there is one. */
  function LinkEvents(link: Option<string>): seq<Event> {
    if link.Some? then [Start("link", Some("alternate"), link), End("link")] else []
  }

  /** The events between the start and the end tag of one entry as a well-formed Atom feed gives them. */
  function EntryBody(x: EntryText): seq<Event> {
    Element("title", x.title) + LinkEvents(x.link) + Element("summary", x.summary) + Elements(x.others)
  }

  /** The events of one entry. */
  function EntryEvents(x: EntryText): seq<Event> {
    [Start("entry", None, None)] + EntryBody(x) + [End("entry")]
  }

  /** The filing a service stores for an entry. */
  function Expected(x: EntryText): Candidate {
    Candidate(Trim(x.title), Origin + (if x.link.Some? then x.link.value else ""),
              EntityDecode.Decode(Trim(x.summary)))
  }

  /** A link element inside an entry captures its `href` and produces nothing. */
  lemma {:induction false} LinkRun(s: Scan, link: Option<string>)
    requires s.inEntry && !s.failed && s.current == None
    ensures Run(s, LinkEvents(link)) == (if link.Some? then s.(altLink := link.value) else s)
    ensures Closes(s, LinkEvents(link)) == []
  {
    if link.Some? {
      var e := Start("link", Some("alternate"), link);
      assert LinkEvents(link) == [e] + [End("link")];
      RunCons(s, e, [End("link")]);
      RunOne(Step(s, e), End("link"));
    } else {
      assert LinkEvents(link) == [];
    }
  }

  /** The buffers at the end of an entry's body. */
  function Filled(x: EntryText): Scan {
    EntryStart.(title := if IsWhiteSpace(x.title) then "" else x.title,
                altLink := if x.link.Some? then x.link.value else "",
                summary := if IsWhiteSpace(x.summary) then "" else x.summary)
  }

  /** Two silent stretches read one after the other make one silent stretch. */
  lemma {:induction false} Chain(s: Scan, p: seq<Event>, mid: Scan, q: seq<Event>, fin: Scan)
    requires Run(s, p) == mid && Closes(s, p) == []
    requires Run(mid, q) == fin && Closes(mid, q) == []
    ensures Run(s, p + q) == fin && Closes(s, p + q) == []
  {
    RunSplit(s, p, q);
  }

  /** A `title` element with no title read yet: its text becomes the title unless it is all white space. */
  lemma {:induction false} TitleRun(s: Scan, text: string)
    requires s.inEntry && !s.failed && s.current == None && s.title == ""
    ensures Run(s, Element("title", text)) == s.(title := if IsWhiteSpace(text) then "" else text)
    ensures Closes(s, Element("title", text)) == []
  {
    ElementRun(s, "title", text);
    assert "" + text == text;
  }

  /** A `summary` element with no summary read yet: its text becomes the summary unless it is all white space. */
  lemma {:induction false} SummaryRun(s: Scan, text: string)
    requires s.inEntry && !s.failed && s.current == None && s.summary == ""
    ensures Run(s, Element("summary", text)) == s.(summary := if IsWhiteSpace(text) then "" else text)
    ensures Closes(s, Element("summary", text)) == []
  {
    ElementRun(s, "summary", text);
    assert "summary" != "title";
    assert "" + text == text;
  }

  /** An ignored element, such as `updated`, `category` or `id`, changes nothing. */
  lemma {:induction false} IgnoredRun(s: Scan, name: string, text: string)
    requires s.inEntry && !s.failed && s.current == None && Ignored(name)
    ensures Run(s, Element(name, text)) == s
    ensures Closes(s, Element(name, text)) == []
  {
    ElementRun(s, name, text);
  }

  /** Any list of ignored elements changes nothing. */
  lemma {:induction false} IgnoredElementsRun(s: Scan, es: seq<(string, string)>)
    requires s.inEntry && !s.failed && s.current == None
    requires forall k :: 0 <= k < |es| ==> Ignored(es[k].0)
    ensures Run(s, Elements(es)) == s
    ensures Closes(s, Elements(es)) == []
    decreases |es|
  {
    if es != [] {
      var p := es[..|es| - 1];
      var last := es[|es| - 1];
      assert forall k :: 0 <= k < |p| ==> p[k] == es[k];
      IgnoredElementsRun(s, p);
      IgnoredRun(s, last.0, last.1);
      Chain(s, Elements(p), s, Element(last.0, last.1), s);
    }
  }

  /** Reading an entry's body right after it opened fills the buffers and produces nothing. */
  lemma {:induction false} BodyFills(x: EntryText)
    requires PlainEntry(x)
    ensures Run(EntryStart, EntryBody(x)) == Filled(x)
    ensures Closes(EntryStart, EntryBody(x)) == []
  {
    var t := Element("title", x.title);
    var a := t + LinkEvents(x.link);
    var b := a + Element("summary", x.summary);
    var s1 := EntryStart.(title := if IsWhiteSpace(x.title) then "" else x.title);
    var s2 := s1.(altLink := if x.link.Some? then x.link.value else "");
    TitleRun(EntryStart, x.title);
    LinkRun(s1, x.link);
    Chain(EntryStart, t, s1, LinkEvents(x.link), s2);
    SummaryRun(s2, x.summary);
    Chain(EntryStart, a, s2, Element("summary", x.summary), Filled(x));
    IgnoredElementsRun(Filled(x), x.others);
    Chain(EntryStart, b, Filled(x), Elements(x.others), Filled(x));
  }

  /** One entry read from an idle state closes once, with the filled buffers, and leaves the state idle. */
  lemma {:induction false} EntryRun(s: Scan, x: EntryText)
    requires Idle(s) && PlainEntry(x)
    ensures Run(s, EntryEvents(x)) == Filled(x).(inEntry := false)
    ensures Closes(s, EntryEvents(x)) == [Filled(x)]
  {
    var open := Start("entry", None, None);
    assert EntryEvents(x) == [open] + (EntryBody(x) + [End("entry")]);
    RunCons(s, open, EntryBody(x) + [End("entry")]);
    assert Step(s, open) == EntryStart;
    BodyFills(x);
    RunSnoc(EntryStart, EntryBody(x), End("entry"));
  }

  /** The filled buffers of an entry give the expected filing. */
  lemma {:induction false} FilledGivesExpected(x: EntryText)
    ensures CandidateOf(Filled(x)) == Expected(x)
  {
    TrimOfOneText(x.title);
    TrimOfOneText(x.summary);
  }

  /** One entry read from an idle state produces exactly the expected filing and leaves the state idle. */
  lemma {:induction false} EntryYields(s: Scan, x: EntryText)
    requires Idle(s) && PlainEntry(x)
    ensures Idle(Run(s, EntryEvents(x)))
    ensures Stored(Closes(s, EntryEvents(x))) == [Expected(x)]
  {
    EntryRun(s, x);
    FilledGivesExpected(x);
    assert Stored([Filled(x)]) == [CandidateOf(Filled(x))] by {
      assert [Filled(x)][..0] == [];
    }
  }

  /** The events of a sequence of entries, one after the other. */
  function Feed(xs: seq<EntryText>): seq<Event>
    decreases |xs|
  {
    if xs == [] then [] else Feed(xs[..|xs| - 1]) + EntryEvents(xs[|xs| - 1])
  }

  /** The filings expected for a sequence of entries, in order. */
  function ExpectedAll(xs: seq<EntryText>): seq<Candidate>
    decreases |xs|
  {
    if xs == [] then [] else ExpectedAll(xs[..|xs| - 1]) + [Expected(xs[|xs| - 1])]
  }

  /** A sequence of entries read from an idle state produces one expected filing per entry, in order. */
  lemma {:induction false} FeedYields(s: Scan, xs: seq<EntryText>)
    requires Idle(s)
    requires forall k :: 0 <= k < |xs| ==> PlainEntry(xs[k])
    ensures Idle(Run(s, Feed(xs)))
    ensures Stored(Closes(s, Feed(xs))) == ExpectedAll(xs)
    decreases |xs|
  {
    if xs != [] {
      var p := xs[..|xs| - 1];
      var x := xs[|xs| - 1];
      assert forall k :: 0 <= k < |p| ==> p[k] == xs[k];
      FeedYields(s, p);
      RunSplit(s, Feed(p), EntryEvents(x));
      EntryYields(Run(s, Feed(p)), x);
      StoredConcat(Closes(s, Feed(p)), Closes(Run(s, Feed(p)), EntryEvents(x)));
    }
  }

  /** A text event the extractor never keeps: all of its characters are XML white space. */
  predicate Blank(e: Event) {
    e.Characters? && IsWhiteSpace(e.data)
  }

  /** The events `q` without their white-space-only text events (indentation, line breaks). */
  function NoWs(q: seq<Event>): (r: seq<Event>)
    ensures forall k :: 0 <= k < |r| ==> !Blank(r[k])
    decreases |q|
  {
    if q == [] then []
    else NoWs(q[..|q| - 1]) + (if Blank(q[|q| - 1]) then [] else [q[|q| - 1]])
  }

  /**
   * White-space-only text, wherever it stands in the stream, changes no
   * variable and closes no entry: reading `q` and reading `q` without it
   * end in the same state, after the same closing states.
   */
  lemma {:induction false} WhiteSpaceIsSilent(s: Scan, q: seq<Event>)
    ensures Run(s, q) == Run(s, NoWs(q))
    ensures Closes(s, q) == Closes(s, NoWs(q))
    decreases |q|
  {
    if q != [] {
      var p := q[..|q| - 1];
      var e := q[|q| - 1];
      assert q == p + [e];
      WhiteSpaceIsSilent(s, p);
      RunSnoc(s, p, e);
      if Blank(e) {
        assert NoWs(q) == NoWs(p);
        assert !Closing(Run(s, p), e);
      } else {
        assert NoWs(q) == NoWs(p) + [e];
        RunSnoc(s, NoWs(p), e);
      }
    }
  }

  /**
   * A feed given exactly as `header`, the entries' events and `trailer`: the
   * header and the trailer open no entry and hold no malformed point (the
   * feed's own title, links, update time, author). The extractor yields
   * exactly one filing per entry, in document order, built from that
   * entry's texts alone.
   */
  lemma {:induction false} ExactFeed(header: seq<Event>, xs: seq<EntryText>, trailer: seq<Event>)
    requires forall k :: 0 <= k < |header| ==> !OpensEntry(header[k]) && header[k] != Fault
    requires forall k :: 0 <= k < |trailer| ==> !OpensEntry(trailer[k]) && trailer[k] != Fault
    requires forall k :: 0 <= k < |xs| ==> PlainEntry(xs[k])
    ensures Extract(header + Feed(xs) + trailer) == ExpectedAll(xs)
    ensures !Run(Initial, header + Feed(xs) + trailer).failed
  {
    OutsideEntryIsSilent(Initial, header);
    RunSplit(Initial, header, Feed(xs));
    FeedYields(Initial, xs);
    var s := Run(Initial, header + Feed(xs));
    OutsideEntryIsSilent(s, trailer);
    RunSplit(Initial, header + Feed(xs), trailer);
    assert Closes(Initial, header + Feed(xs)) == Closes(Initial, Feed(xs)) by {
      assert [] + Closes(Initial, Feed(xs)) == Closes(Initial, Feed(xs));
    }
    assert Closes(Initial, header + Feed(xs) + trailer) == Closes(Initial, Feed(xs));
  }

  /**
   * Any stream that is such a feed once white-space-only text is set aside:
   * indented and line-broken documents, and elements written self-closing
   * (`<category term="10-K"/>` reads as an element whose text is empty).
   * The extractor yields exactly one filing per entry, in document order,
   * without failure.
   */
  lemma {:induction false} WellFormedFeed(es: seq<Event>, header: seq<Event>, xs: seq<EntryText>, trailer: seq<Event>)
    requires NoWs(es) == NoWs(header + Feed(xs) + trailer)
    requires forall k :: 0 <= k < |header| ==> !OpensEntry(header[k]) && header[k] != Fault
    requires forall k :: 0 <= k < |trailer| ==> !OpensEntry(trailer[k]) && trailer[k] != Fault
    requires forall k :: 0 <= k < |xs| ==> PlainEntry(xs[k])
    ensures Extract(es) == ExpectedAll(xs)
    ensures !Run(Initial, es).failed
  {
    WhiteSpaceIsSilent(Initial, es);
    WhiteSpaceIsSilent(Initial, header + Feed(xs) + trailer);
    ExactFeed(header, xs, trailer);
  }

  /**
   * The origin is put in front of every captured link, even one that is
   * already absolute: an entry linking to `https://www.sec.gov/a` yields the
   * link `https://www.sec.govhttps://www.sec.gov/a`.
   */
  lemma {:induction false} AbsoluteLinkGetsOriginAgain(title: string, path: string, summary: string,
                                                       others: seq<(string, string)>)
    requires forall k :: 0 <= k < |others| ==> Ignored(others[k].0)
    ensures var x := EntryText(title, Some(Origin + path), summary, others);
      |Extract(Feed([x]))| == 1 && Extract(Feed([x]))[0].link == Origin + Origin + path
  {
    var x := EntryText(title, Some(Origin + path), summary, others);
    ExactFeed([], [x], []);
    assert [] + Feed([x]) + [] == Feed([x]);
    assert ExpectedAll([x]) == [Expected(x)] by {
      assert [x][..0] == [];
    }
  }
}
