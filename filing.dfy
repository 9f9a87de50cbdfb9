/**
 * The `filing` row as the service builds it: a mutable record with six
 * nullable fields, two constructors, and a getter and a setter per field.
 */
module Entity {
  import opened Options

  /** Java's `Long`: a signed 64-bit integer. */
  newtype Long = x: int | -0x8000_0000_0000_0000 <= x < 0x8000_0000_0000_0000

  /** Java's `Instant`: seconds since the epoch and a nanosecond adjustment. */
  datatype Instant = Instant(epochSecond: int, nano: int)

  /** The contents of a filing at one moment: what the store receives when it is saved. */
  datatype Row = Row(id: Option<Long>, title: Option<string>, link: Option<string>,
                     summary: Option<string>, rowCreation: Option<Instant>, updatedAt: Option<Instant>)

  class Filing {
    var id: Option<Long>
    var title: Option<string>
    var link: Option<string>
    var summary: Option<string>
    /** Set by the store when the row is inserted; the service never writes it. */
    var rowCreation: Option<Instant>
    /** Set by the store; the service never writes it. */
    var updatedAt: Option<Instant>

    /** The six fields as a value. */
    function Contents(): Row
      reads this
    {
      Row(id, title, link, summary, rowCreation, updatedAt)
    }

    /** `new Filing()`: every field is null. */
    constructor ()
      ensures id == None && title == None && link == None && summary == None
      ensures rowCreation == None && updatedAt == None
    {
      id, title, link, summary := None, None, None, None;
      rowCreation, updatedAt := None, None;
    }

    /** `new Filing(title, link, summary)`: the three texts as given, the rest null. */
    constructor WithContent(title: Option<string>, link: Option<string>, summary: Option<string>)
      ensures this.title == title && this.link == link && this.summary == summary
      ensures id == None && rowCreation == None && updatedAt == None
    {
      this.id := None;
      this.title, this.link, this.summary := title, link, summary;
      this.rowCreation, this.updatedAt := None, None;
    }

    method GetId() returns (r: Option<Long>)
      ensures r == id
    {
      r := id;
    }

    method SetId(id: Option<Long>)
      modifies this`id
      ensures this.id == id
      ensures title == old(title) && link == old(link) && summary == old(summary)
      ensures rowCreation == old(rowCreation) && updatedAt == old(updatedAt)
    {
      this.id := id;
    }

    method GetTitle() returns (r: Option<string>)
      ensures r == title
    {
      r := title;
    }

    method SetTitle(title: Option<string>)
      modifies this`title
      ensures this.title == title
      ensures id == old(id) && link == old(link) && summary == old(summary)
      ensures rowCreation == old(rowCreation) && updatedAt == old(updatedAt)
    {
      this.title := title;
    }

    method GetLink() returns (r: Option<string>)
      ensures r == link
    {
      r := link;
    }

    method SetLink(link: Option<string>)
      modifies this`link
      ensures this.link == link
      ensures id == old(id) && title == old(title) && summary == old(summary)
      ensures rowCreation == old(rowCreation) && updatedAt == old(updatedAt)
    {
      this.link := link;
    }

    method GetSummary() returns (r: Option<string>)
      ensures r == summary
    {
      r := summary;
    }

    method SetSummary(summary: Option<string>)
      modifies this`summary
      ensures this.summary == summary
      ensures id == old(id) && title == old(title) && link == old(link)
      ensures rowCreation == old(rowCreation) && updatedAt == old(updatedAt)
    {
      this.summary := summary;
    }

    method GetRowCreation() returns (r: Option<Instant>)
      ensures r == rowCreation
    {
      r := rowCreation;
    }

    method SetRowCreation(rowCreation: Option<Instant>)
      modifies this`rowCreation
      ensures this.rowCreation == rowCreation
      ensures id == old(id) && title == old(title) && link == old(link) && summary == old(summary)
      ensures updatedAt == old(updatedAt)
    {
      this.rowCreation := rowCreation;
    }

    method GetUpdatedAt() returns (r: Option<Instant>)
      ensures r == updatedAt
    {
      r := updatedAt;
    }

    method SetUpdatedAt(updatedAt: Option<Instant>)
      modifies this`updatedAt
      ensures this.updatedAt == updatedAt
      ensures id == old(id) && title == old(title) && link == old(link) && summary == old(summary)
      ensures rowCreation == old(rowCreation)
    {
      this.updatedAt := updatedAt;
    }
  }

  /**
   * What a caller observes through the getters after filling a fresh record
   * through the setters: each getter returns the last value stored in its own
   * field, whatever was stored in the other fields in between, and the fields
   * no setter touched still hold the constructor's null.
   */
  method ReadBackAfterSetters(t1: Option<string>, t2: Option<string>, l: Option<string>,
                              s: Option<string>, i: Option<Long>)
    returns (id: Option<Long>, title: Option<string>, link: Option<string>,
             summary: Option<string>, created: Option<Instant>, updated: Option<Instant>)
    ensures id == i && title == t2 && link == l && summary == s
    ensures created == None && updated == None
  {
    var f := new Filing();
    f.SetTitle(t1);
    f.SetLink(l);
    f.SetTitle(t2);
    f.SetSummary(s);
    f.SetId(i);
    id := f.GetId();
    title := f.GetTitle();
    link := f.GetLink();
    summary := f.GetSummary();
    created := f.GetRowCreation();
    updated := f.GetUpdatedAt();
  }

  /** The same through the three-argument constructor followed by a setter. */
  method ReadBackAfterConstructor(t: Option<string>, l: Option<string>, s: Option<string>,
                                  s2: Option<string>)
    returns (id: Option<Long>, title: Option<string>, link: Option<string>, summary: Option<string>)
    ensures id == None && title == t && link == l && summary == s2
  {
    var f := new Filing.WithContent(t, l, s);
    f.SetSummary(s2);
    id := f.GetId();
    title := f.GetTitle();
    link := f.GetLink();
    summary := f.GetSummary();
  }
}
