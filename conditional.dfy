/**
 * The validators the poller keeps between two polls of the feed, the
 * conditional headers they put on the next request (If-None-Match and
 * If-Modified-Since, sections 3.2 and 3.3 of RFC 7232), and how a response's
 * ETag and Last-Modified headers replace them.
 */
module ConditionalRequest {
  import opened Options

  /** The last entity tag and the last modification date seen, each null until a response carried one. */
  datatype Validators = Validators(etag: Option<string>, lastModified: Option<string>)

  const NoValidators: Validators := Validators(None, None)

  /** A header line: its name and its value. */
  type Header = (string, string)

  /** ASCII case folding of one character. */
  function Lower(c: char): (r: char)
    ensures 'A' <= c <= 'Z' ==> r as int == c as int + 32
    ensures !('A' <= c <= 'Z') ==> r == c
  {
    if 'A' <= c <= 'Z' then (c as int + 32) as char else c
  }

  /** ASCII case folding of a header name. */
  function LowerName(s: string): (r: string)
    ensures |r| == |s|
  {
    seq(|s|, i requires 0 <= i < |s| => Lower(s[i]))
  }

  /** Header `h` is called `name`, a name in lower case, whatever the case `h` is written in. */
  predicate Named(h: Header, name: string) {
    LowerName(h.0) == name
  }

  /**
   * The value of the first header called `name` (given in lower case, as the
   * service asks for it), or null when there is none.
   */
  function FirstValue(hs: seq<Header>, name: string): (r: Option<string>)
    ensures r.Some? ==> exists h :: h in hs && Named(h, name) && h.1 == r.value
    ensures r.None? ==> forall h :: h in hs ==> !Named(h, name)
    decreases |hs|
  {
    if hs == [] then None
    else if Named(hs[0], name) then Some(hs[0].1)
    else FirstValue(hs[1..], name)
  }

  /**
   * `FirstValue` finds the first header called `name`: a value means that
   * header is at some index, with no header of that name before it; null
   * means no header has that name.
   */
  lemma {:induction false} FirstValueIsFirst(hs: seq<Header>, name: string)
    ensures FirstValue(hs, name).Some? ==>
      exists i :: 0 <= i < |hs| && Named(hs[i], name) && hs[i].1 == FirstValue(hs, name).value
        && forall j :: 0 <= j < i ==> !Named(hs[j], name)
    ensures FirstValue(hs, name).None? ==> forall i :: 0 <= i < |hs| ==> !Named(hs[i], name)
    decreases |hs|
  {
    if hs != [] && !Named(hs[0], name) {
      FirstValueIsFirst(hs[1..], name);
      var t := hs[1..];
      if FirstValue(t, name).Some? {
        var i :| 0 <= i < |t| && Named(t[i], name) && t[i].1 == FirstValue(t, name).value
          && forall j :: 0 <= j < i ==> !Named(t[j], name);
        assert hs[i + 1] == t[i];
        forall j | 0 <= j < i + 1
          ensures !Named(hs[j], name)
        {
          if j > 0 {
            assert hs[j] == t[j - 1];
          }
        }
      } else {
        forall i | 0 <= i < |hs|
          ensures !Named(hs[i], name)
        {
          if i > 0 {
            assert hs[i] == t[i - 1];
          }
        }
      }
    }
  }

  /** Writing the header names of a response in another case changes no value found. */
  lemma {:induction false} FirstValueIgnoresCase(hs: seq<Header>, hs': seq<Header>, name: string)
    requires |hs| == |hs'|
    requires forall i :: 0 <= i < |hs| ==> LowerName(hs[i].0) == LowerName(hs'[i].0) && hs[i].1 == hs'[i].1
    ensures FirstValue(hs, name) == FirstValue(hs', name)
    decreases |hs|
  {
    if hs != [] {
      assert forall i :: 0 <= i < |hs| - 1 ==> hs[1..][i] == hs[i + 1] && hs'[1..][i] == hs'[i + 1];
      FirstValueIgnoresCase(hs[1..], hs'[1..], name);
    }
  }

  /** The value of the first header whose name is exactly `name`, or null. */
  function ValueOf(hs: seq<Header>, name: string): Option<string>
    decreases |hs|
  {
    if hs == [] then None
    else if hs[0].0 == name then Some(hs[0].1)
    else ValueOf(hs[1..], name)
  }

  /** The conditional headers for the next request: one per validator held, carrying it verbatim. */
  function ConditionalHeaders(v: Validators): (r: seq<Header>)
    ensures |r| <= 2
    ensures forall k :: 0 <= k < |r| ==> r[k].0 == "If-None-Match" || r[k].0 == "If-Modified-Since"
  {
    (if v.etag.Some? then [("If-None-Match", v.etag.value)] else [])
      + (if v.lastModified.Some? then [("If-Modified-Since", v.lastModified.value)] else [])
  }

  /**
   * If-None-Match goes out exactly when an entity tag is held, with that tag;
   * If-Modified-Since exactly when a modification date is held, with that date;
   * and nothing else is added.
   */
  lemma {:induction false} ConditionalHeadersIff(v: Validators)
    ensures ValueOf(ConditionalHeaders(v), "If-None-Match") == v.etag
    ensures ValueOf(ConditionalHeaders(v), "If-Modified-Since") == v.lastModified
    ensures |ConditionalHeaders(v)| == (if v.etag.Some? then 1 else 0) + (if v.lastModified.Some? then 1 else 0)
  {
  }

  /**
   * The validators after a response with headers `hs`, whatever its status:
   * each is replaced by the response's header of that name when there is one
   * and kept otherwise, independently of the other.
   */
  function Observe(v: Validators, hs: seq<Header>): (r: Validators)
    ensures v.etag.Some? ==> r.etag.Some?
    ensures v.lastModified.Some? ==> r.lastModified.Some?
    ensures r.etag != v.etag ==> r.etag == FirstValue(hs, "etag")
    ensures r.lastModified != v.lastModified ==> r.lastModified == FirstValue(hs, "last-modified")
  {
    Validators(if FirstValue(hs, "etag").Some? then FirstValue(hs, "etag") else v.etag,
               if FirstValue(hs, "last-modified").Some? then FirstValue(hs, "last-modified") else v.lastModified)
  }

  /** The validators after responses with headers `rs[0]`, `rs[1]`, ... in turn. */
  function ObserveAll(v: Validators, rs: seq<seq<Header>>): Validators
    decreases |rs|
  {
    if rs == [] then v else Observe(ObserveAll(v, rs[..|rs| - 1]), rs[|rs| - 1])
  }

  /** The value of header `name` in the latest response that carried one, or `dflt` when none did. */
  function Latest(rs: seq<seq<Header>>, name: string, dflt: Option<string>): Option<string>
    decreases |rs|
  {
    if rs == [] then dflt
    else if FirstValue(rs[|rs| - 1], name).Some? then FirstValue(rs[|rs| - 1], name)
    else Latest(rs[..|rs| - 1], name, dflt)
  }

  /**
   * After any run of responses, each validator is the one carried by the latest
   * response that had that header, or the one held before when none had it: the
   * entity tag and the date may come from different responses.
   */
  lemma {:induction false} ObserveAllIsLatest(v: Validators, rs: seq<seq<Header>>)
    ensures ObserveAll(v, rs) == Validators(Latest(rs, "etag", v.etag), Latest(rs, "last-modified", v.lastModified))
    decreases |rs|
  {
    if rs != [] {
      ObserveAllIsLatest(v, rs[..|rs| - 1]);
    }
  }

  /** A response without the header keeps that validator, and a held validator is never cleared. */
  lemma {:induction false} ValidatorsNeverCleared(v: Validators, rs: seq<seq<Header>>)
    ensures v.etag.Some? ==> ObserveAll(v, rs).etag.Some?
    ensures v.lastModified.Some? ==> ObserveAll(v, rs).lastModified.Some?
    ensures (forall k :: 0 <= k < |rs| ==> FirstValue(rs[k], "etag").None?) ==> ObserveAll(v, rs).etag == v.etag
    ensures (forall k :: 0 <= k < |rs| ==> FirstValue(rs[k], "last-modified").None?) ==> ObserveAll(v, rs).lastModified == v.lastModified
    decreases |rs|
  {
    if rs != [] {
      var p := rs[..|rs| - 1];
      assert forall k :: 0 <= k < |p| ==> p[k] == rs[k];
      ValidatorsNeverCleared(v, p);
    }
  }

  /**
   * A first response that carries both headers, then one that carries only a
   * new entity tag: the next request pairs the new tag with the old date.
   */
  lemma {:induction false} MixedPair(t1: string, d1: string, t2: string)
    ensures ObserveAll(NoValidators, [[("ETag", t1), ("Last-Modified", d1)], [("etag", t2)]])
         == Validators(Some(t2), Some(d1))
  {
    var r1: seq<Header> := [("ETag", t1), ("Last-Modified", d1)];
    var r2: seq<Header> := [("etag", t2)];
    assert LowerName("ETag") == "etag";
    assert LowerName("Last-Modified") == "last-modified";
    assert FirstValue(r1, "etag") == Some(t1);
    assert FirstValue(r1, "last-modified") == Some(d1) by {
      assert r1[1..] == [("Last-Modified", d1)];
    }
    assert FirstValue(r2, "etag") == Some(t2);
    assert FirstValue(r2, "last-modified") == None by {
      assert r2[1..] == [];
    }
    var rs := [r1, r2];
    assert rs[..1] == [r1] && [r1][..0] == [];
  }
}
