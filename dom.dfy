/** The rendered document, abstracted to its elements in document order,
    each with a tag name and its attributes, and the media-resolution pass
    that every article runs over its document before it is packaged. */
module Dom {
  import opened Wrappers

  type Attrs = map<string, string>

  datatype Element = Element(tag: string, attrs: Attrs)

  /** The attribute the packer reads: the id of the asset a media element shows. */
  const JOB_ID := "data-soma-job-id"
  /** The attribute `download_img` leaves on an image it has turned into an asset. */
  const LIB_PENDING := "data-libingester-asset-id"
  /** The prototype's name for the same pending attribute. */
  const PF_PENDING := "data-pillowfort-asset-id"

  /** Matched by the selector `img, video, audio`. */
  predicate IsMedia(e: Element)
  {
    e.tag == "img" || e.tag == "video" || e.tag == "audio"
  }

  /** `$e.attr(name)` is truthy: present and not empty. */
  predicate HasAttr(e: Element, name: string)
  {
    name in e.attrs && e.attrs[name] != ""
  }

  /** `$e.attr(name)`: the value, or `undefined` when absent. */
  function Attr(e: Element, name: string): Option<string>
  {
    if name in e.attrs then Some(e.attrs[name]) else None
  }

  /** The pass's work on one element: a media element whose pending
      attribute is set gets that value as its job id and loses the pending
      attribute; any other element is left alone. */
  function Rewrite(e: Element, pending: string): Element
  {
    if IsMedia(e) && HasAttr(e, pending) then
      Element(e.tag, e.attrs[JOB_ID := e.attrs[pending]] - {pending})
    else
      e
  }

  /** After its rewrite, a media element still has no job id. */
  predicate Unresolved(e: Element, pending: string)
  {
    IsMedia(e) && !HasAttr(Rewrite(e, pending), JOB_ID)
  }

  /** Whether the pass went through, and the document it leaves behind
      (the pass throws at the first unresolved element, leaving the
      elements after it untouched). */
  datatype Resolution = Resolution(ok: bool, doc: seq<Element>)

  /** The media-resolution pass as the source runs it, element by element. */
  function ResolveMedia(doc: seq<Element>, pending: string): (r: Resolution)
    ensures |r.doc| == |doc|
  {
    if doc == [] then Resolution(true, [])
    else if Unresolved(doc[0], pending) then Resolution(false, [Rewrite(doc[0], pending)] + doc[1..])
    else
      var rest := ResolveMedia(doc[1..], pending);
      Resolution(rest.ok, [Rewrite(doc[0], pending)] + rest.doc)
  }

  /** The index of the first unresolved media element, or `|doc|`. */
  function FirstUnresolved(doc: seq<Element>, pending: string): (k: nat)
    ensures k <= |doc|
    ensures forall i :: 0 <= i < k ==> !Unresolved(doc[i], pending)
    ensures k < |doc| ==> Unresolved(doc[k], pending)
  {
    if doc == [] then 0
    else if Unresolved(doc[0], pending) then 0
    else 1 + FirstUnresolved(doc[1..], pending)
  }

  /** The document with its first `n` elements rewritten. */
  function RewritePrefix(doc: seq<Element>, n: nat, pending: string): (r: seq<Element>)
    requires n <= |doc|
    ensures |r| == |doc|
  {
    seq(|doc|, i requires 0 <= i < |doc| => if i < n then Rewrite(doc[i], pending) else doc[i])
  }

  /** The pass succeeds exactly when no media element is left unresolved;
      it rewrites every element up to and including the first unresolved
      one and leaves the rest untouched. */
  lemma {:induction false} ResolveMediaSpec(doc: seq<Element>, pending: string)
    ensures ResolveMedia(doc, pending).ok <==> forall i :: 0 <= i < |doc| ==> !Unresolved(doc[i], pending)
    ensures var k := FirstUnresolved(doc, pending);
      ResolveMedia(doc, pending).doc == RewritePrefix(doc, if k < |doc| then k + 1 else k, pending)
    decreases |doc|
  {
    if doc != [] && !Unresolved(doc[0], pending) {
      ResolveMediaSpec(doc[1..], pending);
      var k := FirstUnresolved(doc[1..], pending);
      var n := if k < |doc[1..]| then k + 1 else k;
      assert ResolveMedia(doc, pending).doc == RewritePrefix(doc, n + 1, pending);
      assert (forall i :: 0 <= i < |doc| ==> !Unresolved(doc[i], pending))
        <==> (forall i :: 0 <= i < |doc[1..]| ==> !Unresolved(doc[1..][i], pending)) by {
        forall i | 0 < i < |doc| ensures doc[i] == doc[1..][i - 1] { }
      }
    } else if doc != [] {
      assert ResolveMedia(doc, pending).doc == RewritePrefix(doc, 1, pending);
    }
  }

  /** What a successful pass guarantees about every element: media elements
      that carried the pending attribute now carry its value as job id and
      no longer the pending attribute; every media element has a job id;
      other elements are unchanged. */
  lemma ResolvedDocument(doc: seq<Element>, pending: string, i: nat)
    requires pending != JOB_ID
    requires ResolveMedia(doc, pending).ok && i < |doc|
    ensures var e := ResolveMedia(doc, pending).doc[i];
      && (IsMedia(doc[i]) ==> HasAttr(e, JOB_ID))
      && (IsMedia(doc[i]) && HasAttr(doc[i], pending) ==>
            pending !in e.attrs && e.attrs[JOB_ID] == doc[i].attrs[pending]
            && forall a :: a != pending && a != JOB_ID ==> Attr(e, a) == Attr(doc[i], a))
      && (!(IsMedia(doc[i]) && HasAttr(doc[i], pending)) ==> e == doc[i])
  {
    ResolveMediaSpec(doc, pending);
    assert !Unresolved(doc[i], pending);
  }

  /** The pass is idempotent: running it on the document it produced gives
      the same verdict and changes nothing more. */
  lemma {:induction false} ResolveMediaIdempotent(doc: seq<Element>, pending: string)
    requires pending != JOB_ID
    ensures ResolveMedia(ResolveMedia(doc, pending).doc, pending) == ResolveMedia(doc, pending)
    decreases |doc|
  {
    if doc != [] {
      var e := Rewrite(doc[0], pending);
      assert Rewrite(e, pending) == e;
      var r := ResolveMedia(doc, pending);
      assert r.doc[0] == e;
      if Unresolved(doc[0], pending) {
        assert r.doc[1..] == doc[1..];
        assert ResolveMedia(r.doc, pending) == Resolution(false, [e] + doc[1..]);
      } else {
        ResolveMediaIdempotent(doc[1..], pending);
        assert r.doc[1..] == ResolveMedia(doc[1..], pending).doc;
      }
    }
  }

  /** One step of the loop: with the first `i` elements done, the pass on
      the whole document is the pass on the rest behind them; rewriting
      element `i` either ends the pass or keeps that relation one element
      further on. */
  lemma ResolveMediaStep(doc: seq<Element>, d: seq<Element>, i: nat, pending: string)
    requires i < |doc| == |d| && d[i..] == doc[i..]
    requires ResolveMedia(doc, pending).ok == ResolveMedia(doc[i..], pending).ok
    requires ResolveMedia(doc, pending).doc == d[..i] + ResolveMedia(doc[i..], pending).doc
    ensures var d' := d[i := Rewrite(doc[i], pending)];
      && d'[i + 1..] == doc[i + 1..]
      && (Unresolved(doc[i], pending) ==> ResolveMedia(doc, pending) == Resolution(false, d'))
      && (!Unresolved(doc[i], pending) ==>
            && ResolveMedia(doc, pending).ok == ResolveMedia(doc[i + 1..], pending).ok
            && ResolveMedia(doc, pending).doc == d'[..i + 1] + ResolveMedia(doc[i + 1..], pending).doc)
  {
    var d' := d[i := Rewrite(doc[i], pending)];
    assert doc[i..][0] == doc[i] && doc[i..][1..] == doc[i + 1..];
    assert d'[..i + 1] == d[..i] + [Rewrite(doc[i], pending)];
    if Unresolved(doc[i], pending) {
      assert d' == d'[..i + 1] + doc[i + 1..];
    }
  }

  /** The pass as an in-place loop over the elements the selector
      `img, video, audio` matches: set the job id from the pending
      attribute and drop the latter, then throw if the element has no job
      id. */
  method ResolveMediaLoop(doc: seq<Element>, pending: string) returns (r: Resolution)
    requires pending != JOB_ID
    ensures r == ResolveMedia(doc, pending)
  {
    var d := doc;
    var i := 0;
    while i < |d|
      invariant 0 <= i <= |d| == |doc|
      invariant d[i..] == doc[i..]
      invariant ResolveMedia(doc, pending).ok == ResolveMedia(doc[i..], pending).ok
      invariant ResolveMedia(doc, pending).doc == d[..i] + ResolveMedia(doc[i..], pending).doc
    {
      ResolveMediaStep(doc, d, i, pending);
      var e := d[i];
      assert e == doc[i];
      if IsMedia(e) {
        if HasAttr(e, pending) {
          e := Element(e.tag, e.attrs[JOB_ID := e.attrs[pending]] - {pending});
        }
        assert e == Rewrite(doc[i], pending);
        d := d[i := e];
        if !HasAttr(e, JOB_ID) {
          return Resolution(false, d);
        }
      } else {
        assert d == d[i := Rewrite(doc[i], pending)];
      }
      i := i + 1;
    }
    assert doc[i..] == [] && d[..i] == d;
    r := Resolution(true, d);
  }

  /** The ids the elements carrying a job id refer to (the selector
      `[data-soma-job-id]` matches any element that has the attribute, empty
      or not). */
  function JobIds(doc: seq<Element>): set<string>
  {
    set i | 0 <= i < |doc| && JOB_ID in doc[i].attrs :: doc[i].attrs[JOB_ID]
  }

  /** The same ids as a list in document order, as `.map(...).get()` returns them. */
  function JobIdList(doc: seq<Element>): (r: seq<string>)
    ensures forall x :: x in r <==> x in JobIds(doc)
    decreases |doc|
  {
    if doc == [] then []
    else
      var rest := JobIdList(doc[1..]);
      assert forall x :: x in JobIds(doc[1..]) <==> exists i :: 1 <= i < |doc| && JOB_ID in doc[i].attrs && doc[i].attrs[JOB_ID] == x by {
        forall x ensures x in JobIds(doc[1..]) <==> exists i :: 1 <= i < |doc| && JOB_ID in doc[i].attrs && doc[i].attrs[JOB_ID] == x {
          if x in JobIds(doc[1..]) {
            var j :| 0 <= j < |doc[1..]| && JOB_ID in doc[1..][j].attrs && doc[1..][j].attrs[JOB_ID] == x;
            assert doc[j + 1] == doc[1..][j];
          }
          if exists i :: 1 <= i < |doc| && JOB_ID in doc[i].attrs && doc[i].attrs[JOB_ID] == x {
            var i :| 1 <= i < |doc| && JOB_ID in doc[i].attrs && doc[i].attrs[JOB_ID] == x;
            assert doc[1..][i - 1] == doc[i];
          }
        }
      }
      (if JOB_ID in doc[0].attrs then [doc[0].attrs[JOB_ID]] else []) + rest
  }

  /** After a successful pass every media element's job id is among the
      document's job ids. */
  lemma ResolvedMediaIdsCollected(doc: seq<Element>, pending: string, i: nat)
    requires pending != JOB_ID
    requires ResolveMedia(doc, pending).ok && i < |doc| && IsMedia(doc[i])
    ensures var e := ResolveMedia(doc, pending).doc[i];
      HasAttr(e, JOB_ID) && e.attrs[JOB_ID] in JobIds(ResolveMedia(doc, pending).doc)
  {
    ResolvedDocument(doc, pending, i);
  }

  /** A node of a parsed page as a scraper holds it: its tag, its
      attributes, which the download helpers change in place, its parent,
      and two properties of a page's root node: `root` and the
      `$pillowfort_base_uri` the prototype's `fetch_html` stores there. */
  class Node {
    const tag: string
    var attrs: Attrs
    var parent: Node?
    var root: Node?
    var baseUri: Option<string>

    /** The node's tag and current attributes as a value. */
    function Value(): Element
      reads this
    {
      Element(tag, attrs)
    }

    constructor(tag: string, attrs: Attrs, parent: Node?)
      ensures this.tag == tag && this.attrs == attrs && this.parent == parent
      ensures root == null && baseUri.None?
    {
      this.tag := tag;
      this.attrs := attrs;
      this.parent := parent;
      root := null;
      baseUri := None;
    }
  }
}
