/** The deep-link scheme of the well pages: a well's detail page lives at the
    hash route `#/well/{id}`, and the QR code on a well's card encodes
    `{origin}/#/well/{id}`. The router reads the page back from the part of
    the URL after the first '#' and takes `id` from its `/well/:id` route. */
module HashRoute {
  import opened Collections

  /** What follows the origin in every well link. */
  const WellPath: string := "/#/well/"

  /** The route of a well's detail page inside the fragment. */
  const WellRoute: string := "/well/"

  /** `${origin}/#/well/${id}`. */
  function WellLink(origin: string, id: string): (url: string)
    ensures |url| == |origin| + |WellPath| + |id|
    ensures url[..|origin|] == origin
    ensures url[|url| - |id|..] == id
  {
    origin + WellPath + id
  }

  /** The part of a URL after its first '#', if it has one. */
  function Fragment(url: string): (r: Option<string>)
    ensures r.None? <==> '#' !in url
    ensures r.Some? ==> |r.value| < |url| && url[|url| - |r.value|..] == r.value
    ensures r.Some? ==> url[|url| - |r.value| - 1] == '#' && '#' !in url[..|url| - |r.value| - 1]
  {
    var k := FirstIndex(url, c => c == '#');
    if k < 0 then None else Some(url[k + 1..])
  }

  /** The `:id` parameter of the route `/well/:id`: a non-empty path segment. */
  function WellParam(fragment: string): (r: Option<string>)
    ensures r.Some? ==> fragment == WellRoute + r.value && r.value != [] && '/' !in r.value
  {
    if |fragment| > |WellRoute| && fragment[..|WellRoute|] == WellRoute && '/' !in fragment[|WellRoute|..]
    then Some(fragment[|WellRoute|..])
    else None
  }

  lemma {:induction false} FragmentAfterFirstHash(before: string, after: string)
    requires '#' !in before
    ensures Fragment(before + "#" + after) == Some(after)
  {
    var url := before + "#" + after;
    assert url[|before|] == '#';
    assert forall j :: 0 <= j < |before| ==> url[j] == before[j];
    assert url[|before| + 1..] == after;
  }

  /** The fragment of a well link is the well's route, whatever the origin. */
  lemma WellLinkFragment(origin: string, id: string)
    requires '#' !in origin
    ensures Fragment(WellLink(origin, id)) == Some(WellRoute + id)
  {
    assert WellLink(origin, id) == (origin + "/") + "#" + (WellRoute + id);
    FragmentAfterFirstHash(origin + "/", WellRoute + id);
  }

  /** Scanning a well's QR code opens the page of that same well: the router
      recovers the id the link was built from. */
  lemma RouteRoundTrip(origin: string, id: string)
    requires '#' !in origin
    requires id != [] && '/' !in id
    ensures Fragment(WellLink(origin, id)) == Some(WellRoute + id)
    ensures WellParam(WellRoute + id) == Some(id)
  {
    WellLinkFragment(origin, id);
    assert (WellRoute + id)[..|WellRoute|] == WellRoute;
    assert (WellRoute + id)[|WellRoute|..] == id;
  }
}
