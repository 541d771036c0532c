/**
 * `gallery_list`: the search page. Both view modules of the app carry the
 * same function, so it is modelled once here.
 */
module Listing {
  import opened Seqs
  import opened Text
  import opened Models

  /** What the list page is rendered with: the galleries and the echoed query. */
  datatype ListPage = ListPage(galleries: seq<Gallery>, searchQuery: string)

  /** `request.GET.get('q', '')`. */
  function QueryParam(params: map<string, string>): string
  {
    if "q" in params then params["q"] else ""
  }

  /** `title__icontains=q | description__icontains=q`. */
  predicate Matches(g: Gallery, q: string, lower: char -> char)
  {
    ContainsIgnoringCase(g.title, q, lower) || ContainsIgnoringCase(g.description, q, lower)
  }

  /**
   * The table in its default order when the query is empty; otherwise the rows
   * whose title or description contains the query, folded by `lower`.
   */
  function GalleryList(all: seq<Gallery>, params: map<string, string>, lower: char -> char): (r: ListPage)
    ensures r.searchQuery == QueryParam(params)
    ensures r.searchQuery == "" ==> r.galleries == all
    ensures r.searchQuery != "" ==>
              forall g :: g in r.galleries <==> g in all && Matches(g, r.searchQuery, lower)
    ensures UniqueBy(all, GalleryId) ==> UniqueBy(r.galleries, GalleryId)
  {
    var q := QueryParam(params);
    if q != "" then
      var keep := (g: Gallery) => Matches(g, q, lower);
      assert UniqueBy(all, GalleryId) ==> UniqueBy(Filter(all, keep), GalleryId) by {
        if UniqueBy(all, GalleryId) { FilterUnique(all, keep, GalleryId); }
      }
      ListPage(Filter(all, keep), q)
    else
      ListPage(all, q)
  }

  /** A missing `q` and an empty `q` list the same galleries. */
  lemma MissingQueryIsEmptyQuery(all: seq<Gallery>, lower: char -> char)
    ensures GalleryList(all, map[], lower) == GalleryList(all, map["q" := ""], lower)
  {
  }

  /** A gallery whose title contains the query verbatim is listed, whatever the folding. */
  lemma TitleMatchIsListed(all: seq<Gallery>, g: Gallery, q: string, lower: char -> char)
    requires g in all && IsInfix(q, g.title)
    ensures g in GalleryList(all, map["q" := q], lower).galleries
  {
    ExactInfixMatches(q, g.title, lower);
  }

  /** Searching never reorders: the page for `xs + ys` lists the matches of `xs` first. */
  lemma ListingKeepsOrder(xs: seq<Gallery>, ys: seq<Gallery>, params: map<string, string>, lower: char -> char)
    ensures GalleryList(xs + ys, params, lower).galleries ==
            GalleryList(xs, params, lower).galleries + GalleryList(ys, params, lower).galleries
  {
    var q := QueryParam(params);
    if q != "" {
      FilterAppend(xs, ys, (g: Gallery) => Matches(g, q, lower));
    }
  }
}
