/** `handleSearch` of client/src/pages/lost-feed.tsx over the joined lost reports. */
module LostFeed {
  import opened Optional
  import opened Seqs
  import opened Schema
  import opened Search
  import opened Utils

  /** The query matches the document name, the report description or a non-empty lost
      location, ignoring case. */
  predicate MatchesQuery(query: string, d: LostDocumentView) {
    || Mentions(d.document.name, query)
    || Mentions(d.report.description, query)
    || (Truthy(d.report.lostLocation) && Mentions(d.report.lostLocation.value, query))
  }

  /** The type is the document's type, exactly. */
  predicate OfType(kind: string, d: LostDocumentView) {
    d.document.kind == kind
  }

  /** The report has a non-empty lost location that mentions the location, ignoring case. */
  predicate AtLocation(location: string, d: LostDocumentView) {
    Truthy(d.report.lostLocation) && Mentions(d.report.lostLocation.value, location)
  }

  /** A report passes every filter that is filled in. */
  predicate Passes(f: Filters, d: LostDocumentView) {
    && (f.query != "" ==> MatchesQuery(f.query, d))
    && (TypeActive(f) ==> OfType(f.kind, d))
    && (f.location != "" ==> AtLocation(f.location, d))
  }

  function ByQuery(query: string): LostDocumentView -> bool {
    d => MatchesQuery(query, d)
  }

  function ByType(kind: string): LostDocumentView -> bool {
    d => OfType(kind, d)
  }

  function ByLocation(location: string): LostDocumentView -> bool {
    d => AtLocation(location, d)
  }

  function Passing(f: Filters): LostDocumentView -> bool {
    d => Passes(f, d)
  }

  /** `handleSearch`: the query, type and location filters in that order. The result keeps
      the reports that pass every active filter, in their original order. */
  function HandleSearch(docs: seq<LostDocumentView>, f: Filters): (r: seq<LostDocumentView>)
    ensures r == Filter(docs, Passing(f))
    ensures SubSeq(r, docs)
    ensures forall i :: 0 <= i < |r| ==> Passes(f, r[i])
    ensures forall i :: 0 <= i < |docs| && Passes(f, docs[i]) ==> docs[i] in r
  {
    SearchIsOneFilter(docs, f);
    FilterIsSubSeq(docs, Passing(f));
    When(f.location != "", When(TypeActive(f), When(f.query != "", docs, ByQuery(f.query)), ByType(f.kind)), ByLocation(f.location))
  }

  /** The three steps together are one filter by `Passes`. */
  lemma SearchIsOneFilter(docs: seq<LostDocumentView>, f: Filters)
    ensures When(f.location != "", When(TypeActive(f), When(f.query != "", docs, ByQuery(f.query)), ByType(f.kind)), ByLocation(f.location))
            == Filter(docs, Passing(f))
  {
    var every := Every(f.query != "", ByQuery(f.query), TypeActive(f), ByType(f.kind), f.location != "", ByLocation(f.location));
    ChainIsOneFilter(docs, f.query != "", ByQuery(f.query), TypeActive(f), ByType(f.kind), f.location != "", ByLocation(f.location));
    assert forall i :: 0 <= i < |docs| ==> every(docs[i]) == Passing(f)(docs[i]);
    FilterExt(docs, every, Passing(f));
  }

  /** With no query, no location and type "" or "all", the whole list is shown. */
  lemma NoFiltersShowsAll(docs: seq<LostDocumentView>, kind: string)
    requires kind == "" || kind == "all"
    ensures HandleSearch(docs, Filters("", kind, "")) == docs
  {
    FilterAll(docs, Passing(Filters("", kind, "")));
  }

  /** Picking one of the `documentTypes` as the type, with no query and no location, shows
      exactly the reports of that type: no table entry collides with "" or "all". */
  lemma PickedTypeShowsThatType(docs: seq<LostDocumentView>, kind: string)
    requires kind in DocumentTypes
    ensures HandleSearch(docs, Filters("", kind, "")) == Filter(docs, ByType(kind))
  {
    var f := Filters("", kind, "");
    assert TypeActive(f);
    assert forall i :: 0 <= i < |docs| ==> Passing(f)(docs[i]) == ByType(kind)(docs[i]);
    FilterExt(docs, Passing(f), ByType(kind));
  }

  /** Applying the three filters in the opposite order gives the same list. */
  lemma FiltersCommute(docs: seq<LostDocumentView>, f: Filters)
    ensures HandleSearch(docs, f)
            == When(f.query != "", When(TypeActive(f), When(f.location != "", docs, ByLocation(f.location)), ByType(f.kind)), ByQuery(f.query))
  {
    ChainCommutes(docs, f.query != "", ByQuery(f.query), TypeActive(f), ByType(f.kind), f.location != "", ByLocation(f.location));
  }
}
