/** `handleSearch` of client/src/pages/found-feed.tsx over the found reports. */
module FoundFeed {
  import opened Seqs
  import opened Schema
  import opened Search

  /** The query matches the document type, the description or a non-empty found location,
      ignoring case. */
  predicate MatchesQuery(query: string, d: FoundDocument) {
    || Mentions(d.documentType, query)
    || Mentions(d.description, query)
    || (d.foundLocation != "" && Mentions(d.foundLocation, query))
  }

  /** The type is the report's document type, exactly. */
  predicate OfType(kind: string, d: FoundDocument) {
    d.documentType == kind
  }

  /** The found location is not empty and mentions the location, ignoring case. */
  predicate AtLocation(location: string, d: FoundDocument) {
    d.foundLocation != "" && Mentions(d.foundLocation, location)
  }

  /** A report passes every filter that is filled in. */
  predicate Passes(f: Filters, d: FoundDocument) {
    && (f.query != "" ==> MatchesQuery(f.query, d))
    && (TypeActive(f) ==> OfType(f.kind, d))
    && (f.location != "" ==> AtLocation(f.location, d))
  }

  function ByQuery(query: string): FoundDocument -> bool {
    d => MatchesQuery(query, d)
  }

  function ByType(kind: string): FoundDocument -> bool {
    d => OfType(kind, d)
  }

  function ByLocation(location: string): FoundDocument -> bool {
    d => AtLocation(location, d)
  }

  function Passing(f: Filters): FoundDocument -> bool {
    d => Passes(f, d)
  }

  /** `handleSearch`: the query, type and location filters in that order. The result keeps
      the reports that pass every active filter, in their original order. */
  function HandleSearch(docs: seq<FoundDocument>, f: Filters): (r: seq<FoundDocument>)
    ensures r == Filter(docs, Passing(f))
    ensures SubSeq(r, docs)
    ensures forall i :: 0 <= i < |r| ==> Passes(f, r[i])
    ensures forall i :: 0 <= i < |docs| && Passes(f, docs[i]) ==> docs[i] in r
  {
    SearchIsOneFilter(docs, f);
    FilterIsSubSeq(docs, Passing(f));
    When(f.location != "", When(TypeActive(f), When(f.query != "", docs, ByQuery(f.query)), ByType(f.kind)), ByLocation(f.location))
  }

  /** The three steps together are one filter by `Passes`. */
  lemma SearchIsOneFilter(docs: seq<FoundDocument>, f: Filters)
    ensures When(f.location != "", When(TypeActive(f), When(f.query != "", docs, ByQuery(f.query)), ByType(f.kind)), ByLocation(f.location))
            == Filter(docs, Passing(f))
  {
    var every := Every(f.query != "", ByQuery(f.query), TypeActive(f), ByType(f.kind), f.location != "", ByLocation(f.location));
    ChainIsOneFilter(docs, f.query != "", ByQuery(f.query), TypeActive(f), ByType(f.kind), f.location != "", ByLocation(f.location));
    assert forall i :: 0 <= i < |docs| ==> every(docs[i]) == Passing(f)(docs[i]);
    FilterExt(docs, every, Passing(f));
  }

  /** With no query, no location and type "" or "all", the whole list is shown. */
  lemma NoFiltersShowsAll(docs: seq<FoundDocument>, kind: string)
    requires kind == "" || kind == "all"
    ensures HandleSearch(docs, Filters("", kind, "")) == docs
  {
    FilterAll(docs, Passing(Filters("", kind, "")));
  }

  /** Applying the three filters in the opposite order gives the same list. */
  lemma FiltersCommute(docs: seq<FoundDocument>, f: Filters)
    ensures HandleSearch(docs, f)
            == When(f.query != "", When(TypeActive(f), When(f.location != "", docs, ByLocation(f.location)), ByType(f.kind)), ByQuery(f.query))
  {
    ChainCommutes(docs, f.query != "", ByQuery(f.query), TypeActive(f), ByType(f.kind), f.location != "", ByLocation(f.location));
  }
}
