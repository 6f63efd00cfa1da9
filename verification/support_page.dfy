/** The FAQ search of the support page: a case-insensitive substring search
    over question and answer, combined with a category filter. The FAQ
    entries themselves are page content; the filter is modelled over any
    list of entries. */
module SupportPage {
  import opened Text

  datatype Faq = Faq(category: string, question: string, answer: string)

  /** The category button that disables the category filter. */
  const AllCategories := "all"

  /** The search box test: the lower-cased question or answer contains the
      lower-cased query. */
  predicate MatchesSearch(faq: Faq, query: string) {
    Includes(Lower(faq.question), Lower(query)) || Includes(Lower(faq.answer), Lower(query))
  }

  predicate MatchesCategory(faq: Faq, category: string) {
    category == AllCategories || faq.category == category
  }

  /** The `filter` callback. */
  predicate Kept(faq: Faq, query: string, category: string) {
    MatchesSearch(faq, query) && MatchesCategory(faq, category)
  }

  /** `faqs.filter(...)`, element by element. */
  function FilterSpec(faqs: seq<Faq>, query: string, category: string): (r: seq<Faq>)
    ensures |r| <= |faqs|
    decreases |faqs|
  {
    if |faqs| == 0 then []
    else (if Kept(faqs[0], query, category) then [faqs[0]] else []) + FilterSpec(faqs[1..], query, category)
  }

  /** `filteredFaqs`, computed in one pass over the list from its last entry
      back to its first, putting each kept entry in front of those already
      kept. */
  method FilteredFaqs(faqs: seq<Faq>, query: string, category: string) returns (r: seq<Faq>)
    ensures r == FilterSpec(faqs, query, category)
  {
    r := [];
    var i := |faqs|;
    while i > 0
      invariant 0 <= i <= |faqs|
      invariant r == FilterSpec(faqs[i..], query, category)
      decreases i
    {
      i := i - 1;
      assert faqs[i..][1..] == faqs[i + 1..];
      if Kept(faqs[i], query, category) {
        r := [faqs[i]] + r;
      }
    }
    assert faqs[0..] == faqs;
  }

  /** `r` is `s` with some entries dropped, the rest in their original order. */
  predicate Subsequence(r: seq<Faq>, s: seq<Faq>)
    decreases |s|
  {
    if |r| == 0 then true
    else if |s| == 0 then false
    else (r[0] == s[0] && Subsequence(r[1..], s[1..])) || Subsequence(r, s[1..])
  }

  /** The filter keeps order: its result is a subsequence of the list. */
  lemma {:induction false} FilterIsSubsequence(faqs: seq<Faq>, query: string, category: string)
    ensures Subsequence(FilterSpec(faqs, query, category), faqs)
    decreases |faqs|
  {
    if |faqs| > 0 {
      var rest := FilterSpec(faqs[1..], query, category);
      FilterIsSubsequence(faqs[1..], query, category);
      if Kept(faqs[0], query, category) {
        assert FilterSpec(faqs, query, category) == [faqs[0]] + rest;
        assert ([faqs[0]] + rest)[1..] == rest;
      } else {
        assert FilterSpec(faqs, query, category) == rest;
      }
    }
  }

  /** An entry is in the result exactly when it is in the list and kept. */
  lemma {:induction false} FilterMembership(faqs: seq<Faq>, query: string, category: string, faq: Faq)
    ensures faq in FilterSpec(faqs, query, category) <==> faq in faqs && Kept(faq, query, category)
    decreases |faqs|
  {
    if |faqs| > 0 {
      FilterMembership(faqs[1..], query, category, faq);
      assert faq in faqs <==> faq == faqs[0] || faq in faqs[1..] by {
        assert faqs == [faqs[0]] + faqs[1..];
      }
    }
  }

  /** Unless the category is "all", every result has the selected category. */
  lemma CategoryRespected(faqs: seq<Faq>, query: string, category: string)
    requires category != AllCategories
    ensures forall faq :: faq in FilterSpec(faqs, query, category) ==> faq.category == category
  {
    forall faq | faq in FilterSpec(faqs, query, category) ensures faq.category == category {
      FilterMembership(faqs, query, category, faq);
    }
  }

  /** An empty query in category "all" lists every entry, in order. */
  lemma {:induction false} EmptyQueryListsAll(faqs: seq<Faq>)
    ensures FilterSpec(faqs, "", AllCategories) == faqs
    decreases |faqs|
  {
    if |faqs| > 0 {
      assert Lower("") == "";
      IncludesEmpty(Lower(faqs[0].question));
      assert Kept(faqs[0], "", AllCategories);
      EmptyQueryListsAll(faqs[1..]);
      assert faqs == [faqs[0]] + faqs[1..];
    }
  }

  /** Searching ignores the letter case of the query. */
  lemma QueryCaseIgnored(faq: Faq, query: string)
    ensures Kept(faq, query, AllCategories) <==> Kept(faq, Lower(query), AllCategories)
  {
    assert Lower(Lower(query)) == Lower(query) by {
      assert forall i :: 0 <= i < |query| ==> Lower(Lower(query))[i] == Lower(query)[i];
    }
  }

  datatype Panel = Listing(entries: seq<Faq>) | NoResults

  /** What the FAQ section shows: the listing, or the "No results found"
      panel when nothing is kept. */
  function FaqPanel(faqs: seq<Faq>, query: string, category: string): (p: Panel)
    ensures p.NoResults? <==> forall faq :: faq in faqs ==> !Kept(faq, query, category)
    ensures p.Listing? ==> p.entries == FilterSpec(faqs, query, category) && |p.entries| > 0
  {
    var r := FilterSpec(faqs, query, category);
    forall faq | faq in faqs ensures faq in r <==> Kept(faq, query, category) {
      FilterMembership(faqs, query, category, faq);
    }
    if |r| == 0 then NoResults
    else
      FilterMembership(faqs, query, category, r[0]);
      Listing(r)
  }
}
