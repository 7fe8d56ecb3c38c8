/**
  The documentation search box of the landing page (`filteredDocs` in
  `my-book/src/pages/index.tsx`): the six built-in entries, kept in order when their
  lower-cased title or content contains the lower-cased query.
 */
module DocsSearch {
  import opened Text

  datatype Doc = Doc(id: int, title: string, content: string)

  /** The six entries the page lists. */
  const LandingDocs: seq<Doc> := [
    Doc(1, "Getting Started",
      "Learn how to set up your first robotics project with our comprehensive guide. Includes installation, configuration, and basic concepts."),
    Doc(2, "AI Integration",
      "Integrate advanced AI models to enhance your robot's decision-making capabilities. Supports TensorFlow, PyTorch, and custom models."),
    Doc(3, "API Reference",
      "Complete API documentation with code examples for motion control, sensor integration, and real-time communication."),
    Doc(4, "Hardware Setup",
      "Detailed guides for setting up robotics hardware, including motor controllers, sensors, and communication protocols."),
    Doc(5, "Best Practices",
      "Industry best practices for robotics development, optimization techniques, and performance tuning."),
    Doc(6, "Troubleshooting",
      "Common issues and solutions for debugging your robotics applications. Includes diagnostic tools and error handling.")
  ]

  /** The filter's test for one entry. */
  predicate Matches(d: Doc, query: string)
    ensures Matches(d, query) <==>
      (exists i :: OccursAt(ToLower(d.title), ToLower(query), i)) || (exists i :: OccursAt(ToLower(d.content), ToLower(query), i))
  {
    Contains(ToLower(d.title), ToLower(query)) || Contains(ToLower(d.content), ToLower(query))
  }

  /** `docs.filter(...)`: the matching entries, each kept exactly when it matches. */
  function FilterDocs(docs: seq<Doc>, query: string): (kept: seq<Doc>)
    ensures |kept| <= |docs|
    ensures forall d :: d in kept <==> d in docs && Matches(d, query)
    decreases |docs|
  {
    if docs == [] then []
    else (if Matches(docs[0], query) then [docs[0]] else []) + FilterDocs(docs[1..], query)
  }

  /** One entry is kept exactly when it matches. */
  lemma FilterDocsOfOne(d: Doc, query: string)
    ensures FilterDocs([d], query) == if Matches(d, query) then [d] else []
  {
    assert [d][1..] == [];
  }

  /** The filter works entry by entry: filtering a concatenation filters each part, so every matching copy is kept. */
  lemma {:induction false} FilterDocsAppend(a: seq<Doc>, b: seq<Doc>, query: string)
    ensures FilterDocs(a + b, query) == FilterDocs(a, query) + FilterDocs(b, query)
    decreases |a|
  {
    if a == [] {
      assert a + b == b;
    } else {
      FilterDocsAppend(a[1..], b, query);
      assert (a + b)[0] == a[0] && (a + b)[1..] == a[1..] + b;
    }
  }

  /** `a` is `b` with some elements left out and the rest in their original order. */
  predicate Subsequence<T(==)>(a: seq<T>, b: seq<T>)
    decreases |b|
  {
    if a == [] then true
    else if b == [] then false
    else (a[0] == b[0] && Subsequence(a[1..], b[1..])) || Subsequence(a, b[1..])
  }

  /** The filter keeps the order of the list it filters. */
  lemma {:induction false} FilterDocsSubsequence(docs: seq<Doc>, query: string)
    ensures Subsequence(FilterDocs(docs, query), docs)
    decreases |docs|
  {
    if docs != [] {
      FilterDocsSubsequence(docs[1..], query);
      var rest := FilterDocs(docs[1..], query);
      if Matches(docs[0], query) {
        assert FilterDocs(docs, query) == [docs[0]] + rest;
        assert ([docs[0]] + rest)[1..] == rest;
      } else {
        assert FilterDocs(docs, query) == rest;
        if rest != [] {
          assert Subsequence(rest, docs[1..]);
        }
      }
    }
  }

  /** The empty query is contained in every lower-cased title, so it keeps the whole list. */
  lemma {:induction false} EmptyQueryKeepsAll(docs: seq<Doc>)
    ensures FilterDocs(docs, "") == docs
    decreases |docs|
  {
    if docs != [] {
      EmptyQueryKeepsAll(docs[1..]);
      assert ToLower("") == "";
      ContainsEmpty(ToLower(docs[0].title));
      assert [docs[0]] + docs[1..] == docs;
    }
  }

  /** So before anything is typed the page shows all six entries. */
  lemma NothingTypedShowsSix()
    ensures FilterDocs(LandingDocs, "") == LandingDocs && |FilterDocs(LandingDocs, "")| == 6
  {
    EmptyQueryKeepsAll(LandingDocs);
  }

  /** Filtering twice with the same query changes nothing more. */
  lemma {:induction false} FilterDocsIdempotent(docs: seq<Doc>, query: string)
    ensures FilterDocs(FilterDocs(docs, query), query) == FilterDocs(docs, query)
    decreases |docs|
  {
    if docs != [] {
      FilterDocsIdempotent(docs[1..], query);
      var rest := FilterDocs(docs[1..], query);
      if Matches(docs[0], query) {
        var kept := [docs[0]] + rest;
        assert FilterDocs(docs, query) == kept;
        assert kept[0] == docs[0] && kept[1..] == rest;
        assert FilterDocs(kept, query) == [docs[0]] + FilterDocs(rest, query);
      } else {
        assert FilterDocs(docs, query) == rest;
      }
    }
  }
}
