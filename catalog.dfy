/**
  The template catalog as the composer browses it: the search filter over
  the categories of src/data/projectData.js, and the `react` entry of that
  file as a fixture.
*/
module Catalog {
  import opened Text
  import opened Config

  /** The catalog: category names in declaration order, each with its templates in order. */
  type Categories = seq<(string, seq<Template>)>

  /** `name.toLowerCase().includes(term.toLowerCase()) || tip.toLowerCase().includes(term.toLowerCase())` */
  predicate Matches(t: Template, searchTerm: string) {
    Contains(Lower(t.name), Lower(searchTerm)) || Contains(Lower(t.tip), Lower(searchTerm))
  }

  /** `projects.filter(...)`: the matching templates, in catalog order. */
  function FilterTemplates(ts: seq<Template>, searchTerm: string): (r: seq<Template>)
    ensures |r| <= |ts|
    ensures forall t :: t in r <==> t in ts && Matches(t, searchTerm)
  {
    if |ts| == 0 then []
    else (if Matches(ts[0], searchTerm) then [ts[0]] else []) + FilterTemplates(ts[1..], searchTerm)
  }

  /** `filteredData`: every category is kept, under its name and in its place, with its matching templates. */
  function FilterCatalog(cs: Categories, searchTerm: string): (r: Categories)
    ensures |r| == |cs|
    ensures forall i :: 0 <= i < |cs| ==> r[i].0 == cs[i].0 && r[i].1 == FilterTemplates(cs[i].1, searchTerm)
  {
    if |cs| == 0 then [] else [(cs[0].0, FilterTemplates(cs[0].1, searchTerm))] + FilterCatalog(cs[1..], searchTerm)
  }

  /** The filter keeps catalog order: filtering a concatenation filters each part. */
  lemma {:induction false} FilterKeepsOrder(a: seq<Template>, b: seq<Template>, searchTerm: string)
    ensures FilterTemplates(a + b, searchTerm) == FilterTemplates(a, searchTerm) + FilterTemplates(b, searchTerm)
  {
    if |a| == 0 {
      assert a + b == b;
    } else {
      assert (a + b)[0] == a[0];
      assert (a + b)[1..] == a[1..] + b;
      FilterKeepsOrder(a[1..], b, searchTerm);
    }
  }

  /** An empty search term keeps every template. */
  lemma {:induction false} EmptyTermKeepsAll(ts: seq<Template>)
    ensures FilterTemplates(ts, "") == ts
  {
    if |ts| > 0 {
      ContainsEmpty(Lower(ts[0].name));
      EmptyTermKeepsAll(ts[1..]);
    }
  }

  /** Filtering twice with the same term is filtering once. */
  lemma {:induction false} FilterIdempotent(ts: seq<Template>, searchTerm: string)
    ensures FilterTemplates(FilterTemplates(ts, searchTerm), searchTerm) == FilterTemplates(ts, searchTerm)
  {
    if |ts| > 0 {
      var rest := FilterTemplates(ts[1..], searchTerm);
      FilterIdempotent(ts[1..], searchTerm);
      if Matches(ts[0], searchTerm) {
        assert FilterTemplates(ts, searchTerm) == [ts[0]] + rest;
        assert ([ts[0]] + rest)[0] == ts[0] && ([ts[0]] + rest)[1..] == rest;
      } else {
        assert FilterTemplates(ts, searchTerm) == rest;
      }
    }
  }

  /** The search ignores ASCII case in the term. */
  lemma TermCaseIgnored(t: Template, a: string, b: string)
    requires Lower(a) == Lower(b)
    ensures Matches(t, a) <==> Matches(t, b)
  {
  }

  /** The `react` entry of the `frontend` category. */
  const ReactTemplate: Template := Template(
    "react",
    "React.js",
    "\U{269B}\U{FE0F}",
    "my-react-app/",
    "React projects use bundlers like Vite or Webpack.",
    [ ("package.json", "{ \"name\": \"react-app\", \"dependencies\": { \"react\": \"^18.2.0\" } }"),
      ("src/App.jsx", "import React from 'react';\n\nfunction App() { return <h1>Hello, React!</h1>; }") ])
}

/**
  The arrow-key navigation between workspace cards in src/Composer.jsx:
  the focused card's index moves forward or back, wrapping around.
*/
module Navigation {

  /** `(index + 1) % workspaceProjects.length` */
  function Next(index: int, count: int): (r: int)
    requires 0 <= index < count
    ensures 0 <= r < count
    ensures r == if index == count - 1 then 0 else index + 1
  {
    (index + 1) % count
  }

  /** `(index - 1 + workspaceProjects.length) % workspaceProjects.length` */
  function Prev(index: int, count: int): (r: int)
    requires 0 <= index < count
    ensures 0 <= r < count
    ensures r == if index == 0 then count - 1 else index - 1
  {
    (index - 1 + count) % count
  }

  /** Forward then back, or back then forward, returns to the same card. */
  lemma NextPrevInverse(index: int, count: int)
    requires 0 <= index < count
    ensures Prev(Next(index, count), count) == index
    ensures Next(Prev(index, count), count) == index
  {
  }

  /** `k` presses forward. */
  function NextTimes(index: int, count: int, k: nat): (r: int)
    requires 0 <= index < count
    ensures 0 <= r < count
  {
    if k == 0 then index else Next(NextTimes(index, count, k - 1), count)
  }

  /** Presses compose: `a` presses then `b` presses are `a + b` presses. */
  lemma {:induction false} NextTimesAdd(index: int, count: int, a: nat, b: nat)
    requires 0 <= index < count
    ensures NextTimes(index, count, a + b) == NextTimes(NextTimes(index, count, a), count, b)
  {
    if b > 0 {
      NextTimesAdd(index, count, a, b - 1);
    }
  }

  /** Before reaching the last card, `k` presses move exactly `k` cards forward. */
  lemma {:induction false} NextTimesBelowEnd(index: int, count: int, k: nat)
    requires 0 <= index && index + k < count
    ensures NextTimes(index, count, k) == index + k
  {
    if k > 0 {
      NextTimesBelowEnd(index, count, k - 1);
    }
  }

  /** `count` presses forward come back to the card they started from. */
  lemma FullCycle(index: int, count: int)
    requires 0 <= index < count
    ensures NextTimes(index, count, count) == index
  {
    var toEnd := count - 1 - index;
    NextTimesAdd(index, count, toEnd, index + 1);
    NextTimesBelowEnd(index, count, toEnd);
    NextTimesAdd(count - 1, count, 1, index);
    assert NextTimes(count - 1, count, 1) == 0;
    NextTimesBelowEnd(0, count, index);
  }
}
