/** The search box of the launcher window: on every change of the input
    text, the registry's repositories whose name contains the text, in
    registry order; and the reset behind the clear button. */
module Search {
  import opened Text
  import opened Repos

  /** The launcher's search state: the current text and the matches. */
  datatype SearchState = SearchState(search: string, result: seq<Repo>)

  /** `a` is `b` with some elements left out, the rest in the same order. */
  ghost predicate IsSubsequence<T>(a: seq<T>, b: seq<T>)
    decreases |b|
  {
    if a == [] then true
    else if b == [] then false
    else (a[0] == b[0] && IsSubsequence(a[1..], b[1..])) || IsSubsequence(a, b[1..])
  }

  /** `repos.iter().filter(|r| r.name.contains(text)).cloned().collect()`. */
  function Matching(repos: seq<Repo>, text: string): (r: seq<Repo>)
    ensures forall i :: 0 <= i < |r| ==> Contains(r[i].name, text)
    ensures forall x :: multiset(r)[x] == if Contains(x.name, text) then multiset(repos)[x] else 0
    ensures IsSubsequence(r, repos)
    decreases |repos|
  {
    if repos == [] then []
    else
      assert repos == [repos[0]] + repos[1..];
      var rest := Matching(repos[1..], text);
      if Contains(repos[0].name, text) then [repos[0]] + rest else rest
  }

  /** A new launcher window: no text, no matches. */
  function Initial(): (s: SearchState)
    ensures s.search == [] && s.result == []
  {
    SearchState("", [])
  }

  /** The `InputEvent::Change` handler, without the window resize: the text
      is recorded, and the result recomputed from the registry. */
  function OnChange(registry: seq<Repo>, text: string): (s: SearchState)
    ensures s.search == text
    ensures forall i :: 0 <= i < |s.result| ==> Contains(s.result[i].name, text)
    ensures forall i :: 0 <= i < |registry| && Contains(registry[i].name, text) ==> registry[i] in s.result
    ensures IsSubsequence(s.result, registry)
  {
    SearchState(text, Matching(registry, text))
  }

  /** `clear_search`: the text and the matches are emptied, as in a new
      window. */
  function ClearSearch(s: SearchState): (r: SearchState)
    ensures r.search == [] && r.result == []
    ensures r == Initial()
  {
    s.(search := "", result := [])
  }

  /** The empty text matches every repository: the result is the whole
      registry, in order. */
  lemma {:induction false} EmptySearchMatchesAll(repos: seq<Repo>)
    ensures Matching(repos, "") == repos
    decreases |repos|
  {
    if repos != [] {
      ContainsEmpty(repos[0].name);
      EmptySearchMatchesAll(repos[1..]);
      assert repos == [repos[0]] + repos[1..];
    }
  }

  /** Narrowing the search: when the new text contains the old one (as
      typing more characters does), the new matches are a subsequence of
      the old. */
  lemma {:induction false} NarrowingSearch(repos: seq<Repo>, text: string, longer: string)
    requires Contains(longer, text)
    ensures IsSubsequence(Matching(repos, longer), Matching(repos, text))
    decreases |repos|
  {
    if repos != [] {
      NarrowingSearch(repos[1..], text, longer);
      var head := repos[0];
      var narrow := Matching(repos[1..], longer);
      var wide := Matching(repos[1..], text);
      if Contains(head.name, longer) {
        ContainsTransitive(head.name, longer, text);
        assert ([head] + narrow)[1..] == narrow;
        assert ([head] + wide)[1..] == wide;
      } else if Contains(head.name, text) {
        SubsequenceOfTail(narrow, head, wide);
      }
    }
  }

  /** A subsequence of a tail is a subsequence of the whole. */
  lemma SubsequenceOfTail<T>(a: seq<T>, x: T, b: seq<T>)
    requires IsSubsequence(a, b)
    ensures IsSubsequence(a, [x] + b)
  {
  }
}
