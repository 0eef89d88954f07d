/** What the JSON query adapters share: the per-language document path, and
    the three stream pipelines over a list that may have failed to load —
    find the first match, keep the matches, sort stably. A read failure is
    passed on unchanged by each. */
module Lookup {
  import opened Wrappers
  import opened Errors
  import opened Languages
  import opened Sequences

  /** `language == Language.EN_EN ? "data/en/" + file : "data/es/" + file`. */
  function LocalePath(l: Language, file: string): (r: string)
    ensures |r| == |file| + 8 && r[8..] == file
  {
    (if l == EN_EN then "data/en/" else "data/es/") + file
  }

  /** Distinct languages or distinct files never share a document. */
  lemma LocalePathInjective(l: Language, m: Language, f: string, g: string)
    ensures LocalePath(l, f) == LocalePath(m, g) <==> l == m && f == g
  {
    if LocalePath(l, f) == LocalePath(m, g) {
      assert LocalePath(l, f)[6] == (if l == EN_EN then 'n' else 's');
      assert LocalePath(m, g)[6] == (if m == EN_EN then 'n' else 's');
    }
  }

  // ---- filter(p).findFirst() ---------------------------------------------

  /** r is the outcome of `filter(p).findFirst()` on the loaded list: the
      read failure itself, or the first element satisfying p, or empty
      exactly when none does. */
  ghost predicate IsLookup<T>(all: Result<seq<T>, Failure>, p: T -> bool, r: Result<Option<T>, Failure>) {
    if all.Failure? then r == Failure(all.error)
    else
      && r.Success?
      && (r.value.None? <==> forall i :: 0 <= i < |all.value| ==> !p(all.value[i]))
      && (r.value.Some? ==> exists k :: FirstMatchAt(all.value, p, k) && all.value[k] == r.value.value)
  }

  function FindIn<T>(all: Result<seq<T>, Failure>, p: T -> bool): (r: Result<Option<T>, Failure>)
    ensures IsLookup(all, p, r)
  {
    match all
    case Failure(e) => Failure(e)
    case Success(s) => Success(FindFirst(s, p))
  }

  /** Any listed element satisfying p means the lookup finds one, and what it
      finds is listed and satisfies p. */
  lemma LookupFindsListed<T>(all: Result<seq<T>, Failure>, p: T -> bool, r: Result<Option<T>, Failure>, x: T)
    requires IsLookup(all, p, r)
    requires all.Success? && x in all.value && p(x)
    ensures r.Success? && r.value.Some?
    ensures r.value.value in all.value && p(r.value.value)
  {
    var i :| 0 <= i < |all.value| && all.value[i] == x;
    var k :| FirstMatchAt(all.value, p, k) && all.value[k] == r.value.value;
  }

  /** When x is the only listed element satisfying p, the lookup finds x. */
  lemma LookupUnique<T>(all: Result<seq<T>, Failure>, p: T -> bool, r: Result<Option<T>, Failure>, x: T)
    requires IsLookup(all, p, r)
    requires all.Success? && x in all.value && p(x)
    requires forall i :: 0 <= i < |all.value| && p(all.value[i]) ==> all.value[i] == x
    ensures r == Success(Some(x))
  {
    LookupFindsListed(all, p, r, x);
    var k :| FirstMatchAt(all.value, p, k) && all.value[k] == r.value.value;
  }

  // ---- filter(p).toList() ------------------------------------------------

  /** r is the outcome of `filter(p).toList()` on the loaded list: the read
      failure itself, or the elements satisfying p, in list order, each as
      often as listed. */
  ghost predicate IsSelection<T(!new)>(all: Result<seq<T>, Failure>, p: T -> bool, r: Result<seq<T>, Failure>) {
    if all.Failure? then r == Failure(all.error)
    else
      && r.Success?
      && IsSubsequence(r.value, all.value)
      && forall x :: multiset(r.value)[x] == if p(x) then multiset(all.value)[x] else 0
  }

  function FilterIn<T(==,!new)>(all: Result<seq<T>, Failure>, p: T -> bool): (r: Result<seq<T>, Failure>)
    ensures IsSelection(all, p, r)
  {
    match all
    case Failure(e) => Failure(e)
    case Success(s) => Success(Filter(s, p))
  }

  // ---- sorted(comparator).toList() ---------------------------------------

  /** r is the outcome of a stable `sorted` on the loaded list: the read
      failure itself, or a permutation of the list in le-order of keys in
      which elements with equal keys keep their listed order. */
  ghost predicate IsStableSort<T(!new), K(!new)>(all: Result<seq<T>, Failure>, key: T -> K, le: (K, K) -> bool, r: Result<seq<T>, Failure>) {
    if all.Failure? then r == Failure(all.error)
    else
      && r.Success?
      && multiset(r.value) == multiset(all.value)
      && SortedBy(r.value, key, le)
      && forall k :: WithKey(r.value, key, k) == WithKey(all.value, key, k)
  }

  function SortIn<T(==,!new), K(==,!new)>(all: Result<seq<T>, Failure>, key: T -> K, le: (K, K) -> bool): (r: Result<seq<T>, Failure>)
    requires TotalPreorder(le)
    ensures IsStableSort(all, key, le, r)
  {
    match all
    case Failure(e) => Failure(e)
    case Success(s) =>
      SortBySorted(s, key, le);
      SortByStable(s, key, le);
      Success(SortBy(s, key, le))
  }
}
