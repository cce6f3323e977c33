/**
 * The pure parts of the autocomplete input: the suggestion records, the
 * case-insensitive label filter, the first-match lookups that play the part
 * of `suggestions.find(...)`, and the arithmetic of the highlighted index.
 */
module Suggestions {
  import opened Wrappers
  import opened TextMatch

  /** A suggestion's `change`: the source types it `string | number`. */
  datatype Value = Text(text: string) | Number(n: int)

  /**
   * A label shown in the dropdown and the value it stands for. The label is
   * called `caption` here because `label` is a Dafny keyword.
   */
  datatype Suggestion = Suggestion(caption: string, change: Value)

  /** `suggestions.map((s) => s.label)`. */
  function Labels(ss: seq<Suggestion>): (r: seq<string>)
    ensures |r| == |ss|
    ensures forall i :: 0 <= i < |ss| ==> r[i] == ss[i].caption
  {
    seq(|ss|, i requires 0 <= i < |ss| => ss[i].caption)
  }

  /** The filter's test: the lower-cased label contains the lower-cased query. */
  predicate Matches(caption: string, query: string): (b: bool)
    ensures query == "" ==> b
    ensures b ==> |query| <= |caption|
  {
    Includes(Lower(caption), Lower(query))
  }

  /** The test ignores case: upper- or lower-casing the label or the query never changes it. */
  lemma MatchesIgnoresCase(caption: string, query: string)
    ensures Matches(Upper(caption), query) == Matches(caption, query)
    ensures Matches(caption, Upper(query)) == Matches(caption, query)
    ensures Matches(Lower(caption), query) == Matches(caption, query)
    ensures Matches(caption, Lower(query)) == Matches(caption, query)
  {
    LowerOfUpper(caption);
    LowerOfUpper(query);
    LowerIdempotent(caption);
    LowerIdempotent(query);
  }

  /** `labels.filter((label) => Matches(label, query))`, in order. */
  function FilterLabels(labels: seq<string>, query: string): (r: seq<string>)
    ensures |r| <= |labels|
    ensures forall i :: 0 <= i < |r| ==> Matches(r[i], query)
  {
    if labels == [] then []
    else if Matches(labels[0], query) then [labels[0]] + FilterLabels(labels[1..], query)
    else FilterLabels(labels[1..], query)
  }

  /** `a` is `b` with some elements removed and the rest kept in order. */
  ghost predicate IsSubsequence<T>(a: seq<T>, b: seq<T>) {
    if a == [] then true
    else if b == [] then false
    else (a[0] == b[0] && IsSubsequence(a[1..], b[1..])) || IsSubsequence(a, b[1..])
  }

  /**
   * Every label occurs in the filtered list exactly as often as in the input
   * when it matches, and not at all when it does not.
   */
  lemma {:induction false} FilterLabelsCount(labels: seq<string>, query: string, x: string)
    ensures multiset(FilterLabels(labels, query))[x]
         == if Matches(x, query) then multiset(labels)[x] else 0
  {
    if labels != [] {
      FilterLabelsCount(labels[1..], query, x);
      assert labels == [labels[0]] + labels[1..];
      assert multiset(labels) == multiset([labels[0]]) + multiset(labels[1..]);
    }
  }

  /** A label is kept exactly when it is one of the input labels and matches. */
  lemma FilterLabelsMembers(labels: seq<string>, query: string, x: string)
    ensures x in FilterLabels(labels, query) <==> x in labels && Matches(x, query)
  {
    FilterLabelsCount(labels, query, x);
    assert x in FilterLabels(labels, query) <==> multiset(FilterLabels(labels, query))[x] > 0;
    assert x in labels <==> multiset(labels)[x] > 0;
  }

  /** The filter keeps the order in which the labels were given. */
  lemma {:induction false} FilterLabelsInOrder(labels: seq<string>, query: string)
    ensures IsSubsequence(FilterLabels(labels, query), labels)
  {
    if labels != [] {
      FilterLabelsInOrder(labels[1..], query);
      var rest := FilterLabels(labels[1..], query);
      if Matches(labels[0], query) {
        assert ([labels[0]] + rest)[1..] == rest;
      } else {
        SkipHead(rest, labels);
      }
    }
  }

  /** A subsequence of the tail is a subsequence of the whole. */
  lemma {:induction false} SkipHead<T>(a: seq<T>, b: seq<T>)
    requires b != [] && IsSubsequence(a, b[1..])
    ensures IsSubsequence(a, b)
  {
  }

  /** The first element of `ss` that satisfies `p`, like `Array.prototype.find`. */
  function Find(ss: seq<Suggestion>, p: Suggestion -> bool): (r: Option<Suggestion>)
    ensures r.None? <==> forall i :: 0 <= i < |ss| ==> !p(ss[i])
    ensures r.Some? ==> exists i :: 0 <= i < |ss| && ss[i] == r.value && p(ss[i])
                                     && forall j :: 0 <= j < i ==> !p(ss[j])
  {
    if ss == [] then None
    else if p(ss[0]) then Some(ss[0])
    else
      var r := Find(ss[1..], p);
      assert r.Some? ==> exists i :: 0 < i < |ss| && ss[i] == r.value && p(ss[i])
                                     && forall j :: 0 <= j < i ==> !p(ss[j]) by {
        if r.Some? {
          var k :| 0 <= k < |ss| - 1 && ss[1..][k] == r.value && p(ss[1..][k])
                   && forall j :: 0 <= j < k ==> !p(ss[1..][j]);
          assert forall j :: 1 <= j < k + 1 ==> ss[j] == ss[1..][j - 1];
        }
      }
      r
  }

  /** `suggestions.find((s) => s.label === caption)`. */
  function FindByLabel(ss: seq<Suggestion>, caption: string): (r: Option<Suggestion>)
    ensures r.None? <==> forall i :: 0 <= i < |ss| ==> ss[i].caption != caption
    ensures r.Some? ==> r.value.caption == caption
                        && exists i :: 0 <= i < |ss| && ss[i] == r.value
                                       && forall j :: 0 <= j < i ==> ss[j].caption != caption
  {
    Find(ss, (s: Suggestion) => s.caption == caption)
  }

  /** `suggestions.find((s) => s.change === value)`; `undefined` matches nothing. */
  function FindByChange(ss: seq<Suggestion>, value: Option<Value>): (r: Option<Suggestion>)
    ensures value.None? ==> r.None?
    ensures value.Some? ==> (r.None? <==> forall i :: 0 <= i < |ss| ==> ss[i].change != value.value)
    ensures r.Some? ==> value == Some(r.value.change)
                        && exists i :: 0 <= i < |ss| && ss[i] == r.value
                                       && forall j :: 0 <= j < i ==> ss[j].change != value.value
  {
    match value
    case None => None
    case Some(v) => Find(ss, (s: Suggestion) => s.change == v)
  }

  /** Every label in `labels` belongs to some suggestion of `ss`. */
  predicate LabelsOf(labels: seq<string>, ss: seq<Suggestion>) {
    forall l :: l in labels ==> l in Labels(ss)
  }

  /**
   * What the filter effect leaves in `filteredSuggestions`: the matching
   * labels while the user is typing a non-empty text, otherwise nothing.
   */
  function FilteredFor(ss: seq<Suggestion>, inputValue: string, typing: bool): (r: seq<string>)
    ensures inputValue == "" || !typing ==> r == []
    ensures LabelsOf(r, ss)
  {
    if inputValue != "" && typing then
      var r := FilterLabels(Labels(ss), inputValue);
      assert LabelsOf(r, ss) by {
        forall l | l in r ensures l in Labels(ss) {
          FilterLabelsMembers(Labels(ss), inputValue, l);
        }
      }
      r
    else []
  }

  /** A label taken from the filtered list always names a suggestion. */
  lemma FilteredLabelIsFound(ss: seq<Suggestion>, labels: seq<string>, i: int)
    requires LabelsOf(labels, ss) && 0 <= i < |labels|
    ensures FindByLabel(ss, labels[i]).Some?
  {
    assert labels[i] in Labels(ss);
    var k :| 0 <= k < |ss| && Labels(ss)[k] == labels[i];
    assert ss[k].caption == labels[i];
  }

  /** The keys `handleKeyDown` distinguishes; any other key is ignored. */
  datatype Key = ArrowDown | ArrowUp | Enter | Escape | OtherKey(name: string)

  /**
   * The highlighted index after an arrow key over a list of `len` labels:
   * ArrowDown moves down unless on the last label, ArrowUp moves up and
   * falls back to -1 (nothing highlighted) from the first label.
   */
  function MoveIndex(key: Key, prev: int, len: nat): (r: int)
    ensures -1 <= prev <= len - 1 ==> -1 <= r <= len - 1
    ensures key.ArrowDown? ==> (r == prev + 1 && r <= len - 1) || (r == prev && prev >= len - 1)
    ensures key.ArrowUp? ==> (r == prev - 1 && r >= 0) || (r == -1 && prev <= 0)
    ensures !key.ArrowDown? && !key.ArrowUp? ==> r == prev
  {
    match key
    case ArrowDown => if prev < len - 1 then prev + 1 else prev
    case ArrowUp => if prev > 0 then prev - 1 else -1
    case _ => prev
  }

  /** The index after a run of keys, each applied by `MoveIndex`. */
  function Navigate(keys: seq<Key>, start: int, len: nat): int {
    if keys == [] then start else Navigate(keys[1..], MoveIndex(keys[0], start, len), len)
  }

  /** Starting anywhere in [-1, len-1], arrow keys never leave that range. */
  lemma {:induction false} NavigateStaysInRange(keys: seq<Key>, start: int, len: nat)
    requires -1 <= start <= len - 1
    ensures -1 <= Navigate(keys, start, len) <= len - 1
  {
    if keys != [] {
      NavigateStaysInRange(keys[1..], MoveIndex(keys[0], start, len), len);
    }
  }

  /** `n` presses of ArrowDown move the highlight `n` places down, stopping at the last label. */
  lemma {:induction false} ArrowDownWalksTheList(n: nat, start: int, len: nat)
    requires -1 <= start <= len - 1
    ensures Navigate(seq(n, _ => ArrowDown), start, len)
         == if start + n <= len - 1 then start + n else len - 1
  {
    if n > 0 {
      var keys := seq(n, _ => ArrowDown);
      assert keys[1..] == seq(n - 1, _ => ArrowDown);
      ArrowDownWalksTheList(n - 1, MoveIndex(ArrowDown, start, len), len);
    }
  }

  /** `n` presses of ArrowUp move the highlight `n` places up, stopping at -1 (nothing highlighted). */
  lemma {:induction false} ArrowUpWalksTheList(n: nat, start: int, len: nat)
    requires -1 <= start <= len - 1
    ensures Navigate(seq(n, _ => ArrowUp), start, len)
         == if start - n >= -1 then start - n else -1
  {
    if n > 0 {
      var keys := seq(n, _ => ArrowUp);
      assert keys[1..] == seq(n - 1, _ => ArrowUp);
      ArrowUpWalksTheList(n - 1, MoveIndex(ArrowUp, start, len), len);
    }
  }

  /** ArrowUp undoes an ArrowDown that moved, and ArrowDown undoes an ArrowUp from a highlighted label. */
  lemma ArrowKeysUndoEachOther(i: int, len: nat)
    ensures -1 <= i < len - 1 ==> MoveIndex(ArrowUp, MoveIndex(ArrowDown, i, len), len) == i
    ensures 0 <= i <= len - 1 ==> MoveIndex(ArrowDown, MoveIndex(ArrowUp, i, len), len) == i
  {
  }
}
